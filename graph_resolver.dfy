/**
 * The upstream-input resolver (`graph_collect_upstream_inputs`).
 *
 * Given a focus node, it finds the `imageConfig`/`videoConfig` nodes the focus node points
 * at (the sinks), and collects one block per distinct text or image node feeding any sink.
 * The method keeps the source's structure: a node map, incoming and outgoing edge maps,
 * the list of sinks, and a nested loop over sinks and their incoming edges with two
 * "seen" sets. The index maps are proved equal to reference definitions (`NodeIndex`,
 * `EdgesInto`, `EdgesFrom`), and the result is described by what every block must be
 * (`TextOk`, `ImageOk`), that no source appears twice, and that every qualifying source
 * appears.
 */
module GraphResolver {
  import opened Wrappers
  import opened Text
  import JsonValue

  datatype GraphNode = GraphNode(id: string, nodeType: string, data: JsonValue.Value)

  datatype GraphEdge = GraphEdge(source: string, target: string, data: Option<JsonValue.Value>)

  /** `caption` is the block's `label` field. */
  datatype TextBlock = TextBlock(id: string, caption: string, text: string, target: string)

  datatype ImageBlock = ImageBlock(id: string, caption: string, role: string, url: string, target: string)

  datatype UpstreamInputs = UpstreamInputs(text: seq<TextBlock>, images: seq<ImageBlock>)

  const TextLabelDefault: string := "文本节点"
  const ImageLabelDefault: string := "参考图"
  const RoleDefault: string := "input_reference"
  const TextLimit: nat := 520
  const UrlLimit: nat := 240

  predicate IsConfigType(t: string) {
    t == "imageConfig" || t == "videoConfig"
  }

  /** Edges with a blank end are dropped (`IsBlank` is `trim().is_empty()`, lemma
      `Text.TrimBlank`). */
  predicate ValidEdge(e: GraphEdge) {
    !IsBlank(e.source) && !IsBlank(e.target)
  }

  // ---------------------------------------------------------------------------
  // What a block holds
  // ---------------------------------------------------------------------------

  /** A string field of a node's payload, through `value_string`. */
  function Field(n: GraphNode, key: string): string {
    ValueString(Some(n.data), key)
  }

  function TextLabel(n: GraphNode): string {
    var lbl := Field(n, "label");
    if lbl == [] then TextLabelDefault else lbl
  }

  function ImageLabel(n: GraphNode): string {
    var lbl := Field(n, "label");
    if lbl == [] then ImageLabelDefault else lbl
  }

  /** The role is read from the contributing edge's own payload. */
  function ImageRole(e: GraphEdge): string {
    var role := ValueString(e.data, "imageRole");
    if role == [] then RoleDefault else role
  }

  /** Inline `data:` URLs are suppressed; others are cut to 240 characters. */
  function ImageUrl(n: GraphNode): string {
    var url := Field(n, "url");
    if "data:" <= url then [] else Slice(url, UrlLimit)
  }

  /** The defaults are never empty, and an inline URL is suppressed. */
  lemma BlockFieldDefaults(n: GraphNode, e: GraphEdge)
    ensures TextLabel(n) != [] && ImageLabel(n) != [] && ImageRole(e) != []
    ensures Field(n, "label") == [] ==> TextLabel(n) == TextLabelDefault && ImageLabel(n) == ImageLabelDefault
    ensures Field(n, "label") != [] ==> TextLabel(n) == Field(n, "label") && ImageLabel(n) == Field(n, "label")
    ensures ValueString(e.data, "imageRole") == [] ==> ImageRole(e) == RoleDefault
    ensures ValueString(e.data, "imageRole") != [] ==> ImageRole(e) == ValueString(e.data, "imageRole")
    ensures "data:" <= Field(n, "url") ==> ImageUrl(n) == []
    ensures !("data:" <= Field(n, "url")) ==> ImageUrl(n) == Slice(Field(n, "url"), UrlLimit)
  {
  }

  // ---------------------------------------------------------------------------
  // Reference definitions of the indexes
  // ---------------------------------------------------------------------------

  /** The node map: every node with a non-blank id, a later node replacing an earlier one
      with the same id. */
  function NodeIndex(nodes: seq<GraphNode>): (m: map<string, GraphNode>)
    ensures forall id | id in m :: m[id].id == id && !IsBlank(id)
    ensures forall k | 0 <= k < |nodes| :: !IsBlank(nodes[k].id) ==> nodes[k].id in m
    ensures forall id | id in m :: m[id] in nodes
  {
    if nodes == [] then map[]
    else
      var m := NodeIndex(nodes[..|nodes| - 1]);
      var n := nodes[|nodes| - 1];
      if IsBlank(n.id) then m else m[n.id := n]
  }

  /** Of several nodes sharing an id, the map keeps the last. */
  lemma {:induction false} NodeIndexLastWins(nodes: seq<GraphNode>, k: nat)
    requires k < |nodes| && !IsBlank(nodes[k].id)
    requires forall j | k < j < |nodes| :: nodes[j].id != nodes[k].id
    ensures NodeIndex(nodes)[nodes[k].id] == nodes[k]
  {
    if k < |nodes| - 1 {
      var init := nodes[..|nodes| - 1];
      NodeIndexLastWins(init, k);
    }
  }

  /** The valid edges into `t`, in input order. */
  function EdgesInto(edges: seq<GraphEdge>, t: string): (r: seq<GraphEdge>)
    ensures forall e :: e in r <==> e in edges && ValidEdge(e) && e.target == t
  {
    if edges == [] then []
    else
      var e := edges[|edges| - 1];
      EdgesInto(edges[..|edges| - 1], t) + (if ValidEdge(e) && e.target == t then [e] else [])
  }

  /** The valid edges out of `s`, in input order. */
  function EdgesFrom(edges: seq<GraphEdge>, s: string): (r: seq<GraphEdge>)
    ensures forall e :: e in r <==> e in edges && ValidEdge(e) && e.source == s
  {
    if edges == [] then []
    else
      var e := edges[|edges| - 1];
      EdgesFrom(edges[..|edges| - 1], s) + (if ValidEdge(e) && e.source == s then [e] else [])
  }

  // ---------------------------------------------------------------------------
  // The properties of the result
  // ---------------------------------------------------------------------------

  /** A sink: a config node the focus node points at through a valid edge. */
  ghost predicate IsSink(m: map<string, GraphNode>, edges: seq<GraphEdge>, focus: string, c: string) {
    && c in m
    && IsConfigType(m[c].nodeType)
    && exists e | e in EdgesFrom(edges, focus) :: e.target == c
  }

  /** A text node other than the focus node, with non-empty content. */
  predicate IsTextSource(m: map<string, GraphNode>, focus: string, id: string) {
    id in m && m[id].nodeType == "text" && id != focus && Field(m[id], "content") != []
  }

  predicate IsImageSource(m: map<string, GraphNode>, id: string) {
    id in m && m[id].nodeType == "image"
  }

  /** A text block: a text source feeding a sink, with the label default and the content
      cut to 520 characters. */
  ghost predicate TextOk(b: TextBlock, m: map<string, GraphNode>, edges: seq<GraphEdge>, focus: string) {
    && IsTextSource(m, focus, b.id)
    && IsSink(m, edges, focus, b.target)
    && (exists e | e in EdgesInto(edges, b.target) :: e.source == b.id)
    && b.caption == TextLabel(m[b.id])
    && b.text == Slice(Field(m[b.id], "content"), TextLimit)
  }

  /** An image block: an image node feeding a sink through edge `e`, with label and role
      defaults and the URL rule. */
  ghost predicate ImageOk(b: ImageBlock, m: map<string, GraphNode>, edges: seq<GraphEdge>, focus: string) {
    && IsImageSource(m, b.id)
    && IsSink(m, edges, focus, b.target)
    && exists e | e in EdgesInto(edges, b.target) ::
         e.source == b.id && b == ImageBlock(b.id, ImageLabel(m[b.id]), ImageRole(e), ImageUrl(m[b.id]), b.target)
  }

  function TextIds(text: seq<TextBlock>): set<string> {
    set i | 0 <= i < |text| :: text[i].id
  }

  function ImageIds(images: seq<ImageBlock>): set<string> {
    set i | 0 <= i < |images| :: images[i].id
  }

  /** What holds of the blocks collected so far. */
  ghost predicate Collected(text: seq<TextBlock>, images: seq<ImageBlock>, seenText: set<string>,
                            seenImage: set<string>, m: map<string, GraphNode>, edges: seq<GraphEdge>, focus: string)
  {
    && (forall i | 0 <= i < |text| :: TextOk(text[i], m, edges, focus))
    && (forall i | 0 <= i < |images| :: ImageOk(images[i], m, edges, focus))
    && (forall i, j | 0 <= i < j < |text| :: text[i].id != text[j].id)
    && (forall i, j | 0 <= i < j < |images| :: images[i].id != images[j].id)
    && seenText == TextIds(text)
    && seenImage == ImageIds(images)
  }

  /** The source of edge `e` has been collected if it qualifies. */
  predicate Covered(e: GraphEdge, m: map<string, GraphNode>, focus: string, seenText: set<string>, seenImage: set<string>) {
    && (IsTextSource(m, focus, e.source) ==> e.source in seenText)
    && (IsImageSource(m, e.source) ==> e.source in seenImage)
  }

  // ---------------------------------------------------------------------------
  // The loops
  // ---------------------------------------------------------------------------

  /** Builds `node_by_id`. */
  method IndexNodes(nodes: seq<GraphNode>) returns (m: map<string, GraphNode>)
    ensures m == NodeIndex(nodes)
  {
    m := map[];
    var i := 0;
    while i < |nodes|
      invariant 0 <= i <= |nodes|
      invariant m == NodeIndex(nodes[..i])
    {
      assert nodes[..i + 1][..i] == nodes[..i];
      var n := nodes[i];
      if !IsBlank(n.id) {
        m := m[n.id := n];
      }
      i := i + 1;
    }
    assert nodes[..i] == nodes;
  }

  /** `map.get(id)` on an edge index, an absent key reading as no edges. */
  function Lookup(index: map<string, seq<GraphEdge>>, id: string): seq<GraphEdge> {
    if id in index then index[id] else []
  }

  /** One more edge extends exactly the lists of its own ends. */
  lemma EdgesStep(edges: seq<GraphEdge>, i: nat)
    requires i < |edges|
    ensures forall t ::
              EdgesInto(edges[..i + 1], t) == EdgesInto(edges[..i], t)
                + (if ValidEdge(edges[i]) && edges[i].target == t then [edges[i]] else [])
    ensures forall s ::
              EdgesFrom(edges[..i + 1], s) == EdgesFrom(edges[..i], s)
                + (if ValidEdge(edges[i]) && edges[i].source == s then [edges[i]] else [])
  {
    assert edges[..i + 1][..i] == edges[..i];
  }

  /** `entry(key).or_default().push(e)`: only the list under `key` grows, by `e`. */
  method Append(index: map<string, seq<GraphEdge>>, key: string, e: GraphEdge) returns (index': map<string, seq<GraphEdge>>)
    ensures forall t :: Lookup(index', t) == Lookup(index, t) + (if key == t then [e] else [])
  {
    var list := if key in index then index[key] else [];
    index' := index[key := list + [e]];
    assert forall t | t != key :: Lookup(index', t) == Lookup(index, t) + [];
  }

  /** Builds `incoming` and `outgoing`: for every id, the valid edges into it and out of it,
      in input order. */
  method IndexEdges(edges: seq<GraphEdge>) returns (incoming: map<string, seq<GraphEdge>>, outgoing: map<string, seq<GraphEdge>>)
    ensures forall t :: Lookup(incoming, t) == EdgesInto(edges, t)
    ensures forall s :: Lookup(outgoing, s) == EdgesFrom(edges, s)
  {
    incoming, outgoing := map[], map[];
    var i := 0;
    while i < |edges|
      invariant 0 <= i <= |edges|
      invariant forall t :: Lookup(incoming, t) == EdgesInto(edges[..i], t)
      invariant forall s :: Lookup(outgoing, s) == EdgesFrom(edges[..i], s)
    {
      EdgesStep(edges, i);
      var e := edges[i];
      if IsBlank(e.source) || IsBlank(e.target) {
        i := i + 1;
        continue;
      }
      incoming := Append(incoming, e.target, e);
      outgoing := Append(outgoing, e.source, e);
      i := i + 1;
    }
    assert edges[..i] == edges;
  }

  /** Builds `config_targets`: the config nodes reached by the focus node's outgoing edges,
      one entry per edge. */
  method FindSinks(m: map<string, GraphNode>, focus: string, out: seq<GraphEdge>, ghost edges: seq<GraphEdge>)
    returns (targets: seq<string>)
    requires out == EdgesFrom(edges, focus)
    requires forall id | id in m :: m[id].id == id
    ensures forall k | 0 <= k < |targets| :: IsSink(m, edges, focus, targets[k])
    ensures forall c | IsSink(m, edges, focus, c) :: c in targets
  {
    targets := [];
    var i := 0;
    while i < |out|
      invariant 0 <= i <= |out|
      invariant forall k | 0 <= k < |targets| :: IsSink(m, edges, focus, targets[k])
      invariant forall j | 0 <= j < i ::
                  out[j].target in m && IsConfigType(m[out[j].target].nodeType) ==> out[j].target in targets
    {
      var e := out[i];
      if e.target in m {
        var t := m[e.target];
        if t.nodeType == "imageConfig" || t.nodeType == "videoConfig" {
          assert e in out;
          targets := targets + [t.id];
        }
      }
      i := i + 1;
    }
    forall c | IsSink(m, edges, focus, c) ensures c in targets {
      var e :| e in EdgesFrom(edges, focus) && e.target == c;
      var j :| 0 <= j < |out| && out[j] == e;
    }
  }

  lemma CollectedGrowsText(text: seq<TextBlock>, b: TextBlock)
    ensures TextIds(text + [b]) == TextIds(text) + {b.id}
  {
    var t := text + [b];
    assert t[|text|].id == b.id;
    forall id | id in TextIds(t) ensures id in TextIds(text) + {b.id} {
      var i :| 0 <= i < |t| && t[i].id == id;
      if i < |text| {
        assert text[i].id == id;
      }
    }
    forall id | id in TextIds(text) ensures id in TextIds(t) {
      var i :| 0 <= i < |text| && text[i].id == id;
      assert t[i].id == id;
    }
  }

  lemma CollectedGrowsImages(images: seq<ImageBlock>, b: ImageBlock)
    ensures ImageIds(images + [b]) == ImageIds(images) + {b.id}
  {
    var t := images + [b];
    assert t[|images|].id == b.id;
    forall id | id in ImageIds(t) ensures id in ImageIds(images) + {b.id} {
      var i :| 0 <= i < |t| && t[i].id == id;
      if i < |images| {
        assert images[i].id == id;
      }
    }
    forall id | id in ImageIds(images) ensures id in ImageIds(t) {
      var i :| 0 <= i < |images| && images[i].id == id;
      assert t[i].id == id;
    }
  }

  /** Appending a good text block whose source is not yet seen keeps `Collected`. */
  lemma AddText(text: seq<TextBlock>, images: seq<ImageBlock>, seenText: set<string>, seenImage: set<string>,
                m: map<string, GraphNode>, edges: seq<GraphEdge>, focus: string, b: TextBlock)
    requires Collected(text, images, seenText, seenImage, m, edges, focus)
    requires TextOk(b, m, edges, focus) && b.id !in seenText
    ensures Collected(text + [b], images, seenText + {b.id}, seenImage, m, edges, focus)
  {
    CollectedGrowsText(text, b);
    var t := text + [b];
    forall i, j | 0 <= i < j < |t| ensures t[i].id != t[j].id {
      if j == |text| {
        assert t[i].id in TextIds(text);
      }
    }
  }

  /** Appending a good image block whose source is not yet seen keeps `Collected`. */
  lemma AddImage(text: seq<TextBlock>, images: seq<ImageBlock>, seenText: set<string>, seenImage: set<string>,
                 m: map<string, GraphNode>, edges: seq<GraphEdge>, focus: string, b: ImageBlock)
    requires Collected(text, images, seenText, seenImage, m, edges, focus)
    requires ImageOk(b, m, edges, focus) && b.id !in seenImage
    ensures Collected(text, images + [b], seenText, seenImage + {b.id}, m, edges, focus)
  {
    CollectedGrowsImages(images, b);
    var t := images + [b];
    forall i, j | 0 <= i < j < |t| ensures t[i].id != t[j].id {
      if j == |images| {
        assert t[i].id in ImageIds(images);
      }
    }
  }

  /** The text block of `src` feeding sink `cfgId`. */
  method MakeTextBlock(src: GraphNode, cfgId: string) returns (b: TextBlock)
    ensures b == TextBlock(src.id, TextLabel(src), Slice(Field(src, "content"), TextLimit), cfgId)
  {
    var content := ValueString(Some(src.data), "content");
    var lbl := ValueString(Some(src.data), "label");
    var sliced := SafeSlice(content, TextLimit);
    b := TextBlock(src.id, if lbl == [] then TextLabelDefault else lbl, sliced, cfgId);
  }

  /** The image block of `src` feeding sink `cfgId` through edge `e`. */
  method MakeImageBlock(src: GraphNode, e: GraphEdge, cfgId: string) returns (b: ImageBlock)
    ensures b == ImageBlock(src.id, ImageLabel(src), ImageRole(e), ImageUrl(src), cfgId)
  {
    var lbl := ValueString(Some(src.data), "label");
    var url := ValueString(Some(src.data), "url");
    var role := ValueString(e.data, "imageRole");
    assert url == Field(src, "url");
    var shownUrl := "";
    if !("data:" <= url) {
      shownUrl := SafeSlice(url, UrlLimit);
    }
    assert shownUrl == ImageUrl(src);
    assert (if lbl == [] then ImageLabelDefault else lbl) == ImageLabel(src);
    assert (if role == [] then RoleDefault else role) == ImageRole(e);
    b := ImageBlock(src.id,
                    if lbl == [] then ImageLabelDefault else lbl,
                    if role == [] then RoleDefault else role,
                    shownUrl,
                    cfgId);
  }

  ghost predicate AllCovered(es: seq<GraphEdge>, m: map<string, GraphNode>, focus: string,
                             seenText: set<string>, seenImage: set<string>) {
    forall e | e in es :: Covered(e, m, focus, seenText, seenImage)
  }

  lemma AllCoveredStep(es: seq<GraphEdge>, i: nat, m: map<string, GraphNode>, focus: string,
                       seenText0: set<string>, seenImage0: set<string>, seenText: set<string>, seenImage: set<string>)
    requires i < |es|
    requires AllCovered(es[..i], m, focus, seenText0, seenImage0)
    requires seenText0 <= seenText && seenImage0 <= seenImage
    requires Covered(es[i], m, focus, seenText, seenImage)
    ensures AllCovered(es[..i + 1], m, focus, seenText, seenImage)
  {
    forall e | e in es[..i + 1] ensures Covered(e, m, focus, seenText, seenImage) {
      if e != es[i] {
        assert e in es[..i] by {
          var j :| 0 <= j < i + 1 && es[j] == e;
          assert es[..i][j] == e;
        }
        CoveredMono(e, m, focus, seenText0, seenImage0, seenText, seenImage);
      }
    }
  }

  /** Coverage survives further collection. */
  lemma CoveredMono(e: GraphEdge, m: map<string, GraphNode>, focus: string,
                    seenText0: set<string>, seenImage0: set<string>, seenText: set<string>, seenImage: set<string>)
    requires Covered(e, m, focus, seenText0, seenImage0)
    requires seenText0 <= seenText && seenImage0 <= seenImage
    ensures Covered(e, m, focus, seenText, seenImage)
  {
  }

  /** One incoming edge of a sink: collect its source if it qualifies and is not seen yet. */
  method VisitEdge(m: map<string, GraphNode>, ghost edges: seq<GraphEdge>, focus: string,
                   cfgId: string, e: GraphEdge,
                   text0: seq<TextBlock>, images0: seq<ImageBlock>, seenText0: set<string>, seenImage0: set<string>)
    returns (text: seq<TextBlock>, images: seq<ImageBlock>, seenText: set<string>, seenImage: set<string>)
    requires Collected(text0, images0, seenText0, seenImage0, m, edges, focus)
    requires IsSink(m, edges, focus, cfgId)
    requires e in EdgesInto(edges, cfgId)
    requires forall id | id in m :: m[id].id == id
    ensures Collected(text, images, seenText, seenImage, m, edges, focus)
    ensures seenText0 <= seenText && seenImage0 <= seenImage
    ensures Covered(e, m, focus, seenText, seenImage)
  {
    text, images, seenText, seenImage := text0, images0, seenText0, seenImage0;
    if e.source in m {
      var src := m[e.source];
      if src.nodeType == "text" {
        var content := ValueString(Some(src.data), "content");
        if src.id != focus && src.id !in seenText && content != [] {
          var b := MakeTextBlock(src, cfgId);
          assert TextOk(b, m, edges, focus);
          AddText(text, images, seenText, seenImage, m, edges, focus, b);
          text := text + [b];
          seenText := seenText + {src.id};
        }
      } else if src.nodeType == "image" {
        if src.id !in seenImage {
          var b := MakeImageBlock(src, e, cfgId);
          assert ImageOk(b, m, edges, focus);
          AddImage(text, images, seenText, seenImage, m, edges, focus, b);
          images := images + [b];
          seenImage := seenImage + {src.id};
        }
      }
    }
  }

  /** The inner loop: the incoming edges of one sink. */
  method CollectFromSink(m: map<string, GraphNode>, ghost edges: seq<GraphEdge>, focus: string,
                         cfgId: string, inEdges: seq<GraphEdge>,
                         text0: seq<TextBlock>, images0: seq<ImageBlock>, seenText0: set<string>, seenImage0: set<string>)
    returns (text: seq<TextBlock>, images: seq<ImageBlock>, seenText: set<string>, seenImage: set<string>)
    requires Collected(text0, images0, seenText0, seenImage0, m, edges, focus)
    requires IsSink(m, edges, focus, cfgId)
    requires inEdges == EdgesInto(edges, cfgId)
    requires forall id | id in m :: m[id].id == id
    ensures Collected(text, images, seenText, seenImage, m, edges, focus)
    ensures seenText0 <= seenText && seenImage0 <= seenImage
    ensures AllCovered(inEdges, m, focus, seenText, seenImage)
  {
    text, images, seenText, seenImage := text0, images0, seenText0, seenImage0;
    var i := 0;
    while i < |inEdges|
      invariant 0 <= i <= |inEdges|
      invariant Collected(text, images, seenText, seenImage, m, edges, focus)
      invariant seenText0 <= seenText && seenImage0 <= seenImage
      invariant AllCovered(inEdges[..i], m, focus, seenText, seenImage)
    {
      ghost var seenText1, seenImage1 := seenText, seenImage;
      text, images, seenText, seenImage :=
        VisitEdge(m, edges, focus, cfgId, inEdges[i], text, images, seenText, seenImage);
      AllCoveredStep(inEdges, i, m, focus, seenText1, seenImage1, seenText, seenImage);
      i := i + 1;
    }
    assert inEdges[..i] == inEdges;
  }

  /** Every incoming edge of every sink in `sinks` is covered. */
  ghost predicate SinksCovered(sinks: seq<string>, m: map<string, GraphNode>, edges: seq<GraphEdge>, focus: string,
                               seenText: set<string>, seenImage: set<string>) {
    forall c | c in sinks :: AllCovered(EdgesInto(edges, c), m, focus, seenText, seenImage)
  }

  lemma AllCoveredMono(es: seq<GraphEdge>, m: map<string, GraphNode>, focus: string,
                       seenText0: set<string>, seenImage0: set<string>, seenText: set<string>, seenImage: set<string>)
    requires AllCovered(es, m, focus, seenText0, seenImage0)
    requires seenText0 <= seenText && seenImage0 <= seenImage
    ensures AllCovered(es, m, focus, seenText, seenImage)
  {
    forall e | e in es ensures Covered(e, m, focus, seenText, seenImage) {
      CoveredMono(e, m, focus, seenText0, seenImage0, seenText, seenImage);
    }
  }

  lemma SinksCoveredStep(sinks: seq<string>, i: nat, m: map<string, GraphNode>, edges: seq<GraphEdge>, focus: string,
                         seenText0: set<string>, seenImage0: set<string>, seenText: set<string>, seenImage: set<string>)
    requires i < |sinks|
    requires SinksCovered(sinks[..i], m, edges, focus, seenText0, seenImage0)
    requires seenText0 <= seenText && seenImage0 <= seenImage
    requires AllCovered(EdgesInto(edges, sinks[i]), m, focus, seenText, seenImage)
    ensures SinksCovered(sinks[..i + 1], m, edges, focus, seenText, seenImage)
  {
    forall c | c in sinks[..i + 1] ensures AllCovered(EdgesInto(edges, c), m, focus, seenText, seenImage) {
      if c != sinks[i] {
        assert c in sinks[..i] by {
          var j :| 0 <= j < i + 1 && sinks[j] == c;
          assert sinks[..i][j] == c;
        }
        AllCoveredMono(EdgesInto(edges, c), m, focus, seenText0, seenImage0, seenText, seenImage);
      }
    }
  }

  /** Once every sink is covered, every qualifying source feeding a sink was collected. */
  lemma Completeness(sinks: seq<string>, m: map<string, GraphNode>, edges: seq<GraphEdge>, focus: string,
                     seenText: set<string>, seenImage: set<string>)
    requires forall c | IsSink(m, edges, focus, c) :: c in sinks
    requires SinksCovered(sinks, m, edges, focus, seenText, seenImage)
    ensures forall e | e in edges && ValidEdge(e) && IsSink(m, edges, focus, e.target) ::
              && (IsTextSource(m, focus, e.source) ==> e.source in seenText)
              && (IsImageSource(m, e.source) ==> e.source in seenImage)
  {
    forall e | e in edges && ValidEdge(e) && IsSink(m, edges, focus, e.target)
      ensures Covered(e, m, focus, seenText, seenImage)
    {
      assert e in EdgesInto(edges, e.target);
    }
  }

  /** `graph_collect_upstream_inputs`. */
  method CollectUpstreamInputs(focusNodeId: string, nodes: seq<GraphNode>, edges: seq<GraphEdge>)
    returns (r: UpstreamInputs)
    ensures var focus := Trim(focusNodeId);
      focus == [] || focus !in NodeIndex(nodes) ==> r == UpstreamInputs([], [])
    ensures var focus, m := Trim(focusNodeId), NodeIndex(nodes);
      && (forall i | 0 <= i < |r.text| :: TextOk(r.text[i], m, edges, focus))
      && (forall i | 0 <= i < |r.images| :: ImageOk(r.images[i], m, edges, focus))
    ensures forall i, j | 0 <= i < j < |r.text| :: r.text[i].id != r.text[j].id
    ensures forall i, j | 0 <= i < j < |r.images| :: r.images[i].id != r.images[j].id
    ensures var focus, m := Trim(focusNodeId), NodeIndex(nodes);
      focus != [] && focus in m ==>
      forall e | e in edges && ValidEdge(e) && IsSink(m, edges, focus, e.target) ::
        && (IsTextSource(m, focus, e.source) ==> e.source in TextIds(r.text))
        && (IsImageSource(m, e.source) ==> e.source in ImageIds(r.images))
  {
    var focus := Trim(focusNodeId);
    if focus == [] {
      return UpstreamInputs([], []);
    }
    var m := IndexNodes(nodes);
    if focus !in m {
      return UpstreamInputs([], []);
    }
    var incoming, outgoing := IndexEdges(edges);
    var out := Lookup(outgoing, focus);
    var targets := FindSinks(m, focus, out, edges);

    var text: seq<TextBlock> := [];
    var images: seq<ImageBlock> := [];
    var seenText: set<string> := {};
    var seenImage: set<string> := {};
    var ci := 0;
    while ci < |targets|
      invariant 0 <= ci <= |targets|
      invariant Collected(text, images, seenText, seenImage, m, edges, focus)
      invariant SinksCovered(targets[..ci], m, edges, focus, seenText, seenImage)
    {
      ghost var seenText1, seenImage1 := seenText, seenImage;
      var cfgId := targets[ci];
      var inEdges := Lookup(incoming, cfgId);
      text, images, seenText, seenImage :=
        CollectFromSink(m, edges, focus, cfgId, inEdges, text, images, seenText, seenImage);
      SinksCoveredStep(targets, ci, m, edges, focus, seenText1, seenImage1, seenText, seenImage);
      ci := ci + 1;
    }
    assert targets[..ci] == targets;
    Completeness(targets, m, edges, focus, seenText, seenImage);
    r := UpstreamInputs(text, images);
  }
}
