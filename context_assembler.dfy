/**
 * The context-window assembler: `clamp_i64`-based resolution of the configured limits,
 * `estimate_chars`, greedy line packing (`compact_lines`) and the three-tier
 * `build_chat_messages`.
 *
 * Lengths: `estimate_chars` and `compact_lines` measure with `String::len`, the UTF-8 byte
 * count (`Text.Utf8Len`); every `.chars().take(n)` counts characters (`Text.Take`).
 */
module ContextAssembler {
  import opened Wrappers
  import opened Text

  datatype ChatMessage = ChatMessage(role: string, content: string)

  /** A memory item; its importance and timestamp only matter to retrieval, which is not
      part of this module. */
  datatype MemoryItem = MemoryItem(id: string, content: string)

  /** The request's limits as sent; a missing field deserialises to 0. */
  datatype ContextConfig = ContextConfig(maxChars: int, maxHistory: int, maxMemoryItems: int,
                                         maxCanvasChars: int, maxMemoryChars: int, maxSummaryChars: int)

  /** The limits after defaults and clamping. */
  datatype Limits = Limits(maxChars: nat, maxHistory: nat, maxMemoryItems: nat,
                           maxCanvasChars: nat, maxMemoryChars: nat, maxSummaryChars: nat)

  /** The arguments of `build_chat_messages`, bundled for the specification functions. */
  datatype Request = Request(userText: string, systemPrompt: string, conversation: seq<ChatMessage>,
                             memorySummary: string, memoryItems: seq<MemoryItem>, canvasContext: string,
                             config: Option<ContextConfig>)

  const SummaryHeading: string := "【长期记忆摘要】\n"
  const MemoryHeading: string := "【长期记忆（检索命中）】\n"
  const CanvasHeading: string := "【当前项目上下文】\n"
  const SnippetChars: nat := 260
  const ReducedCap: nat := 360

  // ---------------------------------------------------------------------------
  // Limits
  // ---------------------------------------------------------------------------

  /** One limit: a value <= 0 takes the default, then the result is clamped into [lo, hi]. */
  function ResolveLimit(v: int, default: nat, lo: nat, hi: nat): (r: nat)
    requires 0 < default && lo <= default <= hi
    ensures lo <= r <= hi && 1 <= r
    ensures v <= 0 ==> r == default
    ensures 0 < v && lo <= v <= hi ==> r == v
    ensures v > hi ==> r == hi
    ensures 0 < v < lo ==> r == lo
  {
    Clamp(if v > 0 then v else default, lo, hi)
  }

  function ResolveLimits(config: Option<ContextConfig>): (l: Limits)
    ensures 2000 <= l.maxChars <= 50000
    ensures 4 <= l.maxHistory <= 64
    ensures 1 <= l.maxMemoryItems <= 30
    ensures 1 <= l.maxCanvasChars <= 8000
    ensures 1 <= l.maxMemoryChars <= 8000
    ensures 1 <= l.maxSummaryChars <= 4000
    ensures config.None? ==> l == Limits(12000, 16, 6, 1200, 1200, 600)
  {
    var c := if config.Some? then config.value else ContextConfig(0, 0, 0, 0, 0, 0);
    Limits(ResolveLimit(c.maxChars, 12000, 2000, 50000),
           ResolveLimit(c.maxHistory, 16, 4, 64),
           ResolveLimit(c.maxMemoryItems, 6, 0, 30),
           ResolveLimit(c.maxCanvasChars, 1200, 0, 8000),
           ResolveLimit(c.maxMemoryChars, 1200, 0, 8000),
           ResolveLimit(c.maxSummaryChars, 600, 0, 4000))
  }

  /** A budget below 2000 is raised to 2000: a configured `maxChars` of 50 allows 2000 bytes. */
  lemma SmallBudgetRaised(c: ContextConfig)
    requires 0 < c.maxChars < 2000
    ensures ResolveLimits(Some(c)).maxChars == 2000
  {
  }

  // ---------------------------------------------------------------------------
  // estimate_chars
  // ---------------------------------------------------------------------------

  /** `estimate_chars`: the total UTF-8 size of the contents. */
  function EstimateChars(messages: seq<ChatMessage>): nat {
    if messages == [] then 0 else Utf8Len(messages[0].content) + EstimateChars(messages[1..])
  }

  lemma {:induction false} EstimateCharsConcat(a: seq<ChatMessage>, b: seq<ChatMessage>)
    ensures EstimateChars(a + b) == EstimateChars(a) + EstimateChars(b)
  {
    if a == [] {
      assert a + b == b;
    } else {
      assert (a + b)[1..] == a[1..] + b;
      EstimateCharsConcat(a[1..], b);
    }
  }

  lemma EstimateCharsSuffix(a: seq<ChatMessage>, k: nat)
    requires k <= |a|
    ensures EstimateChars(a[k..]) <= EstimateChars(a)
  {
    assert a == a[..k] + a[k..];
    EstimateCharsConcat(a[..k], a[k..]);
  }

  // ---------------------------------------------------------------------------
  // compact_lines
  // ---------------------------------------------------------------------------

  /** The lines `compact_lines` considers: each normalised, the empty ones skipped. */
  function NormalizedLines(lines: seq<string>): (ts: seq<string>)
    ensures |ts| <= |lines|
    ensures forall k | 0 <= k < |ts| :: ts[k] != []
  {
    if lines == [] then []
    else
      var t := Normalize(lines[0]);
      (if t == [] then [] else [t]) + NormalizedLines(lines[1..])
  }

  /** Every candidate line is the normalisation of an input line. */
  lemma {:induction false} NormalizedLinesFrom(lines: seq<string>)
    ensures forall t | t in NormalizedLines(lines) :: exists j | 0 <= j < |lines| :: t == Normalize(lines[j])
  {
    if lines != [] {
      NormalizedLinesFrom(lines[1..]);
      var rest := NormalizedLines(lines[1..]);
      assert NormalizedLines(lines) == (if Normalize(lines[0]) == [] then [] else [Normalize(lines[0])]) + rest;
      forall t | t in NormalizedLines(lines) ensures exists j | 0 <= j < |lines| :: t == Normalize(lines[j]) {
        if t in rest {
          var j :| 0 <= j < |lines[1..]| && t == Normalize(lines[1..][j]);
          assert lines[1..][j] == lines[j + 1];
        } else {
          assert t == Normalize(lines[0]);
        }
      }
    }
  }

  lemma NormalizedLinesStep(lines: seq<string>, i: nat)
    requires i < |lines|
    ensures NormalizedLines(lines[i..]) ==
      (if Normalize(lines[i]) == [] then [] else [Normalize(lines[i])]) + NormalizedLines(lines[i + 1..])
  {
    assert lines[i..][0] == lines[i] && lines[i..][1..] == lines[i + 1..];
  }

  function TotalLen(ts: seq<string>): nat {
    if ts == [] then 0 else Utf8Len(ts[0]) + TotalLen(ts[1..])
  }

  lemma {:induction false} TotalLenConcat(a: seq<string>, b: seq<string>)
    ensures TotalLen(a + b) == TotalLen(a) + TotalLen(b)
  {
    if a == [] {
      assert a + b == b;
    } else {
      assert (a + b)[1..] == a[1..] + b;
      TotalLenConcat(a[1..], b);
    }
  }

  /** Greedy packing: lines are kept while their running total fits the budget; the first
      line that does not fit ends the packing. */
  function Pack(ts: seq<string>, budget: nat): seq<string> {
    if ts == [] || Utf8Len(ts[0]) > budget then []
    else [ts[0]] + Pack(ts[1..], budget - Utf8Len(ts[0]))
  }

  lemma PackCons(t: string, rest: seq<string>, budget: nat)
    ensures Utf8Len(t) > budget ==> Pack([t] + rest, budget) == []
    ensures Utf8Len(t) <= budget ==> Pack([t] + rest, budget) == [t] + Pack(rest, budget - Utf8Len(t))
  {
    assert ([t] + rest)[0] == t && ([t] + rest)[1..] == rest;
  }

  /** The kept lines are a prefix of the candidates, fit the budget, and the packing stops
      only at the end or at a line that would overflow it. */
  lemma {:induction false} PackSpec(ts: seq<string>, budget: nat)
    ensures var p := Pack(ts, budget);
      && p <= ts
      && TotalLen(p) <= budget
      && (|p| < |ts| ==> TotalLen(p) + Utf8Len(ts[|p|]) > budget)
  {
    if ts != [] && Utf8Len(ts[0]) <= budget {
      var rest := Pack(ts[1..], budget - Utf8Len(ts[0]));
      PackSpec(ts[1..], budget - Utf8Len(ts[0]));
      assert Pack(ts, budget) == [ts[0]] + rest;
      assert ([ts[0]] + rest)[1..] == rest;
      if |rest| < |ts[1..]| {
        assert ts[1..][|rest|] == ts[|rest| + 1];
      }
    }
  }

  /** `join("\n")`. */
  function Join(ts: seq<string>): string {
    if ts == [] then [] else if |ts| == 1 then ts[0] else ts[0] + "\n" + Join(ts[1..])
  }

  /** The joined text is the lines plus one newline byte between each two. */
  lemma {:induction false} JoinLen(ts: seq<string>)
    requires ts != []
    ensures Utf8Len(Join(ts)) == TotalLen(ts) + |ts| - 1
  {
    if |ts| > 1 {
      JoinLen(ts[1..]);
      Utf8LenConcat(ts[0] + "\n", Join(ts[1..]));
      Utf8LenConcat(ts[0], "\n");
      assert Utf8Len("\n") == 1;
      assert TotalLen(ts) == Utf8Len(ts[0]) + TotalLen(ts[1..]);
    } else {
      assert TotalLen(ts) == Utf8Len(ts[0]) + TotalLen(ts[1..]);
      assert ts[1..] == [];
    }
  }

  /** The joined text is empty exactly when no line is kept (kept lines are never empty). */
  lemma JoinEmpty(ts: seq<string>)
    requires forall k | 0 <= k < |ts| :: ts[k] != []
    ensures Join(ts) == [] <==> ts == []
  {
    if ts != [] {
      JoinLen(ts);
      assert TotalLen(ts) >= Utf8Len(ts[0]) >= |ts[0]| > 0;
    }
  }

  /** What `compact_lines` returns. */
  function Compacted(lines: seq<string>, maxChars: nat): string {
    Join(Pack(NormalizedLines(lines), maxChars))
  }

  /** What the loop of `compact_lines` keeps: the lines kept so far (whose sizes add up to
      `used`), followed by the packing of the remaining lines into what is left of the budget,
      are the packing of all the lines. */
  ghost predicate PackInv(lines: seq<string>, i: nat, out: seq<string>, used: nat, maxChars: nat) {
    && i <= |lines| && used == TotalLen(out) && used <= maxChars
    && out + Pack(NormalizedLines(lines[i..]), maxChars - used) == Pack(NormalizedLines(lines), maxChars)
  }

  /** Keeping a line that fits moves it from the packing of the rest to the kept lines. */
  lemma PackKeep(out: seq<string>, t: string, rest: seq<string>, used: nat, budget: nat, all: seq<string>)
    requires used == TotalLen(out) && used + Utf8Len(t) <= budget
    requires out + Pack([t] + rest, budget - used) == all
    ensures used + Utf8Len(t) == TotalLen(out + [t])
    ensures (out + [t]) + Pack(rest, budget - (used + Utf8Len(t))) == all
  {
    PackCons(t, rest, budget - used);
    TotalLenConcat(out, [t]);
    assert TotalLen([t]) == Utf8Len(t) + TotalLen([]);
    assert (out + [t]) + Pack(rest, budget - (used + Utf8Len(t))) == out + ([t] + Pack(rest, budget - used - Utf8Len(t)));
  }

  /** A line that does not fit ends the packing. */
  lemma PackStop(out: seq<string>, t: string, rest: seq<string>, used: nat, budget: nat, all: seq<string>)
    requires used <= budget && used + Utf8Len(t) > budget
    requires out + Pack([t] + rest, budget - used) == all
    ensures out == all
  {
    PackCons(t, rest, budget - used);
    assert out + [] == out;
  }

  /** One iteration of `compact_lines` on the normalised line `t`: skip it when empty, stop
      when it does not fit, keep it otherwise. */
  lemma CompactStep(lines: seq<string>, i: nat, t: string, out: seq<string>, used: nat, maxChars: nat)
    requires i < |lines| && PackInv(lines, i, out, used, maxChars)
    requires NormalizedLines(lines[i..]) == (if t == [] then [] else [t]) + NormalizedLines(lines[i + 1..])
    ensures t == [] ==> PackInv(lines, i + 1, out, used, maxChars)
    ensures t != [] && used + Utf8Len(t) > maxChars ==> out == Pack(NormalizedLines(lines), maxChars)
    ensures t != [] && used + Utf8Len(t) <= maxChars ==> PackInv(lines, i + 1, out + [t], used + Utf8Len(t), maxChars)
  {
    var rest := NormalizedLines(lines[i + 1..]);
    var all := Pack(NormalizedLines(lines), maxChars);
    if t == [] {
      assert NormalizedLines(lines[i..]) == rest;
    } else if used + Utf8Len(t) > maxChars {
      PackStop(out, t, rest, used, maxChars, all);
    } else {
      PackKeep(out, t, rest, used, maxChars, all);
    }
  }

  /** `compact_lines`. */
  method CompactLines(lines: seq<string>, maxChars: nat) returns (packed: string)
    ensures packed == Compacted(lines, maxChars)
  {
    var out: seq<string> := [];
    var used: nat := 0;
    var i := 0;
    assert lines[i..] == lines;
    assert out + Pack(NormalizedLines(lines), maxChars) == Pack(NormalizedLines(lines), maxChars);
    while i < |lines|
      invariant PackInv(lines, i, out, used, maxChars)
    {
      var t := Normalize(lines[i]);
      NormalizedLinesStep(lines, i);
      CompactStep(lines, i, t, out, used, maxChars);
      if t == [] {
        i := i + 1;
        continue;
      }
      var n := Utf8Len(t);
      if used + n > maxChars {
        packed := Join(out);
        return;
      }
      used := used + n;
      out := out + [t];
      i := i + 1;
    }
    assert lines[i..] == [];
    assert out + [] == out;
    packed := Join(out);
  }

  /** The packing promises of `compact_lines`, in terms of the lines it returns joined. */
  lemma CompactedSpec(lines: seq<string>, maxChars: nat)
    ensures var ts := NormalizedLines(lines); var p := Pack(ts, maxChars);
      && Compacted(lines, maxChars) == Join(p)
      && p <= ts
      && TotalLen(p) <= maxChars
      && (|p| < |ts| ==> TotalLen(p) + Utf8Len(ts[|p|]) > maxChars)
      && (Compacted(lines, maxChars) == [] <==> p == [])
  {
    var ts := NormalizedLines(lines);
    PackSpec(ts, maxChars);
    var p := Pack(ts, maxChars);
    assert forall k | 0 <= k < |p| :: p[k] == ts[k];
    JoinEmpty(p);
  }

  // ---------------------------------------------------------------------------
  // The pieces of a message list
  // ---------------------------------------------------------------------------

  function System(content: string): ChatMessage {
    ChatMessage("system", content)
  }

  function Opt(present: bool, m: ChatMessage): seq<ChatMessage> {
    if present then [m] else []
  }

  /** The memory bullets, one per item with non-empty normalised content. */
  function MemoryLines(items: seq<MemoryItem>): seq<string> {
    if items == [] then []
    else
      var c := Normalize(items[|items| - 1].content);
      MemoryLines(items[..|items| - 1]) + (if c == [] then [] else ["- " + Take(c, SnippetChars)])
  }

  /** At most one bullet per item: "- " followed by between 1 and 260 characters of its content. */
  lemma {:induction false} MemoryLinesShape(items: seq<MemoryItem>)
    ensures |MemoryLines(items)| <= |items|
    ensures forall k | 0 <= k < |MemoryLines(items)| ::
              "- " <= MemoryLines(items)[k] && 3 <= |MemoryLines(items)[k]| <= 2 + SnippetChars
  {
    if items != [] {
      MemoryLinesShape(items[..|items| - 1]);
    }
  }

  /** The memory loop: bullets for the first `maxItems` items. */
  method MemorySnippets(items: seq<MemoryItem>, maxItems: nat) returns (lines: seq<string>)
    ensures lines == MemoryLines(items[..Min(maxItems, |items|)])
  {
    var n := Min(maxItems, |items|);
    lines := [];
    var i := 0;
    while i < n
      invariant 0 <= i <= n
      invariant lines == MemoryLines(items[..i])
    {
      assert items[..i + 1][..i] == items[..i];
      var c := Normalize(items[i].content);
      if c != [] {
        lines := lines + ["- " + Take(c, SnippetChars)];
      }
      i := i + 1;
    }
  }

  /** The retrieved-memory message, present when some item is allowed, packing keeps a line. */
  function MemoryBlock(items: seq<MemoryItem>, l: Limits): seq<ChatMessage> {
    if items != [] && l.maxMemoryItems > 0 && l.maxMemoryChars > 0 then
      var packed := Compacted(MemoryLines(items[..Min(l.maxMemoryItems, |items|)]), l.maxMemoryChars);
      Opt(packed != [], System(MemoryHeading + packed))
    else []
  }

  /** The conversation turns kept: non-empty role other than `system`, non-empty content. */
  predicate IsKeptTurn(m: ChatMessage) {
    m.role != [] && m.role != "system" && Normalize(m.content) != []
  }

  function Filtered(conversation: seq<ChatMessage>): (f: seq<ChatMessage>)
    ensures |f| <= |conversation|
    ensures forall k | 0 <= k < |f| :: IsKeptTurn(f[k]) && f[k] in conversation
  {
    if conversation == [] then []
    else (if IsKeptTurn(conversation[0]) then [conversation[0]] else []) + Filtered(conversation[1..])
  }

  /** `len().saturating_sub(n)`: where the last `n` entries start. */
  function WindowStart(len: nat, n: nat): nat {
    if len >= n then len - n else 0
  }

  /** A kept turn as it is re-sent: same role, content normalised. */
  function RenderTurn(m: ChatMessage): ChatMessage {
    ChatMessage(m.role, Normalize(m.content))
  }

  /** `f` applied to each element, in order. */
  function Map<A, B>(f: A -> B, s: seq<A>): (r: seq<B>)
    ensures |r| == |s|
    decreases |s|
  {
    if s == [] then [] else Map(f, s[..|s| - 1]) + [f(s[|s| - 1])]
  }

  lemma {:induction false} MapAt<A, B>(f: A -> B, s: seq<A>)
    ensures forall k | 0 <= k < |s| :: Map(f, s)[k] == f(s[k])
    decreases |s|
  {
    if s != [] {
      var init := s[..|s| - 1];
      MapAt(f, init);
      assert forall k | 0 <= k < |init| :: init[k] == s[k];
    }
  }

  lemma MapStep<A, B>(f: A -> B, s: seq<A>, start: nat, i: nat)
    requires start <= i < |s|
    ensures Map(f, s[start..i + 1]) == Map(f, s[start..i]) + [f(s[i])]
  {
    assert s[start..i + 1][..i - start] == s[start..i];
  }

  /** The last `n` kept turns, in order, content normalised. */
  function History(conversation: seq<ChatMessage>, n: nat): (h: seq<ChatMessage>)
    ensures |h| == Min(n, |Filtered(conversation)|)
  {
    var f := Filtered(conversation);
    Map(RenderTurn, f[WindowStart(|f|, n)..])
  }

  /** The history window holds the last `n` kept turns of the conversation (all of them when there
      are fewer), in their original order, each re-sent with normalised content. */
  lemma HistoryIsLastTurns(conversation: seq<ChatMessage>, n: nat)
    ensures var f, h := Filtered(conversation), History(conversation, n);
      var last := f[|f| - |h|..];
      && |h| == Min(n, |f|)
      && forall k | 0 <= k < |h| :: h[k] == RenderTurn(last[k]) && IsKeptTurn(last[k])
  {
    LastWindow(RenderTurn, IsKeptTurn, Filtered(conversation), History(conversation, n), n);
  }

  /** The last `n` elements of a mapped list whose elements all satisfy `keep`. */
  lemma LastWindow<A, B>(f: A -> B, keep: A -> bool, s: seq<A>, h: seq<B>, n: nat)
    requires h == Map(f, s[WindowStart(|s|, n)..])
    requires forall k | 0 <= k < |s| :: keep(s[k])
    ensures |h| == Min(n, |s|)
    ensures var last := s[|s| - |h|..]; forall k | 0 <= k < |h| :: h[k] == f(last[k]) && keep(last[k])
  {
    MapAt(f, s[WindowStart(|s|, n)..]);
  }

  function UserTurn(r: Request): ChatMessage {
    ChatMessage("user", Normalize(r.userText))
  }

  /** Tier 2's history window: half of `maxHistory`, clamped into [2, maxHistory]. */
  function ReducedHistory(l: Limits): nat
    requires l.maxHistory >= 2
  {
    Clamp(l.maxHistory / 2, 2, l.maxHistory)
  }

  // ---------------------------------------------------------------------------
  // The tiers
  // ---------------------------------------------------------------------------

  /** The system prompt message, when there is one; every tier starts with it. */
  function Head(r: Request): seq<ChatMessage> {
    var sys := Normalize(r.systemPrompt);
    Opt(sys != [], System(sys))
  }

  /** The summary message, cut to `cap` characters; absent for an empty summary or a zero cap. */
  function SummaryBlock(r: Request, cap: nat): seq<ChatMessage> {
    var summary := Normalize(r.memorySummary);
    Opt(summary != [] && cap > 0, System(SummaryHeading + Take(summary, cap)))
  }

  /** The canvas message, cut to `cap` characters; absent for an empty canvas or a zero cap. */
  function CanvasBlock(r: Request, cap: nat): seq<ChatMessage> {
    var canvas := Normalize(r.canvasContext);
    Opt(canvas != [] && cap > 0, System(CanvasHeading + Take(canvas, cap)))
  }

  /** Tier 1's context: the summary, the retrieved memory and the canvas, each cut to its limit. */
  function Tier1Context(r: Request): seq<ChatMessage> {
    var l := ResolveLimits(r.config);
    SummaryBlock(r, l.maxSummaryChars) + MemoryBlock(r.memoryItems, l) + CanvasBlock(r, l.maxCanvasChars)
  }

  /** Tier 2's context: no retrieved memory, the summary and the canvas capped at 360 characters. */
  function Tier2Context(r: Request): seq<ChatMessage> {
    var l := ResolveLimits(r.config);
    SummaryBlock(r, Min(l.maxSummaryChars, ReducedCap)) + CanvasBlock(r, ReducedCap)
  }

  /** Tier 1: system prompt, context, the last `maxHistory` turns, the user turn. */
  function Tier1(r: Request): seq<ChatMessage> {
    Head(r) + Tier1Context(r) + History(r.conversation, ResolveLimits(r.config).maxHistory) + [UserTurn(r)]
  }

  /** Tier 2: system prompt, reduced context, half the history, the user turn. */
  function Tier2(r: Request): seq<ChatMessage> {
    Head(r) + Tier2Context(r) + History(r.conversation, ReducedHistory(ResolveLimits(r.config))) + [UserTurn(r)]
  }

  /** Tier 3: the system prompt and the user turn. */
  function Minimal(r: Request): seq<ChatMessage> {
    Head(r) + [UserTurn(r)]
  }

  /** `t` ends with the user turn, untruncated, and starts with the system prompt when there
      is one. */
  predicate Framed(t: seq<ChatMessage>, r: Request) {
    && t != [] && t[|t| - 1] == ChatMessage("user", Normalize(r.userText))
    && (Normalize(r.systemPrompt) != [] ==> t[0] == ChatMessage("system", Normalize(r.systemPrompt)))
  }

  /** Every tier is framed by the system prompt and the user turn. */
  lemma TiersFrame(r: Request)
    ensures Framed(Tier1(r), r) && Framed(Tier2(r), r) && Framed(Minimal(r), r)
  {
  }

  /** Dropping the messages between the frame never makes the list larger. */
  lemma FrameSize(head: seq<ChatMessage>, context: seq<ChatMessage>, history: seq<ChatMessage>, last: ChatMessage)
    ensures EstimateChars(head + [last]) <= EstimateChars(head + context + history + [last])
  {
    EstimateCharsConcat(head + context + history, [last]);
    EstimateCharsConcat(head + context, history);
    EstimateCharsConcat(head, context);
    EstimateCharsConcat(head, [last]);
  }

  /** The minimal list is never larger than either tier. */
  lemma MinimalIsSmallest(r: Request)
    ensures EstimateChars(Minimal(r)) <= EstimateChars(Tier2(r))
    ensures EstimateChars(Minimal(r)) <= EstimateChars(Tier1(r))
  {
    var l := ResolveLimits(r.config);
    FrameSize(Head(r), Tier1Context(r), History(r.conversation, l.maxHistory), UserTurn(r));
    FrameSize(Head(r), Tier2Context(r), History(r.conversation, ReducedHistory(l)), UserTurn(r));
  }

  /** Tier 2 is not always the smaller list: it cuts the canvas at 360 characters even when the
      configured canvas limit is lower. With no summary, memory or history, a canvas longer than
      such a limit makes tier 2 larger than tier 1. */
  lemma Tier2CanExceedTier1(r: Request)
    requires r.memorySummary == [] && r.memoryItems == [] && r.conversation == []
    requires ResolveLimits(r.config).maxCanvasChars < ReducedCap
    requires ResolveLimits(r.config).maxCanvasChars < |Normalize(r.canvasContext)|
    ensures EstimateChars(Tier2(r)) > EstimateChars(Tier1(r))
  {
    var l := ResolveLimits(r.config);
    var c := Normalize(r.canvasContext);
    NormalizeBlank(r.memorySummary);
    var short, long := CanvasHeading + Take(c, l.maxCanvasChars), CanvasHeading + Take(c, ReducedCap);
    assert Tier1Context(r) == [System(short)];
    assert Tier2Context(r) == [System(long)];
    assert History(r.conversation, l.maxHistory) == [] && History(r.conversation, ReducedHistory(l)) == [];
    var extra := c[l.maxCanvasChars..Min(ReducedCap, |c|)];
    assert Take(c, ReducedCap) == Take(c, l.maxCanvasChars) + extra;
    assert long == short + extra;
    Utf8LenConcat(short, extra);
    Tier2Size(Head(r), System(short), System(long), UserTurn(r));
  }

  lemma Tier2Size(head: seq<ChatMessage>, a: ChatMessage, b: ChatMessage, last: ChatMessage)
    requires Utf8Len(a.content) < Utf8Len(b.content)
    ensures EstimateChars(head + [a] + [] + [last]) < EstimateChars(head + [b] + [] + [last])
  {
    assert head + [a] + [] + [last] == head + ([a] + [last]);
    assert head + [b] + [] + [last] == head + ([b] + [last]);
    EstimateCharsConcat(head, [a] + [last]);
    EstimateCharsConcat(head, [b] + [last]);
  }

  /** The case in numbers: a canvas limit of 100 and a canvas of 1000 letters. */
  lemma Tier2ExceedsTier1Example()
    ensures var r := Request("hi", "", [], "", [], seq(1000, _ => 'a'), Some(ContextConfig(0, 0, 0, 100, 0, 0)));
      EstimateChars(Tier2(r)) > EstimateChars(Tier1(r))
  {
    var canvas := seq(1000, _ => 'a');
    var r := Request("hi", "", [], "", [], canvas, Some(ContextConfig(0, 0, 0, 100, 0, 0)));
    ReplaceCrlfDropsOnlyCr(canvas);
    TrimUntouched(canvas);
    assert Normalize(canvas) == canvas;
    Tier2CanExceedTier1(r);
  }

  // ---------------------------------------------------------------------------
  // build_chat_messages
  // ---------------------------------------------------------------------------

  /** The history loop: push each turn from `start` on, content normalised. */
  method PushHistory(out0: seq<ChatMessage>, filtered: seq<ChatMessage>, start: nat) returns (out: seq<ChatMessage>)
    requires start <= |filtered|
    ensures out == out0 + Map(RenderTurn, filtered[start..])
  {
    out := out0;
    var i := start;
    assert filtered[start..i] == [];
    while i < |filtered|
      invariant start <= i <= |filtered|
      invariant out == out0 + Map(RenderTurn, filtered[start..i])
    {
      var m := filtered[i];
      MapStep(RenderTurn, filtered, start, i);
      assert out + [RenderTurn(m)] == out0 + (Map(RenderTurn, filtered[start..i]) + [RenderTurn(m)]);
      out := out + [RenderTurn(m)];
      i := i + 1;
    }
    assert filtered[start..i] == filtered[start..];
  }

  /** The retrieved-memory push: snippets of the first items, packed into the memory budget. */
  method PushMemory(out0: seq<ChatMessage>, items: seq<MemoryItem>, l: Limits) returns (out: seq<ChatMessage>)
    ensures out == out0 + MemoryBlock(items, l)
  {
    out := out0;
    if items != [] && l.maxMemoryItems > 0 && l.maxMemoryChars > 0 {
      var lines := MemorySnippets(items, l.maxMemoryItems);
      var packed := CompactLines(lines, l.maxMemoryChars);
      if packed != [] {
        out := out + [System(MemoryHeading + packed)];
      }
    }
  }

  /** The pushes of the first attempt, up to the history. */
  method PushTier1Context(out0: seq<ChatMessage>, r: Request) returns (out: seq<ChatMessage>)
    ensures out == out0 + Tier1Context(r)
  {
    var l := ResolveLimits(r.config);
    var summary := PushSummary(out0, r, l.maxSummaryChars);
    out := PushMemory(summary, r.memoryItems, l);
    out := PushCanvas(out, r, l.maxCanvasChars);
  }

  /** Appends the summary message cut to `cap` characters, when there is one. */
  method PushSummary(out0: seq<ChatMessage>, r: Request, cap: nat) returns (out: seq<ChatMessage>)
    ensures out == out0 + SummaryBlock(r, cap)
  {
    out := out0;
    var memSummary := Normalize(r.memorySummary);
    if memSummary != [] && cap > 0 {
      out := out + [System(SummaryHeading + Take(memSummary, cap))];
    }
  }

  /** Appends the canvas message cut to `cap` characters, when there is one. */
  method PushCanvas(out0: seq<ChatMessage>, r: Request, cap: nat) returns (out: seq<ChatMessage>)
    ensures out == out0 + CanvasBlock(r, cap)
  {
    out := out0;
    var canvas := Normalize(r.canvasContext);
    if canvas != [] && cap > 0 {
      out := out + [System(CanvasHeading + Take(canvas, cap))];
    }
  }

  /** The pushes of the second attempt, up to the history: the summary and the canvas, both
      capped at 360 characters; the canvas cap does not depend on the configuration. */
  method PushTier2Context(base0: seq<ChatMessage>, r: Request) returns (base: seq<ChatMessage>)
    ensures base == base0 + Tier2Context(r)
  {
    var l := ResolveLimits(r.config);
    base := PushSummary(base0, r, Min(l.maxSummaryChars, ReducedCap));
    base := PushCanvas(base, r, ReducedCap);
  }

  /** Appends the history window (the last `keep` kept turns) and the user turn. */
  method PushTail(out0: seq<ChatMessage>, r: Request, keep: nat) returns (out: seq<ChatMessage>)
    ensures out == out0 + History(r.conversation, keep) + [UserTurn(r)]
  {
    var filtered := Filtered(r.conversation);
    var start := WindowStart(|filtered|, keep);
    out := PushHistory(out0, filtered, start);
    out := out + [ChatMessage("user", Normalize(r.userText))];
  }

  /** The first attempt: system prompt, full context, `maxHistory` turns, user turn. */
  method BuildTier1(r: Request) returns (out: seq<ChatMessage>)
    ensures out == Tier1(r)
  {
    var l := ResolveLimits(r.config);
    var sys := Normalize(r.systemPrompt);
    out := [];
    if sys != [] {
      out := out + [System(sys)];
    }
    assert out == Head(r);
    out := PushTier1Context(out, r);
    out := PushTail(out, r, l.maxHistory);
  }

  /** The second attempt: system prompt, reduced context, half the history, user turn. */
  method BuildTier2(r: Request) returns (base: seq<ChatMessage>)
    ensures base == Tier2(r)
  {
    var l := ResolveLimits(r.config);
    var keepHistory := Clamp(l.maxHistory / 2, 2, l.maxHistory);
    var sys := Normalize(r.systemPrompt);
    base := [];
    if sys != [] {
      base := base + [System(sys)];
    }
    assert base == Head(r) && keepHistory == ReducedHistory(l);
    base := PushTier2Context(base, r);
    base := PushTail(base, r, keepHistory);
  }

  /** The last resort: system prompt and user turn. */
  method BuildMinimal(r: Request) returns (minimal: seq<ChatMessage>)
    ensures minimal == Minimal(r)
  {
    var sys := Normalize(r.systemPrompt);
    minimal := [];
    if sys != [] {
      minimal := minimal + [System(sys)];
    }
    assert minimal == Head(r);
    minimal := minimal + [ChatMessage("user", Normalize(r.userText))];
  }

  /** `build_chat_messages`: tier 1 if it fits `maxChars`, else tier 2 if that fits, else the
      minimal list whatever its size. */
  method BuildChatMessages(userText: string, systemPrompt: string, conversation: seq<ChatMessage>,
                           memorySummary: string, memoryItems: seq<MemoryItem>, canvasContext: string,
                           config: Option<ContextConfig>)
    returns (out: seq<ChatMessage>)
    ensures var r := Request(userText, systemPrompt, conversation, memorySummary, memoryItems, canvasContext, config);
      var budget := ResolveLimits(config).maxChars;
      && (EstimateChars(Tier1(r)) <= budget ==> out == Tier1(r))
      && (EstimateChars(Tier1(r)) > budget && EstimateChars(Tier2(r)) <= budget ==> out == Tier2(r))
      && (EstimateChars(Tier1(r)) > budget && EstimateChars(Tier2(r)) > budget ==> out == Minimal(r))
    ensures out != [] && out[|out| - 1] == ChatMessage("user", Normalize(userText))
  {
    var r := Request(userText, systemPrompt, conversation, memorySummary, memoryItems, canvasContext, config);
    var l := ResolveLimits(config);
    TiersFrame(r);
    out := BuildTier1(r);
    if EstimateChars(out) <= l.maxChars {
      return;
    }
    var base := BuildTier2(r);
    if EstimateChars(base) <= l.maxChars {
      return base;
    }
    out := BuildMinimal(r);
  }
}
