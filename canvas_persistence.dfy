/**
 * Canvas persistence: the snapshot store (`save_project_canvas_to_disk_blocking`,
 * `load_project_canvas`, `delete_project_canvas`) and the debouncing save worker
 * (`canvas_save_worker`, fed by `enqueue_save_project_canvas`).
 *
 * The store directory is modelled as a map from project id to the snapshot in that
 * project's file (the file is named by the SHA-256 of the id, taken to be collision-free),
 * and every completed file write is appended to a log. The worker's channel and its 650 ms
 * receive timeout become events: a message, a timeout (no message for 650 ms), or the
 * disconnection of the channel.
 *
 * `Next` and `After` are the worker as a state machine on values; the classes are proved
 * to follow them, and the lemmas state what the machine promises.
 */
module CanvasPersistence {
  import opened Wrappers
  import opened Text
  import JsonValue

  type Snapshot = JsonValue.Value

  const EmptyProjectId: string := "projectId 不能为空"
  const QueueClosed: string := "画布保存队列已关闭"

  /** What `recv_timeout` hands the worker. */
  datatype Event = Msg(projectId: string, canvas: Snapshot) | Timeout | Disconnected

  // ---------------------------------------------------------------------------
  // The worker as a state machine
  // ---------------------------------------------------------------------------

  /** The entries of a batch the store accepts: those whose project id is not blank. */
  function Writable(batch: map<string, Snapshot>): map<string, Snapshot> {
    map id | id in batch && !IsBlank(id) :: batch[id]
  }

  /** The store's files, the worker's pending map, and whether its loop still runs. */
  datatype WorkerState = WorkerState(files: map<string, Snapshot>, pending: map<string, Snapshot>, running: bool)

  /** One event: a message overwrites the pending entry of its project; a timeout flushes the
      pending map into the store and empties it; a disconnection flushes and stops the loop.
      A stopped worker ignores everything. */
  function Next(s: WorkerState, ev: Event): WorkerState {
    if !s.running then s
    else
      match ev
      case Msg(id, v) => s.(pending := s.pending[id := v])
      case Timeout => WorkerState(s.files + Writable(s.pending), map[], true)
      case Disconnected => WorkerState(s.files + Writable(s.pending), map[], false)
  }

  /** The state after a sequence of events. */
  function After(s: WorkerState, events: seq<Event>): WorkerState
    decreases |events|
  {
    if events == [] then s else After(Next(s, events[0]), events[1..])
  }

  /** A burst of messages for one project. */
  function Burst(id: string, values: seq<Snapshot>): seq<Event> {
    if values == [] then [] else [Msg(id, values[0])] + Burst(id, values[1..])
  }

  lemma {:induction false} AfterAppend(s: WorkerState, a: seq<Event>, b: seq<Event>)
    ensures After(s, a + b) == After(After(s, a), b)
    decreases |a|
  {
    if a != [] {
      assert (a + b)[0] == a[0] && (a + b)[1..] == a[1..] + b;
      AfterAppend(Next(s, a[0]), a[1..], b);
    } else {
      assert a + b == b;
    }
  }

  /** Messages never write: a burst only changes the pending entry of its project, to the
      last value sent. */
  lemma {:induction false} BurstCoalesces(s: WorkerState, id: string, values: seq<Snapshot>)
    requires s.running && values != []
    ensures After(s, Burst(id, values)) == s.(pending := s.pending[id := values[|values| - 1]])
    decreases |values|
  {
    var s1 := Next(s, Msg(id, values[0]));
    if |values| == 1 {
      assert Burst(id, values) == [Msg(id, values[0])];
    } else {
      BurstCoalesces(s1, id, values[1..]);
      assert s1.pending[id := values[|values| - 1]] == s.pending[id := values[|values| - 1]];
    }
  }

  /** Debouncing: a burst of saves for one project followed by a quiet period makes one write,
      of the last value, and leaves nothing pending. */
  lemma BurstThenIdle(s: WorkerState, id: string, values: seq<Snapshot>)
    requires s.running && values != [] && !IsBlank(id)
    ensures var t := After(s, Burst(id, values) + [Timeout]);
      && t.files == (s.files + Writable(s.pending))[id := values[|values| - 1]]
      && t.pending == map[]
      && t.running
  {
    AfterAppend(s, Burst(id, values), [Timeout]);
    BurstCoalesces(s, id, values);
    var last := values[|values| - 1];
    WritableUpdate(s.pending, id, last);
    UnionUpdate(s.files, Writable(s.pending), id, last);
  }

  lemma WritableUpdate(p: map<string, Snapshot>, id: string, v: Snapshot)
    requires !IsBlank(id)
    ensures Writable(p[id := v]) == Writable(p)[id := v]
  {
  }

  lemma UnionUpdate(f: map<string, Snapshot>, w: map<string, Snapshot>, id: string, v: Snapshot)
    ensures f + w[id := v] == (f + w)[id := v]
  {
  }

  /** Round trip: a snapshot sent to the worker is what the store holds after the next quiet
      period. */
  lemma SaveThenLoad(s: WorkerState, id: string, v: Snapshot)
    requires s.running && !IsBlank(id)
    ensures id in After(s, [Msg(id, v), Timeout]).files
    ensures After(s, [Msg(id, v), Timeout]).files[id] == v
  {
    BurstThenIdle(s, id, [v]);
    assert Burst(id, [v]) + [Timeout] == [Msg(id, v), Timeout];
  }

  /** A timeout with nothing pending writes nothing. */
  lemma IdleTimeoutWritesNothing(s: WorkerState)
    requires s.running && s.pending == map[]
    ensures Next(s, Timeout) == s
  {
    assert Writable(s.pending) == map[];
    assert s.files + map[] == s.files;
  }

  /** After the loop has stopped, no event changes anything. */
  lemma {:induction false} StoppedStays(s: WorkerState, events: seq<Event>)
    requires !s.running
    ensures After(s, events) == s
    decreases |events|
  {
    if events != [] {
      StoppedStays(Next(s, events[0]), events[1..]);
    }
  }

  /** Disconnection performs one final flush and ends the worker, whatever comes after it. */
  lemma DisconnectFlushesAndStops(s: WorkerState, rest: seq<Event>)
    requires s.running
    ensures After(s, [Disconnected] + rest) == WorkerState(s.files + Writable(s.pending), map[], false)
  {
    assert ([Disconnected] + rest)[0] == Disconnected && ([Disconnected] + rest)[1..] == rest;
    StoppedStays(Next(s, Disconnected), rest);
  }

  /** The pending map only ever holds project ids that are not blank. */
  ghost predicate PendingValid(s: WorkerState) {
    forall id | id in s.pending :: !IsBlank(id)
  }

  /** Every message carries a project id that is not blank, as enqueueing guarantees. */
  ghost predicate Validated(events: seq<Event>) {
    forall k | 0 <= k < |events| :: events[k].Msg? ==> !IsBlank(events[k].projectId)
  }

  /** Fed only through the enqueue check, the worker keeps nothing the store would refuse, so
      every pending entry reaches the store. */
  lemma {:induction false} ValidatedRunWritesAll(s: WorkerState, events: seq<Event>)
    requires PendingValid(s) && Validated(events)
    ensures PendingValid(After(s, events))
    ensures Writable(After(s, events).pending) == After(s, events).pending
    decreases |events|
  {
    if events != [] {
      assert Validated(events[1..]) by {
        forall k | 0 <= k < |events[1..]| ensures events[1..][k].Msg? ==> !IsBlank(events[1..][k].projectId) {
          assert events[1..][k] == events[k + 1];
        }
      }
      ValidatedRunWritesAll(Next(s, events[0]), events[1..]);
    }
  }

  // ---------------------------------------------------------------------------
  // The store
  // ---------------------------------------------------------------------------

  /** The ids of the writes in a log, as a set. */
  function WrittenIds(w: seq<(string, Snapshot)>): set<string> {
    if w == [] then {} else WrittenIds(w[..|w| - 1]) + {w[|w| - 1].0}
  }

  lemma WrittenIdsMember(w: seq<(string, Snapshot)>, id: string)
    ensures id in WrittenIds(w) <==> exists k | 0 <= k < |w| :: w[k].0 == id
  {
    if w != [] {
      WrittenIdsMember(w[..|w| - 1], id);
      if id in WrittenIds(w[..|w| - 1]) {
        var k :| 0 <= k < |w| - 1 && w[..|w| - 1][k].0 == id;
        assert w[k].0 == id;
      }
      if exists k | 0 <= k < |w| :: w[k].0 == id {
        var k :| 0 <= k < |w| && w[k].0 == id;
        if k < |w| - 1 {
          assert w[..|w| - 1][k].0 == id;
        }
      }
    }
  }

  /** `w` writes each entry the store accepts from `batch` exactly once, with its value. */
  ghost predicate WritesEach(w: seq<(string, Snapshot)>, batch: map<string, Snapshot>) {
    && (forall k | 0 <= k < |w| :: w[k].0 in batch && !IsBlank(w[k].0) && w[k].1 == batch[w[k].0])
    && (forall j, k | 0 <= j < k < |w| :: w[j].0 != w[k].0)
    && WrittenIds(w) == Writable(batch).Keys
  }

  /** The ids of a log with no repeated id are as many as its writes. */
  lemma {:induction false} DistinctIdsCount(w: seq<(string, Snapshot)>)
    requires forall j, k | 0 <= j < k < |w| :: w[j].0 != w[k].0
    ensures |WrittenIds(w)| == |w|
  {
    if w != [] {
      var p := w[..|w| - 1];
      DistinctIdsCount(p);
      WrittenIdsMember(p, w[|w| - 1].0);
      assert forall k | 0 <= k < |p| :: p[k] == w[k];
    }
  }

  /** A flush's writes are exactly as many as the entries the store accepts. */
  lemma WritesEachLength(w: seq<(string, Snapshot)>, batch: map<string, Snapshot>)
    requires WritesEach(w, batch)
    ensures |w| == |Writable(batch)|
  {
    DistinctIdsCount(w);
    assert |Writable(batch).Keys| == |Writable(batch)|;
  }

  /** The batches the worker flushes from state `s` on `events`, in order: the pending map
      at every timeout and at the disconnection, until the loop stops. */
  function Flushes(s: WorkerState, events: seq<Event>): seq<map<string, Snapshot>>
    decreases |events|
  {
    if events == [] || !s.running then []
    else (if events[0].Msg? then [] else [s.pending]) + Flushes(Next(s, events[0]), events[1..])
  }

  /** The writes of consecutive segments, in order. */
  function Concat(segs: seq<seq<(string, Snapshot)>>): seq<(string, Snapshot)>
    decreases |segs|
  {
    if segs == [] then [] else Concat(segs[..|segs| - 1]) + segs[|segs| - 1]
  }

  lemma {:induction false} ConcatAppend(p: seq<seq<(string, Snapshot)>>, q: seq<seq<(string, Snapshot)>>)
    ensures Concat(p + q) == Concat(p) + Concat(q)
    decreases |q|
  {
    if q == [] {
      assert p + q == p;
    } else {
      assert (p + q)[..|p + q| - 1] == p + q[..|q| - 1];
      ConcatAppend(p, q[..|q| - 1]);
    }
  }

  /** `segs` cut the log `w` into one segment per batch of `batches`, each writing that batch's
      accepted entries once, in any order. */
  ghost predicate SegmentedLog(w: seq<(string, Snapshot)>, batches: seq<map<string, Snapshot>>,
                               segs: seq<seq<(string, Snapshot)>>)
  {
    && |segs| == |batches|
    && Concat(segs) == w
    && forall k | 0 <= k < |segs| :: WritesEach(segs[k], batches[k])
  }

  /** `w` is the log of flushing `batches` one after the other, and nothing else. */
  ghost predicate LogOf(w: seq<(string, Snapshot)>, batches: seq<map<string, Snapshot>>) {
    exists segs :: SegmentedLog(w, batches, segs)
  }

  lemma {:induction false} FlushesAppend(s: WorkerState, xs: seq<Event>, ys: seq<Event>)
    ensures Flushes(s, xs + ys) == Flushes(s, xs) + Flushes(After(s, xs), ys)
    decreases |xs|
  {
    if xs == [] {
      assert xs + ys == ys;
    } else if !s.running {
      StoppedStays(s, xs);
    } else {
      assert (xs + ys)[0] == xs[0] && (xs + ys)[1..] == xs[1..] + ys;
      FlushesAppend(Next(s, xs[0]), xs[1..], ys);
    }
  }

  /** Every write in the log of a run is of a project id that is not blank. */
  lemma LogOfNonBlank(w: seq<(string, Snapshot)>, batches: seq<map<string, Snapshot>>, k: int)
    requires LogOf(w, batches) && 0 <= k < |w|
    ensures !IsBlank(w[k].0)
  {
    var segs :| SegmentedLog(w, batches, segs);
    ConcatNonBlank(segs, batches, k);
  }

  lemma {:induction false} ConcatNonBlank(segs: seq<seq<(string, Snapshot)>>, batches: seq<map<string, Snapshot>>, k: int)
    requires |segs| == |batches| && forall j | 0 <= j < |segs| :: WritesEach(segs[j], batches[j])
    requires 0 <= k < |Concat(segs)|
    ensures !IsBlank(Concat(segs)[k].0)
    decreases |segs|
  {
    var m := |segs| - 1;
    var p := Concat(segs[..m]);
    if k < |p| {
      assert Concat(segs)[k] == p[k];
      ConcatNonBlank(segs[..m], batches[..m], k);
    } else {
      assert Concat(segs)[k] == segs[m][k - |p|];
    }
  }

  /** Messages flush nothing. */
  lemma {:induction false} BurstFlushesNothing(s: WorkerState, id: string, values: seq<Snapshot>)
    requires s.running
    ensures Flushes(s, Burst(id, values)) == []
    decreases |values|
  {
    if values != [] {
      var e := Burst(id, values);
      assert e[0] == Msg(id, values[0]) && e[1..] == Burst(id, values[1..]);
      BurstFlushesNothing(Next(s, e[0]), id, values[1..]);
    }
  }

  /** A burst of saves for one project from an empty pending map, followed by a quiet period,
      flushes one batch: that project's last value. */
  lemma BurstThenIdleFlushes(s: WorkerState, id: string, values: seq<Snapshot>)
    requires s.running && s.pending == map[] && values != []
    ensures Flushes(s, Burst(id, values) + [Timeout]) == [map[id := values[|values| - 1]]]
  {
    FlushesAppend(s, Burst(id, values), [Timeout]);
    BurstFlushesNothing(s, id, values);
    BurstCoalesces(s, id, values);
    StepFlushes(After(s, Burst(id, values)), Timeout);
  }

  /** Debouncing, for the log: a burst of saves for one project from an empty pending map,
      followed by a quiet period, is exactly one write, of the last value. */
  lemma BurstThenIdleLog(w: seq<(string, Snapshot)>, s: WorkerState, id: string, values: seq<Snapshot>)
    requires s.running && s.pending == map[] && values != [] && !IsBlank(id)
    requires LogOf(w, Flushes(s, Burst(id, values) + [Timeout]))
    ensures w == [(id, values[|values| - 1])]
  {
    var last := values[|values| - 1];
    BurstThenIdleFlushes(s, id, values);
    var segs :| SegmentedLog(w, [map[id := last]], segs);
    assert segs[..0] == [] && Concat(segs) == segs[0];
    WritesOne(w, id, last);
  }

  /** Writing the accepted entries of a one-entry batch is one write. */
  lemma WritesOne(w: seq<(string, Snapshot)>, id: string, v: Snapshot)
    requires !IsBlank(id) && WritesEach(w, map[id := v])
    ensures w == [(id, v)]
  {
    assert Writable(map[id := v]).Keys == {id};
    WrittenIdsMember(w, id);
  }

  /** Flushes of one loop turn. */
  lemma StepFlushes(s: WorkerState, ev: Event)
    requires s.running
    ensures Flushes(s, [ev]) == if ev.Msg? then [] else [s.pending]
  {
    assert [ev][1..] == [];
  }

  /** The segments after one more loop turn: a flush adds its own. */
  function NextSegs(segs: seq<seq<(string, Snapshot)>>, ev: Event, seg: seq<(string, Snapshot)>): seq<seq<(string, Snapshot)>> {
    if ev.Msg? then segs else segs + [seg]
  }

  /** The log of a run grows by one loop turn: a message adds nothing, a flush one segment. */
  lemma LogStep(s0: WorkerState, xs: seq<Event>, ev: Event, w: seq<(string, Snapshot)>,
                segs: seq<seq<(string, Snapshot)>>, seg: seq<(string, Snapshot)>)
    requires SegmentedLog(w, Flushes(s0, xs), segs) && After(s0, xs).running
    requires ev.Msg? ==> seg == []
    requires !ev.Msg? ==> WritesEach(seg, After(s0, xs).pending)
    ensures SegmentedLog(w + seg, Flushes(s0, xs + [ev]), NextSegs(segs, ev, seg))
  {
    FlushesAppend(s0, xs, [ev]);
    StepFlushes(After(s0, xs), ev);
    if ev.Msg? {
      assert w + seg == w;
    } else {
      ConcatAppend(segs, [seg]);
      assert Concat([seg]) == seg by { assert [seg][..0] == []; }
    }
  }

  /** One loop turn of a run, stated on the whole write log. */
  lemma RunStep(s0: WorkerState, events: seq<Event>, i: nat, w0: seq<(string, Snapshot)>,
                wi: seq<(string, Snapshot)>, w: seq<(string, Snapshot)>, segs: seq<seq<(string, Snapshot)>>)
    requires i < |events| && w0 <= wi && wi <= w
    requires SegmentedLog(wi[|w0|..], Flushes(s0, events[..i]), segs) && After(s0, events[..i]).running
    requires events[i].Msg? ==> w == wi
    requires !events[i].Msg? ==> WritesEach(w[|wi|..], After(s0, events[..i]).pending)
    ensures SegmentedLog(w[|w0|..], Flushes(s0, events[..i + 1]), NextSegs(segs, events[i], w[|wi|..]))
    ensures After(s0, events[..i + 1]) == Next(After(s0, events[..i]), events[i])
  {
    LogStep(s0, events[..i], events[i], wi[|w0|..], segs, w[|wi|..]);
    AfterAppend(s0, events[..i], [events[i]]);
    assert events[..i + 1] == events[..i] + [events[i]];
    assert w[|w0|..] == wi[|w0|..] + w[|wi|..];
  }

  /** A run that stops, or has no events left, adds nothing more to the log. */
  lemma RunStop(s0: WorkerState, events: seq<Event>, i: nat, w: seq<(string, Snapshot)>,
                segs: seq<seq<(string, Snapshot)>>)
    requires i <= |events| && SegmentedLog(w, Flushes(s0, events[..i]), segs)
    requires i == |events| || !After(s0, events[..i]).running
    ensures SegmentedLog(w, Flushes(s0, events), segs)
    ensures After(s0, events) == After(After(s0, events[..i]), events[i..])
  {
    FlushesAppend(s0, events[..i], events[i..]);
    AfterAppend(s0, events[..i], events[i..]);
    assert events[..i] + events[i..] == events;
  }

  /** The snapshot store. */
  class CanvasStore {
    /** Project id to the snapshot in that project's file. */
    var files: map<string, Snapshot>
    /** Every completed write, in order. */
    var writes: seq<(string, Snapshot)>

    constructor ()
      ensures files == map[] && writes == []
    {
      files := map[];
      writes := [];
    }

    /** `load_project_canvas`: nothing for a blank id or a missing file, otherwise the
        snapshot in the file. */
    function Load(projectId: string): (r: Option<Snapshot>)
      reads this
      ensures IsBlank(projectId) ==> r == None
      ensures !IsBlank(projectId) && projectId !in files ==> r == None
      ensures !IsBlank(projectId) && projectId in files ==> r == Some(files[projectId])
    {
      TrimBlank(projectId);
      if Trim(projectId) == [] then None
      else if projectId in files then Some(files[projectId])
      else None
    }

    /** `save_project_canvas_to_disk_blocking`: a blank id is refused before any file work;
        otherwise the whole snapshot replaces the project's file. */
    method Save(projectId: string, canvas: Snapshot) returns (r: Result<Unit, string>)
      modifies this
      ensures IsBlank(projectId) ==> r == Err(EmptyProjectId) && files == old(files) && writes == old(writes)
      ensures !IsBlank(projectId) ==>
                && r == Ok(Unit)
                && files == old(files)[projectId := canvas]
                && writes == old(writes) + [(projectId, canvas)]
      ensures r.Ok? ==> Load(projectId) == Some(canvas)
    {
      TrimBlank(projectId);
      if Trim(projectId) == [] {
        return Err(EmptyProjectId);
      }
      files := files[projectId := canvas];
      writes := writes + [(projectId, canvas)];
      return Ok(Unit);
    }

    /** `delete_project_canvas`: removes the project's file if there is one; a blank id is
        accepted and does nothing. */
    method Delete(projectId: string) returns (r: Result<Unit, string>)
      modifies this
      ensures r == Ok(Unit) && writes == old(writes)
      ensures IsBlank(projectId) ==> files == old(files)
      ensures !IsBlank(projectId) ==> files == old(files) - {projectId} && Load(projectId) == None
    {
      TrimBlank(projectId);
      if Trim(projectId) == [] {
        return Ok(Unit);
      }
      files := files - {projectId};
      return Ok(Unit);
    }
  }

  // ---------------------------------------------------------------------------
  // The worker
  // ---------------------------------------------------------------------------

  /** What a partly done flush has achieved: the store holds the entries of `batch` already
      taken out of `rest` (those it accepts), and everything else as before. */
  ghost predicate FlushedSoFar(files0: map<string, Snapshot>, files: map<string, Snapshot>,
                               batch: map<string, Snapshot>, rest: map<string, Snapshot>)
  {
    && (forall id :: id in files <==> id in files0 || (id in batch && id !in rest && !IsBlank(id)))
    && (forall id | id in files ::
          files[id] == if id in batch && id !in rest && !IsBlank(id) then batch[id] else files0[id])
  }

  lemma FlushedAll(files0: map<string, Snapshot>, files: map<string, Snapshot>, batch: map<string, Snapshot>)
    requires FlushedSoFar(files0, files, batch, map[])
    ensures files == files0 + Writable(batch)
  {
  }

  /** The writes of a partly done flush: each entry taken out of `rest` that the store
      accepts, once, with its value. */
  ghost predicate WrittenSoFar(w: seq<(string, Snapshot)>, batch: map<string, Snapshot>, rest: map<string, Snapshot>) {
    && (forall k | 0 <= k < |w| :: w[k].0 in batch && w[k].0 !in rest && !IsBlank(w[k].0) && w[k].1 == batch[w[k].0])
    && (forall j, k | 0 <= j < k < |w| :: w[j].0 != w[k].0)
    && WrittenIds(w) == (set id | id in batch && id !in rest && !IsBlank(id))
  }

  /** What the flush loop keeps: the entries still in `rest` are those of `batch` not yet
      handled, and the store's files and log account for all the handled ones. */
  ghost predicate FlushInv(files0: map<string, Snapshot>, writes0: seq<(string, Snapshot)>,
                           files: map<string, Snapshot>, writes: seq<(string, Snapshot)>,
                           batch: map<string, Snapshot>, rest: map<string, Snapshot>)
  {
    && rest.Keys <= batch.Keys && (forall id | id in rest :: rest[id] == batch[id])
    && writes0 <= writes
    && FlushedSoFar(files0, files, batch, rest)
    && WrittenSoFar(writes[|writes0|..], batch, rest)
  }

  /** Handling one more entry of `rest` (a write when the store accepts its id) keeps the loop
      invariant. */
  lemma FlushStep(files0: map<string, Snapshot>, writes0: seq<(string, Snapshot)>,
                  files: map<string, Snapshot>, writes: seq<(string, Snapshot)>,
                  files': map<string, Snapshot>, writes': seq<(string, Snapshot)>,
                  batch: map<string, Snapshot>, rest: map<string, Snapshot>, id: string)
    requires FlushInv(files0, writes0, files, writes, batch, rest) && id in rest
    requires IsBlank(id) ==> files' == files && writes' == writes
    requires !IsBlank(id) ==> files' == files[id := rest[id]] && writes' == writes + [(id, rest[id])]
    ensures FlushInv(files0, writes0, files', writes', batch, rest - {id})
  {
    FilesStep(files0, files, files', batch, rest, id);
    if !IsBlank(id) {
      assert writes'[|writes0|..] == writes[|writes0|..] + [(id, batch[id])];
      WrittenStep(writes[|writes0|..], writes'[|writes0|..], batch, rest, id);
    } else {
      assert writes'[|writes0|..] == writes[|writes0|..];
      assert WrittenSoFar(writes'[|writes0|..], batch, rest - {id});
    }
  }

  lemma FilesStep(files0: map<string, Snapshot>, files: map<string, Snapshot>, files': map<string, Snapshot>,
                  batch: map<string, Snapshot>, rest: map<string, Snapshot>, id: string)
    requires FlushedSoFar(files0, files, batch, rest) && id in rest && rest.Keys <= batch.Keys && rest[id] == batch[id]
    requires IsBlank(id) ==> files' == files
    requires !IsBlank(id) ==> files' == files[id := rest[id]]
    ensures FlushedSoFar(files0, files', batch, rest - {id})
  {
  }

  lemma WrittenStep(w: seq<(string, Snapshot)>, w': seq<(string, Snapshot)>,
                    batch: map<string, Snapshot>, rest: map<string, Snapshot>, id: string)
    requires WrittenSoFar(w, batch, rest) && id in rest && rest.Keys <= batch.Keys && !IsBlank(id)
    requires w' == w + [(id, batch[id])]
    ensures WrittenSoFar(w', batch, rest - {id})
  {
    assert w'[..|w'| - 1] == w;
    forall j, k | 0 <= j < k < |w'| ensures w'[j].0 != w'[k].0 {
      if k == |w| {
        assert w'[j] == w[j];
      }
    }
  }

  /** A finished flush has written each accepted entry of the batch exactly once. */
  lemma FlushDone(files0: map<string, Snapshot>, writes0: seq<(string, Snapshot)>,
                  files: map<string, Snapshot>, writes: seq<(string, Snapshot)>, batch: map<string, Snapshot>)
    requires FlushInv(files0, writes0, files, writes, batch, map[])
    ensures files == files0 + Writable(batch)
    ensures writes0 <= writes && WritesEach(writes[|writes0|..], batch)
  {
    FlushedAll(files0, files, batch);
    var none: map<string, Snapshot> := map[];
    assert (set id | id in batch && id !in none && !IsBlank(id)) == Writable(batch).Keys;
  }

  /** The debouncing save worker, writing through `store`. */
  class SaveWorker {
    var pending: map<string, Snapshot>
    var running: bool
    const store: CanvasStore

    constructor (store: CanvasStore)
      ensures this.store == store && pending == map[] && running
    {
      this.store := store;
      pending := map[];
      running := true;
    }

    /** The worker and its store as a state-machine value. */
    function State(): WorkerState
      reads this, store
    {
      WorkerState(store.files, pending, running)
    }

    /** `pending.insert(id, canvas)`. */
    method Receive(projectId: string, canvas: Snapshot)
      modifies this
      ensures pending == old(pending)[projectId := canvas] && running == old(running)
    {
      pending := pending[projectId := canvas];
    }

    /** The flush loop, `for (project_id, canvas) in batch`: entries are written one at a time,
        in whatever order the map yields them; a refused write is ignored. */
    method Flush(batch: map<string, Snapshot>)
      modifies store
      ensures store.files == old(store.files) + Writable(batch)
      ensures old(store.writes) <= store.writes
      ensures WritesEach(store.writes[|old(store.writes)|..], batch)
    {
      var rest := batch;
      ghost var files0, writes0 := store.files, store.writes;
      assert store.writes[|writes0|..] == [];
      while rest != map[]
        invariant FlushInv(files0, writes0, store.files, store.writes, batch, rest)
        decreases |rest|
      {
        var id :| id in rest;
        ghost var files, writes := store.files, store.writes;
        var _ := store.Save(id, rest[id]);
        FlushStep(files0, writes0, files, writes, store.files, store.writes, batch, rest, id);
        rest := rest - {id};
      }
      FlushDone(files0, writes0, store.files, store.writes, batch);
    }

    /** One turn of the worker loop. */
    method Handle(ev: Event)
      requires running
      modifies this, store
      ensures State() == Next(old(State()), ev)
      ensures ev.Msg? ==> store.writes == old(store.writes)
      ensures !ev.Msg? ==> old(store.writes) <= store.writes && WritesEach(store.writes[|old(store.writes)|..], old(pending))
    {
      match ev
      case Msg(id, v) =>
        Receive(id, v);
      case Timeout =>
        if pending == map[] {
          IdleTimeoutWritesNothing(State());
          assert store.writes[|store.writes|..] == [];
          return;
        }
        var batch := pending;
        pending := map[];
        Flush(batch);
      case Disconnected =>
        running := false;
        if pending == map[] {
          assert Writable(pending) == map[] && store.files + map[] == store.files;
          assert store.writes[|store.writes|..] == [];
          return;
        }
        var batch := pending;
        pending := map[];
        Flush(batch);
    }

    /** `canvas_save_worker`: handles the events in order until the channel disconnects. */
    method Run(events: seq<Event>)
      requires running
      modifies this, store
      ensures State() == After(old(State()), events)
      ensures old(store.writes) <= store.writes
      ensures LogOf(store.writes[|old(store.writes)|..], Flushes(old(State()), events))
    {
      ghost var s0, w0 := State(), store.writes;
      ghost var segs: seq<seq<(string, Snapshot)>> := [];
      var i := 0;
      assert store.writes[|w0|..] == [];
      while i < |events| && running
        invariant 0 <= i <= |events|
        invariant State() == After(s0, events[..i])
        invariant w0 <= store.writes
        invariant SegmentedLog(store.writes[|w0|..], Flushes(s0, events[..i]), segs)
      {
        ghost var wi := store.writes;
        Handle(events[i]);
        RunStep(s0, events, i, w0, wi, store.writes, segs);
        segs := NextSegs(segs, events[i], store.writes[|wi|..]);
        i := i + 1;
      }
      RunStop(s0, events, i, store.writes[|w0|..], segs);
      if i < |events| {
        StoppedStays(State(), events[i..]);
      } else {
        assert events[i..] == [];
      }
    }

    /** `enqueue_save_project_canvas`: a blank id is refused; otherwise the snapshot is sent to
        the worker, which fails only once the worker has stopped. */
    method Enqueue(projectId: string, canvas: Snapshot) returns (r: Result<Unit, string>)
      modifies this
      ensures running == old(running)
      ensures IsBlank(projectId) ==> r == Err(EmptyProjectId) && pending == old(pending)
      ensures !IsBlank(projectId) && !running ==> r == Err(QueueClosed) && pending == old(pending)
      ensures !IsBlank(projectId) && running ==> r == Ok(Unit) && pending == old(pending)[projectId := canvas]
    {
      TrimBlank(projectId);
      if Trim(projectId) == [] {
        return Err(EmptyProjectId);
      }
      if !running {
        return Err(QueueClosed);
      }
      Receive(projectId, canvas);
      return Ok(Unit);
    }
  }
}
