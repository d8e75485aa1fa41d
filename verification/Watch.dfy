/** The debounced rebuild of a module index: every change is scanned sooner or later. */
module Watch {
  import opened Options
  import opened Manifest
  import opened FileTree
  import opened Snapshot
  import opened Indexer

  datatype Op = Create | Write | Remove | Rename | Chmod | Other

  /** An fsnotify event: the set of operation bits it carries. */
  type Event = set<Op>

  predicate Relevant(ev: Event)
  {
    ev * {Create, Write, Remove, Rename, Chmod} != {}
  }

  datatype Timer = Stopped | Armed | Fired

  datatype Debounce = Debounce(pending: bool, timer: Timer)

  /** The event case of the select loop. Reset is only ever called on a stopped, drained timer. */
  function AfterEvent(d: Debounce, ev: Event): Debounce
  {
    if Relevant(ev) && !d.pending then Debounce(true, Armed) else d
  }

  /** A waiting loop is woken by every event that carries one of the five bits, and by no other; a woken one stays. */
  lemma ArmsExactly(ev: Event, d: Debounce)
    ensures AfterEvent(Debounce(false, Stopped), ev) == Debounce(true, Armed) <==>
            Create in ev || Write in ev || Remove in ev || Rename in ev || Chmod in ev
    ensures d.pending || ev <= {Other} ==> AfterEvent(d, ev) == d
  {
    var bits := {Create, Write, Remove, Rename, Chmod};
    assert forall op :: op in ev * bits <==> op in ev && op in bits;
  }

  class Watcher {
    const index: ModuleIndex
    var pending: bool
    var timer: Timer

    constructor (index: ModuleIndex)
      ensures this.index == index && !pending && timer == Stopped
    {
      this.index := index;
      pending, timer := false, Stopped;
    }

    method OnEvent(ev: Event) returns (addWatches: bool)
      modifies this
      ensures Debounce(pending, timer) == AfterEvent(old(Debounce(pending, timer)), ev)
      ensures addWatches <==> Create in ev
      ensures Create in ev || Write in ev || Remove in ev || Rename in ev || Chmod in ev ==> pending
      ensures !old(pending) && pending ==> timer == Armed
    {
      addWatches := false;
      ArmsExactly(ev, Debounce(pending, timer));
      if ev * {Create, Write, Remove, Rename, Chmod} == {} {
        return;
      }
      if Create in ev {
        addWatches := true;
      }
      if !pending {
        pending := true;
        timer := Armed;
      }
    }

    /** The timer case: the tick has been read, the module is scanned, and only then is `pending` cleared. */
    method OnTick(hash: Hash, tree: Result<Forest, string>)
      requires timer == Fired
      modifies this, index
      ensures !pending && timer == Stopped
      ensures tree.Ok? ==> index.data == Some(IndexOf(hash, tree.value)) && index.lastErr == None
      ensures tree.Err? ==> index.data == old(index.data) && index.lastErr == Some(tree.error)
    {
      timer := Stopped;
      index.Rebuild(hash, tree);
      pending := false;
    }
  }

  /* ------------------------------------------------------------------ the loop and its surroundings */

  /** `changes` counts the changes of the tree so far; `base` is their number when the last scan started. */
  datatype State = State(
    tree: Forest,
    changes: nat,
    queue: seq<Event>,
    loop: Debounce,
    scanning: bool,
    base: nat,
    data: Option<seq<Entry>>,
    lastErr: Option<string>)

  /** What happens to a file or directory of the module, and the bit fsnotify reports it with. */
  datatype Kind = Created | Written | Removed | Renamed | Chmodded

  function Bit(kind: Kind): Op
  {
    match kind
    case Created => Create
    case Written => Write
    case Removed => Remove
    case Renamed => Rename
    case Chmodded => Chmod
  }

  datatype Step =
    | Change(kind: Kind, tree: Forest, events: seq<Event>)
    | Noise(ev: Event)
    | Deliver
    | Fire
    | ScanStart
    | ScanEnd(result: Result<seq<Entry>, string>)

  predicate HasRelevant(queue: seq<Event>)
  {
    exists i | 0 <= i < |queue| :: Relevant(queue[i])
  }

  predicate HasBit(queue: seq<Event>, op: Op)
  {
    exists i | 0 <= i < |queue| :: op in queue[i]
  }

  /** A change queues an event with its bit, except below a new directory whose own Create event is still
      queued: that directory is not watched yet. A scan during which nothing changed sees the tree. */
  predicate Enabled(hash: Hash, st: State, s: Step)
  {
    match s
    case Change(kind, _, events) => HasBit(events, Bit(kind)) || (events == [] && HasBit(st.queue, Create))
    case Noise(_) => true
    case Deliver => !st.scanning && st.queue != []
    case Fire => st.loop.timer == Armed
    case ScanStart => !st.scanning && st.loop.timer == Fired
    case ScanEnd(result) => st.scanning && (st.changes == st.base && result.Ok? ==>
        result.value == IndexOf(hash, st.tree))
  }

  function Apply(st: State, s: Step): State
  {
    match s
    case Change(_, tree, events) => st.(tree := tree, changes := st.changes + 1, queue := st.queue + events)
    case Noise(ev) => st.(queue := st.queue + [ev])
    case Deliver =>
      if st.queue == [] then st
      else st.(queue := st.queue[1..], loop := AfterEvent(st.loop, st.queue[0]))
    case Fire => st.(loop := Debounce(st.loop.pending, Fired))
    case ScanStart => st.(loop := Debounce(st.loop.pending, Stopped), scanning := true, base := st.changes)
    case ScanEnd(Ok(entries)) =>
      st.(scanning := false, loop := Debounce(false, st.loop.timer), data := Some(entries), lastErr := None)
    case ScanEnd(Err(e)) => st.(scanning := false, loop := Debounce(false, st.loop.timer), lastErr := Some(e))
  }

  /** A schedule; steps that are not enabled when their turn comes do nothing. */
  function Exec(hash: Hash, st: State, steps: seq<Step>): State
  {
    if steps == [] then st
    else
      var before := Exec(hash, st, steps[..|steps| - 1]);
      var s := steps[|steps| - 1];
      if Enabled(hash, before, s) then Apply(before, s) else before
  }

  /** The state in which watch enters its loop: the initial rebuild succeeded and nothing has changed since. */
  predicate Start(hash: Hash, st: State)
  {
    && st.changes == st.base && st.queue == [] && st.loop == Debounce(false, Stopped) && !st.scanning
    && st.data == Some(IndexOf(hash, st.tree)) && st.lastErr == None
  }

  /** `pending` mirrors the timer, and a change after the last scan start is still queued or covered by `pending`. */
  predicate Covered(hash: Hash, st: State)
  {
    && (if st.scanning then st.loop == Debounce(true, Stopped) else st.loop.pending <==> st.loop.timer != Stopped)
    && st.base <= st.changes
    && (st.base < st.changes ==> HasRelevant(st.queue) || (!st.scanning && st.loop.pending))
    && (!st.scanning && st.base == st.changes && st.lastErr == None ==> st.data == Some(IndexOf(hash, st.tree)))
  }

  lemma RelevantAppend(a: seq<Event>, b: seq<Event>)
    ensures HasRelevant(a + b) <==> HasRelevant(a) || HasRelevant(b)
  {
    if i :| 0 <= i < |a| && Relevant(a[i]) { assert (a + b)[i] == a[i]; }
    if i :| 0 <= i < |b| && Relevant(b[i]) { assert (a + b)[|a| + i] == b[i]; }
    if i :| 0 <= i < |a + b| && Relevant((a + b)[i]) {
      assert if i < |a| then Relevant(a[i]) else Relevant(b[i - |a|]);
    }
  }

  lemma BitIsRelevant(queue: seq<Event>, kind: Kind)
    requires HasBit(queue, Bit(kind))
    ensures HasRelevant(queue)
  {
    var i :| 0 <= i < |queue| && Bit(kind) in queue[i];
    assert Bit(kind) in queue[i] * {Create, Write, Remove, Rename, Chmod};
    assert Relevant(queue[i]);
  }

  lemma RelevantHead(queue: seq<Event>)
    requires queue != [] && HasRelevant(queue) && !Relevant(queue[0])
    ensures HasRelevant(queue[1..])
  {
    assert queue == queue[..1] + queue[1..];
    RelevantAppend(queue[..1], queue[1..]);
  }

  lemma StepCovered(hash: Hash, st: State, s: Step)
    requires Covered(hash, st) && Enabled(hash, st, s)
    ensures Covered(hash, Apply(st, s))
  {
    match s {
      case Change(kind, _, events) =>
        RelevantAppend(st.queue, events);
        if HasBit(events, Bit(kind)) { BitIsRelevant(events, kind); }
        if HasBit(st.queue, Create) { BitIsRelevant(st.queue, Created); }
      case Noise(ev) => RelevantAppend(st.queue, [ev]);
      case Deliver =>
        if HasRelevant(st.queue) && !Relevant(st.queue[0]) { RelevantHead(st.queue); }
      case _ =>
    }
  }

  /** In every interleaving of changes, events, ticks and scans no change is lost. */
  lemma {:induction false} NoLostRebuild(hash: Hash, st: State, steps: seq<Step>)
    requires Start(hash, st)
    ensures Covered(hash, Exec(hash, st, steps))
  {
    if steps != [] {
      var before := Exec(hash, st, steps[..|steps| - 1]);
      var s := steps[|steps| - 1];
      NoLostRebuild(hash, st, steps[..|steps| - 1]);
      if Enabled(hash, before, s) {
        StepCovered(hash, before, s);
      }
    }
  }

  predicate Quiescent(st: State)
  {
    !st.scanning && !st.loop.pending && !HasRelevant(st.queue)
  }

  /** At rest the last scan started after the last change; if it succeeded the index is the scan of the tree. */
  lemma QuiescentIsFresh(hash: Hash, st: State, steps: seq<Step>)
    requires Start(hash, st)
    ensures var end := Exec(hash, st, steps);
            Quiescent(end) ==>
              end.base == end.changes && end.loop.timer == Stopped
              && (end.lastErr == None ==> end.data == Some(IndexOf(hash, end.tree)))
  {
    NoLostRebuild(hash, st, steps);
  }

  predicate Internal(s: Step)
  {
    s.Deliver? || s.Fire? || s.ScanStart? || s.ScanEnd?
  }

  /** Steps the loop can still take when the tree is left alone. */
  function Remaining(st: State): nat
  {
    var left :=
      if st.scanning then 1 else if st.loop.timer == Fired then 2 else if st.loop.timer == Armed then 3 else 0;
    4 * |st.queue| + left
  }

  /** Left alone, the loop comes to rest: each of its steps uses one up, and when none is left it is quiescent. */
  lemma SettlesQuiescent(hash: Hash, st: State)
    requires Covered(hash, st)
    ensures forall s :: Internal(s) && Enabled(hash, st, s) ==> Remaining(Apply(st, s)) < Remaining(st)
    ensures Remaining(st) == 0 ==> Quiescent(st)
    ensures Remaining(st) > 0 ==> exists s :: Internal(s) && Enabled(hash, st, s)
  {
    if Remaining(st) > 0 {
      var s := if st.scanning then ScanEnd(Ok(IndexOf(hash, st.tree)))
               else if st.queue != [] then Deliver
               else if st.loop.timer == Armed then Fire else ScanStart;
      assert Internal(s) && Enabled(hash, st, s);
    }
  }

  /** A failed rebuild clears `pending` too: the change it missed is then covered by nothing. */
  lemma FailedScanForgets(hash: Hash, st: State, tree: Forest, e: string)
    requires Start(hash, st) && IndexOf(hash, tree) != IndexOf(hash, st.tree)
    ensures var end := Exec(hash, st, [Change(Written, tree, [{Write}]), Deliver, Fire, ScanStart, ScanEnd(Err(e))]);
            Quiescent(end) && end.tree == tree && end.data == st.data && end.data != Some(IndexOf(hash, tree))
  {
    var s1, s2, s3, s4, s5 := Change(Written, tree, [{Write}]), Deliver, Fire, ScanStart, ScanEnd(Err(e));
    var steps := [s1, s2, s3, s4, s5];
    assert Relevant({Write}) by { assert Write in {Write} * {Create, Write, Remove, Rename, Chmod}; }
    var e0 := Exec(hash, st, []);
    assert Write in [{Write}][0];
    BitIsRelevant([{Write}], Written);
    var e1 := Exec(hash, st, [s1]);
    assert [s1][..0] == [];
    assert e1 == Apply(st, s1);
    assert [s1, s2][..1] == [s1];
    var e2 := Exec(hash, st, [s1, s2]);
    assert e2 == Apply(e1, s2);
    assert [s1, s2, s3][..2] == [s1, s2];
    var e3 := Exec(hash, st, [s1, s2, s3]);
    assert e3 == Apply(e2, s3);
    assert [s1, s2, s3, s4][..3] == [s1, s2, s3];
    var e4 := Exec(hash, st, [s1, s2, s3, s4]);
    assert e4 == Apply(e3, s4);
    assert steps[..4] == [s1, s2, s3, s4];
  }
}
