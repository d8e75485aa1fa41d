/** Whole runs of the lock manager: mutual exclusion inside one process and across restarts. */
module LockRuns {
  import opened Overlap
  import opened LockManager

  /** A successful TryAcquire that no matching Release has ended. */
  datatype Grant = Grant(path: string, owner: string, exp: int)

  datatype World = World(st: LockState, now: int, grants: map<nat, Grant>, next: nat)

  datatype Step =
    | Acquire(path: string, owner: string, ttl: int, env: Env)
    | Release(path: string, owner: string, stuck: set<string>)
    | Probe(path: string, env: Env)
    | Tick(d: nat)
    | Restart
    | Tamper(files: map<string, DirEntry>)

  function Ended(grants: map<nat, Grant>, path: string, owner: string): map<nat, Grant>
  {
    map id | id in grants && !(grants[id].path == path && (owner == "" || grants[id].owner == owner)) :: grants[id]
  }

  ghost predicate AcquireNext(codec: TimeCodec, w: World, path: string, owner: string, exp: int, env: Env, v: World,
                              r: Outcome)
  {
    && AcquireStep(codec, w.st, env, path, owner, exp, v.st, r)
    && (if r == Granted then v.grants == w.grants[w.next := Grant(path, owner, exp)] && v.next == w.next + 1
        else v.grants == w.grants && v.next == w.next)
  }

  ghost predicate Next(codec: TimeCodec, w: World, s: Step, v: World)
  {
    match s
    case Acquire(path0, owner, ttl, env) =>
      var path, exp := CleanPath(path0), w.now + ttl;
      env.now == w.now == v.now && exists r :: AcquireNext(codec, w, path, owner, exp, env, v, r)
    case Release(path0, owner, stuck) =>
      v == World(AfterRelease(w.st, CleanPath(path0), owner, stuck), w.now,
        Ended(w.grants, CleanPath(path0), owner), w.next)
    case Probe(path0, env) =>
      && env.now == w.now && v == World(v.st, w.now, w.grants, w.next)
      && exists locked, owner :: ProbeStep(codec, w.st, env, CleanPath(path0), v.st, locked, owner)
    case Tick(d) => v == w.(now := w.now + d)
    case Restart => v == w.(st := LockState(map[], w.st.files))
    case Tamper(files) => v == w.(st := LockState(w.st.mem, files))
  }

  ghost predicate Start(w: World)
  {
    w.st.mem == map[] && w.grants == map[]
  }

  /** Worlds ws[0], ws[1], ... joined by the steps. */
  ghost predicate Chain(codec: TimeCodec, ws: seq<World>, steps: seq<Step>)
  {
    |ws| == |steps| + 1 && forall i | 0 <= i < |steps| :: Next(codec, ws[i], steps[i], ws[i + 1])
  }

  ghost predicate Run(codec: TimeCodec, ws: seq<World>, steps: seq<Step>)
  {
    Chain(codec, ws, steps) && Start(ws[0])
  }

  predicate LiveGrant(w: World, id: nat)
  {
    id in w.grants && w.now <= w.grants[id].exp
  }

  ghost predicate MutuallyExclusive(w: World)
  {
    forall i, j :: LiveGrant(w, i) && LiveGrant(w, j) && i != j ==> !Overlaps(w.grants[i].path, w.grants[j].path)
  }

  /* ---------------------------------------------------------------- one process */

  predicate Fresh(w: World)
  {
    forall id :: id in w.grants ==> id < w.next
  }

  /** Memory holds every live grant. */
  ghost predicate Remembered(w: World)
  {
    forall id :: LiveGrant(w, id) ==>
      var g := w.grants[id];
      g.path in w.st.mem && w.st.mem[g.path] == Record(g.path, g.owner, g.exp)
  }

  ghost predicate Guarded(w: World)
  {
    Fresh(w) && Exclusive(w.st.mem) && Remembered(w) && MutuallyExclusive(w)
  }

  lemma PurgeKeepsExclusive(m0: map<string, Record>, m1: map<string, Record>, now: int)
    requires Exclusive(m0) && PurgedMem(m0, m1, now)
    ensures Exclusive(m1)
  {
  }

  lemma UnblockedMisses(codec: TimeCodec, w: World, path: string, readable: bool)
    requires Remembered(w) && !Blocked(codec, w.st, readable, path, w.now)
    ensures forall id :: LiveGrant(w, id) ==> !Overlaps(path, w.grants[id].path)
  {
    forall id | LiveGrant(w, id) ensures !Overlaps(path, w.grants[id].path) {
      var p := w.grants[id].path;
      assert p in w.st.mem && !RecordHolds(w.st.mem[p], path, w.now);
    }
  }

  lemma UnblockedExclusive(codec: TimeCodec, st: LockState, path: string, rec: Record, readable: bool, now: int)
    requires Exclusive(st.mem) && rec.path == path == CleanPath(path) && !Blocked(codec, st, readable, path, now)
    ensures Exclusive(LiveMem(st.mem, now)[path := rec])
  {
    var live := LiveMem(st.mem, now);
    forall p | p in live ensures !Overlaps(path, p) {
      assert !RecordHolds(st.mem[p], path, now);
    }
    StillExclusive(live, path, rec);
  }

  lemma GrantKeepsMutual(w: World, v: World, g: Grant)
    requires Fresh(w) && MutuallyExclusive(w) && v.now == w.now && v.grants == w.grants[w.next := g]
    requires forall id :: LiveGrant(w, id) ==> !Overlaps(g.path, w.grants[id].path)
    ensures MutuallyExclusive(v)
  {
    forall i, j | LiveGrant(v, i) && LiveGrant(v, j) && i != j
      ensures !Overlaps(v.grants[i].path, v.grants[j].path)
    {
      if i != w.next { assert LiveGrant(w, i); }
      if j != w.next { assert LiveGrant(w, j); }
      OverlapsReflexiveSymmetric(v.grants[i].path, v.grants[j].path);
    }
  }

  lemma AcquireGuarded(codec: TimeCodec, w: World, s: Step, v: World)
    requires Guarded(w) && s.Acquire? && Next(codec, w, s, v)
    ensures Guarded(v)
  {
    var path, exp := CleanPath(s.path), w.now + s.ttl;
    CleanPathIsClean(s.path);
    var r :| AcquireNext(codec, w, path, s.owner, exp, s.env, v, r);
    match r {
      case Locked(_) =>
        PurgeKeepsExclusive(w.st.mem, v.st.mem, w.now);
        SameGrantsRemembered(w, v);
      case Failed =>
        PurgeKeepsExclusive(w.st.mem, v.st.mem, w.now);
        SameGrantsRemembered(w, v);
      case Granted =>
        UnblockedMisses(codec, w, path, s.env.readable);
        OverlapsReflexiveSymmetric(path, path);
        UnblockedExclusive(codec, w.st, path, Record(path, s.owner, exp), s.env.readable, w.now);
        GrantKeepsMutual(w, v, Grant(path, s.owner, exp));
        forall id | LiveGrant(v, id)
          ensures v.grants[id].path in v.st.mem
          ensures v.st.mem[v.grants[id].path] == Record(v.grants[id].path, v.grants[id].owner, v.grants[id].exp)
        {
          if id != w.next {
            assert LiveGrant(w, id);
          }
        }
    }
  }

  lemma SameGrantsRemembered(w: World, v: World)
    requires Guarded(w) && Exclusive(v.st.mem) && PurgedMem(w.st.mem, v.st.mem, w.now)
    requires v.now == w.now && v.grants == w.grants && v.next == w.next
    ensures Guarded(v)
  {
    forall id | LiveGrant(v, id)
      ensures v.grants[id].path in v.st.mem
      ensures v.st.mem[v.grants[id].path] == Record(v.grants[id].path, v.grants[id].owner, v.grants[id].exp)
    {
      assert LiveGrant(w, id);
    }
    SubgrantsMutual(w, v);
  }

  lemma SubgrantsMutual(w: World, v: World)
    requires MutuallyExclusive(w) && w.now <= v.now
    requires forall id :: id in v.grants ==> id in w.grants && v.grants[id] == w.grants[id]
    ensures MutuallyExclusive(v)
  {
    forall i, j | LiveGrant(v, i) && LiveGrant(v, j) && i != j
      ensures !Overlaps(v.grants[i].path, v.grants[j].path)
    {
      assert LiveGrant(w, i) && LiveGrant(w, j);
    }
  }

  lemma ReleaseGuarded(codec: TimeCodec, w: World, s: Step, v: World)
    requires Guarded(w) && s.Release? && Next(codec, w, s, v)
    ensures Guarded(v)
  {
    forall id | LiveGrant(v, id)
      ensures v.grants[id].path in v.st.mem
      ensures v.st.mem[v.grants[id].path] == Record(v.grants[id].path, v.grants[id].owner, v.grants[id].exp)
    {
      assert LiveGrant(w, id);
    }
    SubgrantsMutual(w, v);
  }

  /** Every step but a restart keeps the process invariant, even when lock files are tampered with. */
  lemma StepGuarded(codec: TimeCodec, w: World, s: Step, v: World)
    requires Guarded(w) && Next(codec, w, s, v) && !s.Restart?
    ensures Guarded(v)
  {
    match s {
      case Acquire(_, _, _, _) => AcquireGuarded(codec, w, s, v);
      case Release(_, _, _) => ReleaseGuarded(codec, w, s, v);
      case Probe(_, _) =>
        PurgeKeepsExclusive(w.st.mem, v.st.mem, w.now);
        SameGrantsRemembered(w, v);
      case Tick(_) =>
        forall id | LiveGrant(v, id) ensures LiveGrant(w, id) {}
        SubgrantsMutual(w, v);
      case Tamper(_) =>
        forall id | LiveGrant(v, id) ensures LiveGrant(w, id) {}
        SubgrantsMutual(w, v);
    }
  }

  lemma GuardedAt(codec: TimeCodec, ws: seq<World>, steps: seq<Step>, k: nat)
    requires Chain(codec, ws, steps) && 0 < k < |ws| && !steps[k - 1].Restart? && Guarded(ws[k - 1])
    ensures Guarded(ws[k])
  {
    assert Next(codec, ws[k - 1], steps[k - 1], ws[k - 1 + 1]);
    StepGuarded(codec, ws[k - 1], steps[k - 1], ws[k]);
  }

  lemma StartGuarded(w: World)
    requires Start(w)
    ensures Guarded(w)
  {
  }

  /** In-process mutual exclusion over every run without a restart. */
  lemma {:induction false} InProcessExclusion(codec: TimeCodec, ws: seq<World>, steps: seq<Step>, k: nat)
    requires Run(codec, ws, steps) && k < |ws|
    requires forall i | 0 <= i < |steps| :: !steps[i].Restart?
    ensures Guarded(ws[k])
  {
    if k == 0 {
      StartGuarded(ws[0]);
    } else {
      InProcessExclusion(codec, ws, steps, k - 1);
      GuardedAt(codec, ws, steps, k);
    }
  }
}
