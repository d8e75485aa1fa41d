/** Mutual exclusion when the process restarts and only the lock files survive. */
module LockRestarts {
  import opened Paths
  import opened Overlap
  import opened LockManager
  import opened LockFiles
  import opened LockRuns

  /** The lock file of a live grant says what the grant says. */
  predicate OnDisk(codec: TimeCodec, files: map<string, DirEntry>, g: Grant)
  {
    var name := LockName(g.path);
    name in files && files[name].File? && ReadsBack(codec, files[name], g.exp, g.path)
  }

  ghost predicate Durable(codec: TimeCodec, w: World)
  {
    forall id :: LiveGrant(w, id) ==> OnDisk(codec, w.st.files, w.grants[id])
  }

  predicate CleanGrants(w: World)
  {
    forall id :: id in w.grants ==> CleanPath(w.grants[id].path) == w.grants[id].path
  }

  predicate SharesFile(w: World, id: nat, path: string)
  {
    LiveGrant(w, id) && LockName(w.grants[id].path) == LockName(path)
  }

  predicate EndedBy(g: Grant, path: string, owner: string)
  {
    g.path == path && (owner == "" || g.owner == owner)
  }

  /** What a caller must respect for locks to outlive a restart. */
  ghost predicate SafeStep(w: World, s: Step)
  {
    match s
    case Acquire(path, owner, ttl, env) =>
      && env.readable && 0 <= ttl && FileSafe(owner, CleanPath(path))
      && forall id :: SharesFile(w, id, CleanPath(path)) ==> w.grants[id].path == CleanPath(path)
    case Release(path, owner, _) =>
      forall id :: SharesFile(w, id, CleanPath(path)) ==> EndedBy(w.grants[id], CleanPath(path), owner)
    case Tamper(_) => false
    case _ => true
  }

  lemma LockNameSuffix(path: string, e: DirEntry)
    requires e.File?
    ensures IsLockFile(LockName(path), e)
  {
  }

  /** A grant on disk blocks every overlapping path, whatever the memory holds. */
  lemma OnDiskBlocks(codec: TimeCodec, st: LockState, g: Grant, q: string, now: int)
    requires OnDisk(codec, st.files, g) && now <= g.exp && Overlaps(q, g.path)
    ensures Blocked(codec, st, true, q, now)
  {
    var name := LockName(g.path);
    LockNameSuffix(g.path, st.files[name]);
    assert FileHolds(codec, name, st.files[name], q, now);
  }

  lemma DurableUnblocked(codec: TimeCodec, w: World, path: string)
    requires Durable(codec, w) && !Blocked(codec, w.st, true, path, w.now)
    ensures forall id :: LiveGrant(w, id) ==> !Overlaps(path, w.grants[id].path)
  {
    forall id | LiveGrant(w, id) && Overlaps(path, w.grants[id].path) ensures false {
      OnDiskBlocks(codec, w.st, w.grants[id], path, w.now);
    }
  }

  lemma SweepKeepsOnDisk(codec: TimeCodec, f0: map<string, DirEntry>, f1: map<string, DirEntry>, g: Grant, now: int)
    requires OnDisk(codec, f0, g) && now <= g.exp && PurgedFiles(codec, f0, f1, now)
    ensures OnDisk(codec, f1, g)
  {
  }

  /** A successful acquire keeps every live lock recoverable exactly when its own file is readable
      back and no other live grant uses that file name. */
  lemma AcquireDurableExactly(codec: TimeCodec, w: World, path: string, owner: string, exp: int, env: Env, v: World)
    requires GoodCodec(codec) && Fresh(w) && Durable(codec, w) && CleanGrants(w)
    requires CleanPath(path) == path && env.readable && env.now == w.now == v.now && w.now <= exp
    requires AcquireNext(codec, w, path, owner, exp, env, v, Granted)
    ensures Durable(codec, v) <==> FileSafe(owner, path) && forall id :: !SharesFile(w, id, path)
  {
    var g := Grant(path, owner, exp);
    var name := LockName(path);
    assert v.st.files[name] == File(LockText(codec, owner, exp, path));
    assert LiveGrant(v, w.next) && v.grants[w.next] == g;
    ReadsBackExactly(codec, owner, exp, path);
    assert OnDisk(codec, v.st.files, g) <==> FileSafe(owner, path);
    DurableUnblocked(codec, w, path);
    OverlapsReflexiveSymmetric(path, path);
    forall id | LiveGrant(w, id)
      ensures LiveGrant(v, id) && v.grants[id] == w.grants[id]
      ensures OnDisk(codec, v.st.files, v.grants[id]) <==> !SharesFile(w, id, path)
    {
      AcquireOverwrites(codec, w.st.files, v.st.files, env, w.grants[id], g);
    }
    if Durable(codec, v) {
      forall id ensures !SharesFile(w, id, path) {
        assert LiveGrant(w, id) ==> LiveGrant(v, id);
      }
    } else {
      var id :| LiveGrant(v, id) && !OnDisk(codec, v.st.files, v.grants[id]);
      if id != w.next {
        assert LiveGrant(w, id);
      }
    }
  }

  lemma AcquireOverwrites(codec: TimeCodec, f0: map<string, DirEntry>, f1: map<string, DirEntry>, env: Env, g: Grant,
                          mine: Grant)
    requires GoodCodec(codec) && OnDisk(codec, f0, g) && env.readable && env.now <= g.exp
    requires CleanPath(mine.path) == mine.path && CleanPath(g.path) == g.path && g.path != mine.path
    requires f1 == SweptFiles(codec, f0, env)
                   [LockName(mine.path) := File(LockText(codec, mine.owner, mine.exp, mine.path))]
    ensures OnDisk(codec, f1, g) <==> LockName(g.path) != LockName(mine.path)
  {
    SweepKeepsOnDisk(codec, f0, SweptFiles(codec, f0, env), g, env.now);
    if LockName(g.path) == LockName(mine.path) {
      CleanPathIsClean(g.path);
      CleanPathIsClean(mine.path);
      ForeignFile(codec, mine, g);
    }
  }

  /** Two paths that share a file name never read back as each other. */
  lemma ForeignFile(codec: TimeCodec, mine: Grant, g: Grant)
    requires GoodCodec(codec) && CleanPath(mine.path) == mine.path == Clean(mine.path) && Clean(g.path) == g.path
    requires g.path != mine.path
    requires LockName(g.path) == LockName(mine.path)
    ensures !ReadsBack(codec, File(LockText(codec, mine.owner, mine.exp, mine.path)), g.exp, g.path)
  {
    if ReadsBack(codec, File(LockText(codec, mine.owner, mine.exp, mine.path)), g.exp, g.path) {
      ReadsBackShorter(codec, mine.owner, mine.exp, mine.path, g.exp, g.path);
      CollisionExact(g.path, mine.path);
    }
  }

  /** A release keeps every live lock recoverable exactly when no surviving grant uses the file it removes. */
  lemma ReleaseDurableExactly(codec: TimeCodec, w: World, path: string, owner: string, stuck: set<string>, v: World)
    requires Durable(codec, w) && LockName(path) !in stuck
    requires v == World(AfterRelease(w.st, path, owner, stuck), w.now, Ended(w.grants, path, owner), w.next)
    ensures Durable(codec, v) <==> forall id :: SharesFile(w, id, path) ==> EndedBy(w.grants[id], path, owner)
  {
    forall id | LiveGrant(w, id) && !EndedBy(w.grants[id], path, owner)
      ensures LiveGrant(v, id) && (OnDisk(codec, v.st.files, v.grants[id]) <==> !SharesFile(w, id, path))
    {
    }
    forall id | LiveGrant(v, id) ensures LiveGrant(w, id) && !EndedBy(w.grants[id], path, owner) {
    }
  }

  ghost predicate Recoverable(codec: TimeCodec, w: World)
  {
    Fresh(w) && CleanGrants(w) && Durable(codec, w) && MutuallyExclusive(w)
  }

  lemma AcquireRecoverable(codec: TimeCodec, w: World, s: Step, v: World)
    requires GoodCodec(codec) && Recoverable(codec, w) && s.Acquire? && SafeStep(w, s) && Next(codec, w, s, v)
    ensures Recoverable(codec, v)
  {
    var path, exp := CleanPath(s.path), w.now + s.ttl;
    CleanPathIsClean(s.path);
    var r :| AcquireNext(codec, w, path, s.owner, exp, s.env, v, r);
    match r {
      case Locked(_) =>
        SubgrantsMutual(w, v);
        SameGrantsDurable(codec, w, v);
      case Failed =>
        DurableUnblocked(codec, w, path);
        OverlapsReflexiveSymmetric(path, path);
        SubgrantsMutual(w, v);
        FailedWriteDurable(codec, w, path, s.env, v);
      case Granted =>
        DurableUnblocked(codec, w, path);
        OverlapsReflexiveSymmetric(path, path);
        AcquireDurableExactly(codec, w, path, s.owner, exp, s.env, v);
        GrantKeepsMutual(w, v, Grant(path, s.owner, exp));
    }
  }

  lemma SameGrantsDurable(codec: TimeCodec, w: World, v: World)
    requires Durable(codec, w) && v.grants == w.grants && v.now == w.now
    requires PurgedFiles(codec, w.st.files, v.st.files, w.now)
    ensures Durable(codec, v)
  {
    forall id | LiveGrant(v, id) ensures OnDisk(codec, v.st.files, v.grants[id]) {
      assert LiveGrant(w, id);
      SweepKeepsOnDisk(codec, w.st.files, v.st.files, w.grants[id], w.now);
    }
  }

  lemma FailedWriteDurable(codec: TimeCodec, w: World, path: string, env: Env, v: World)
    requires Durable(codec, w) && v.grants == w.grants && v.now == w.now == env.now && env.readable
    requires forall id :: !SharesFile(w, id, path)
    requires v.st.files == AfterWriteError(SweptFiles(codec, w.st.files, env), LockName(path), env)
    ensures Durable(codec, v)
  {
    forall id | LiveGrant(v, id) ensures OnDisk(codec, v.st.files, v.grants[id]) {
      assert LiveGrant(w, id) && !SharesFile(w, id, path);
      SweepKeepsOnDisk(codec, w.st.files, SweptFiles(codec, w.st.files, env), w.grants[id], w.now);
    }
  }

  lemma StepRecoverable(codec: TimeCodec, w: World, s: Step, v: World)
    requires GoodCodec(codec) && Recoverable(codec, w) && SafeStep(w, s) && Next(codec, w, s, v)
    ensures Recoverable(codec, v)
  {
    match s {
      case Acquire(_, _, _, _) => AcquireRecoverable(codec, w, s, v);
      case Release(path, owner, stuck) =>
        SubgrantsMutual(w, v);
        if LockName(CleanPath(path)) in stuck {
          forall id | LiveGrant(v, id) ensures OnDisk(codec, v.st.files, v.grants[id]) {
            assert LiveGrant(w, id);
          }
        } else {
          ReleaseDurableExactly(codec, w, CleanPath(path), owner, stuck, v);
        }
      case Probe(_, _) =>
        SubgrantsMutual(w, v);
        SameGrantsDurable(codec, w, v);
      case Tick(_) =>
        SubgrantsMutual(w, v);
        forall id | LiveGrant(v, id) ensures OnDisk(codec, v.st.files, v.grants[id]) {
          assert LiveGrant(w, id);
        }
      case Restart =>
        SubgrantsMutual(w, v);
        SameGrantsDurable(codec, w, v);
    }
  }

  /** Mutual exclusion over every run of safe steps, restarts included, and every live lock still
      blocks all overlapping paths in a process that has just restarted. */
  lemma {:induction false} RestartExclusion(codec: TimeCodec, ws: seq<World>, steps: seq<Step>, k: nat)
    requires GoodCodec(codec) && Run(codec, ws, steps) && k < |ws|
    requires forall i | 0 <= i < |steps| :: SafeStep(ws[i], steps[i])
    ensures Recoverable(codec, ws[k])
    ensures forall id, q :: LiveGrant(ws[k], id) && Overlaps(q, ws[k].grants[id].path) ==>
              Blocked(codec, LockState(map[], ws[k].st.files), true, q, ws[k].now)
  {
    if k > 0 {
      RestartExclusion(codec, ws, steps, k - 1);
      assert SafeStep(ws[k - 1], steps[k - 1]) && Next(codec, ws[k - 1], steps[k - 1], ws[k]);
      StepRecoverable(codec, ws[k - 1], steps[k - 1], ws[k]);
    }
    forall id, q | LiveGrant(ws[k], id) && Overlaps(q, ws[k].grants[id].path)
      ensures Blocked(codec, LockState(map[], ws[k].st.files), true, q, ws[k].now)
    {
      OnDiskBlocks(codec, LockState(map[], ws[k].st.files), ws[k].grants[id], q, ws[k].now);
    }
  }

  /* ------------------------------------------------- the hypotheses cannot be dropped */

  const QUIET: Env := Env(0, true, {}, WriteOk)

  function Empty(): World
  {
    World(LockState(map[], map[]), 0, map[], 0)
  }

  function Restarted(w: World): World
  {
    w.(st := LockState(map[], w.st.files))
  }

  function Granting(codec: TimeCodec, w: World, p: string, x: string): World
  {
    World(LockState(LiveMem(w.st.mem, 0)[p := Record(p, x, 1)],
                    SweptFiles(codec, w.st.files, QUIET)[LockName(p) := File(LockText(codec, x, 1, p))]),
          0, w.grants[w.next := Grant(p, x, 1)], w.next + 1)
  }

  lemma GrantingStep(codec: TimeCodec, w: World, p: string, x: string)
    requires w.now == 0 && CleanPath(p) == p && !Blocked(codec, w.st, true, p, 0)
    requires forall n :: n in w.st.files ==> w.st.files[n].File?
    ensures Next(codec, w, Acquire(p, x, 1, QUIET), Granting(codec, w, p, x))
  {
    assert AcquireNext(codec, w, p, x, 1, QUIET, Granting(codec, w, p, x), Granted);
  }

  /** A release by somebody else removes the file: after a restart the path is granted twice. */
  lemma WrongOwnerBreaks(codec: TimeCodec, p: string, x: string, y: string, z: string)
      returns (w1: World, w2: World, w3: World, w4: World)
    requires CleanPath(p) == p && x != y && y != ""
    ensures Start(Empty()) && !MutuallyExclusive(w4)
    ensures Next(codec, Empty(), Acquire(p, x, 1, QUIET), w1) && Next(codec, w1, Release(p, y, {}), w2)
    ensures Next(codec, w2, Restart, w3) && Next(codec, w3, Acquire(p, z, 1, QUIET), w4)
  {
    w1 := Granting(codec, Empty(), p, x);
    FirstGrant(codec, p, x);
    w2 := World(AfterRelease(w1.st, p, y, {}), 0, w1.grants, w1.next);
    assert Ended(w1.grants, p, y) == w1.grants;
    assert w2.st.files == map[];
    w3 := Restarted(w2);
    GrantingStep(codec, w3, p, z);
    w4 := Granting(codec, w3, p, z);
    TwiceGranted(w4, 0, 1);
  }

  lemma TwiceGranted(w: World, i: nat, j: nat)
    requires LiveGrant(w, i) && LiveGrant(w, j) && i != j && w.grants[i].path == w.grants[j].path
    ensures !MutuallyExclusive(w)
  {
    OverlapsReflexiveSymmetric(w.grants[i].path, w.grants[i].path);
  }

  lemma OwnFile(codec: TimeCodec, name: string, owner: string, mine: string, other: string)
    requires GoodCodec(codec) && CleanPath(mine) == mine && FileSafe(owner, mine) && !Overlaps(other, mine)
    ensures !FileHolds(codec, name, File(LockText(codec, owner, 1, mine)), other, 0)
    ensures !Dead(codec, name, File(LockText(codec, owner, 1, mine)), 0)
  {
    ReadsBackExactly(codec, owner, 1, mine);
  }

  lemma SweptSingle(codec: TimeCodec, name: string, e: DirEntry)
    requires !Dead(codec, name, e, 0)
    ensures SweptFiles(codec, map[name := e], QUIET) == map[name := e]
  {
  }

  lemma NotBlocked(codec: TimeCodec, w: World, e: DirEntry, p: string)
    requires w.st.files == map[LockName(p) := e] && !FileHolds(codec, LockName(p), e, p, 0)
    requires forall q :: q in w.st.mem ==> !Overlaps(p, w.st.mem[q].path)
    ensures !Blocked(codec, w.st, true, p, 0)
  {
  }

  lemma Takeable(codec: TimeCodec, w: World, e: DirEntry, p: string, x: string)
    requires w.now == 0 && e.File? && w.st.files == map[LockName(p) := e]
    requires !Dead(codec, LockName(p), e, 0) && !FileHolds(codec, LockName(p), e, p, 0)
    requires forall q :: q in w.st.mem ==> !Overlaps(p, w.st.mem[q].path)
    ensures !Blocked(codec, w.st, true, p, 0)
    ensures Granting(codec, w, p, x).st.files == map[LockName(p) := File(LockText(codec, x, 1, p))]
  {
    SweptSingle(codec, LockName(p), e);
    NotBlocked(codec, w, e, p);
  }

  lemma FirstGrant(codec: TimeCodec, p: string, x: string)
    requires CleanPath(p) == p
    ensures Next(codec, Empty(), Acquire(p, x, 1, QUIET), Granting(codec, Empty(), p, x))
    ensures Granting(codec, Empty(), p, x)
         == World(LockState(map[p := Record(p, x, 1)], map[LockName(p) := File(LockText(codec, x, 1, p))]),
                  0, map[0 := Grant(p, x, 1)], 1)
  {
    GrantingStep(codec, Empty(), p, x);
    assert SweptFiles(codec, map[], QUIET) == map[] && LiveMem(map[], 0) == map[];
  }

  lemma Overwritten(codec: TimeCodec, p: string, q: string, x: string) returns (w1: World, w2: World)
    requires GoodCodec(codec) && CleanPath(p) == p && CleanPath(q) == q && !Overlaps(q, p)
    requires LockName(p) == LockName(q) && FileSafe(x, p)
    ensures Next(codec, Empty(), Acquire(p, x, 1, QUIET), w1) && Next(codec, w1, Acquire(q, x, 1, QUIET), w2)
    ensures w2.st.files == map[LockName(p) := File(LockText(codec, x, 1, q))]
    ensures w2.now == 0 && w2.next == 2 && w2.grants == map[0 := Grant(p, x, 1), 1 := Grant(q, x, 1)]
  {
    w1 := Granting(codec, Empty(), p, x);
    FirstGrant(codec, p, x);
    OwnFile(codec, LockName(p), x, p, q);
    Takeable(codec, w1, File(LockText(codec, x, 1, p)), q, x);
    GrantingStep(codec, w1, q, x);
    w2 := Granting(codec, w1, q, x);
  }

  /** Two paths that share a lock file overwrite each other's: after a restart the first is granted twice. */
  lemma CollisionBreaks(codec: TimeCodec, p: string, q: string, x: string)
      returns (w1: World, w2: World, w3: World, w4: World)
    requires GoodCodec(codec) && CleanPath(p) == p && CleanPath(q) == q && !Overlaps(q, p) && !Overlaps(p, q)
    requires LockName(p) == LockName(q) && FileSafe(x, p) && FileSafe(x, q)
    ensures Start(Empty()) && !MutuallyExclusive(w4)
    ensures Next(codec, Empty(), Acquire(p, x, 1, QUIET), w1) && Next(codec, w1, Acquire(q, x, 1, QUIET), w2)
    ensures Next(codec, w2, Restart, w3) && Next(codec, w3, Acquire(p, x, 1, QUIET), w4)
  {
    w1, w2 := Overwritten(codec, p, q, x);
    w3 := Restarted(w2);
    OwnFile(codec, LockName(p), x, q, p);
    Takeable(codec, w3, File(LockText(codec, x, 1, q)), p, x);
    GrantingStep(codec, w3, p, x);
    w4 := Granting(codec, w3, p, x);
    TwiceGranted(w4, 0, 2);
  }
}
