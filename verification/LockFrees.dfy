/** Locks come free: what is blocked is held, and releasing it or letting it expire unblocks it. */
module LockFrees {
  import opened Options
  import opened Text
  import opened Overlap
  import opened LockManager
  import opened LockFiles
  import opened LockRuns
  import opened LockRestarts

  /** After a release by its owner, or by nobody in particular, memory has nothing on the path. */
  lemma ReleaseFrees(s: LockState, path: string, owner: string, stuck: set<string>)
    requires Exclusive(s.mem) && path in s.mem && (owner == "" || s.mem[path].owner == owner)
    ensures forall p :: p in AfterRelease(s, path, owner, stuck).mem ==>
              !Overlaps(path, AfterRelease(s, path, owner, stuck).mem[p].path)
    ensures forall p :: p in s.mem && p != path ==>
              p in AfterRelease(s, path, owner, stuck).mem && AfterRelease(s, path, owner, stuck).mem[p] == s.mem[p]
  {
  }

  /** A release by another owner leaves memory as it was. */
  lemma ReleaseByOther(s: LockState, path: string, owner: string, stuck: set<string>)
    requires path in s.mem && owner != "" && s.mem[path].owner != owner
    ensures AfterRelease(s, path, owner, stuck).mem == s.mem
  {
  }

  predicate LiveFile(codec: TimeCodec, e: DirEntry, now: int)
  {
    ParseLock(codec, e).Parsed? && now <= ParseLock(codec, e).expiresAt
  }

  /** A successful acquire leaves no expired record and no malformed or expired lock file that can
      be removed, and it keeps everything else. */
  lemma AcquireSweeps(codec: TimeCodec, s0: LockState, env: Env, path: string, owner: string, exp: int, s1: LockState)
    requires AcquireStep(codec, s0, env, path, owner, exp, s1, Granted)
    ensures forall p :: p in s1.mem && p != path ==> env.now <= s1.mem[p].expiresAt
    ensures forall p | p in s0.mem && p != path && env.now <= s0.mem[p].expiresAt ::
              p in s1.mem && s1.mem[p] == s0.mem[p]
    ensures forall n | n in s1.files && n != LockName(path) && IsLockFile(n, s1.files[n]) ::
              LiveFile(codec, s1.files[n], env.now) || n in env.stuck || !env.readable
    ensures forall n | n in s0.files && n != LockName(path) ::
              (IsLockFile(n, s0.files[n]) ==> LiveFile(codec, s0.files[n], env.now)) ==>
                n in s1.files && s1.files[n] == s0.files[n]
  {
  }

  /* ------------------------------------------------------------ memory, over every run */

  predicate Backs(w: World, id: nat, rec: Record)
  {
    LiveGrant(w, id) && w.grants[id] == Grant(rec.path, rec.owner, rec.expiresAt)
  }

  /** Memory holds nothing but live grants. */
  ghost predicate MemBacked(w: World)
  {
    forall p :: p in w.st.mem && w.now <= w.st.mem[p].expiresAt ==> exists id :: Backs(w, id, w.st.mem[p])
  }

  /** Grants stay unless the step releases them, and time does not run back. */
  ghost predicate GrantsKept(w: World, s: Step, v: World)
  {
    && w.now <= v.now
    && forall id :: id in w.grants && !(s.Release? && EndedBy(w.grants[id], CleanPath(s.path), s.owner)) ==>
         id in v.grants && v.grants[id] == w.grants[id]
  }

  lemma StepGrants(codec: TimeCodec, w: World, s: Step, v: World)
    requires Fresh(w) && Next(codec, w, s, v)
    ensures Fresh(v) && GrantsKept(w, s, v) && (v.now == w.now || s.Tick?)
  {
    if s.Acquire? {
      var r :| AcquireNext(codec, w, CleanPath(s.path), s.owner, w.now + s.ttl, s.env, v, r);
    }
  }

  predicate NewGrant(w: World, s: Step, v: World)
  {
    && s.Acquire? && v.next == w.next + 1 && w.next in v.grants
    && v.grants[w.next] == Grant(CleanPath(s.path), s.owner, w.now + s.ttl)
  }

  predicate RecordKept(w: World, s: Step, v: World, p: string)
    requires p in v.st.mem
  {
    && p in w.st.mem && v.st.mem[p] == w.st.mem[p]
    && !(s.Release? && p == CleanPath(s.path) && (s.owner == "" || w.st.mem[p].owner == s.owner))
  }

  predicate RecordNew(w: World, s: Step, v: World, p: string)
    requires p in v.st.mem
  {
    NewGrant(w, s, v) && p == CleanPath(s.path) && v.st.mem[p] == Record(CleanPath(s.path), s.owner, w.now + s.ttl)
  }

  lemma MemStep(codec: TimeCodec, w: World, s: Step, v: World, p: string)
    requires Next(codec, w, s, v) && p in v.st.mem
    ensures RecordKept(w, s, v, p) || RecordNew(w, s, v, p)
  {
    if s.Acquire? {
      var r :| AcquireNext(codec, w, CleanPath(s.path), s.owner, w.now + s.ttl, s.env, v, r);
      MemAcquired(codec, w, s, v, r, p);
    } else {
      MemOtherwise(codec, w, s, v, p);
    }
  }

  lemma MemAcquired(codec: TimeCodec, w: World, s: Step, v: World, r: Outcome, p: string)
    requires s.Acquire? && AcquireNext(codec, w, CleanPath(s.path), s.owner, w.now + s.ttl, s.env, v, r)
    requires p in v.st.mem
    ensures RecordKept(w, s, v, p) || RecordNew(w, s, v, p)
  {
    OutcomeExactly(codec, w, s, v, r);
  }

  lemma MemOtherwise(codec: TimeCodec, w: World, s: Step, v: World, p: string)
    requires !s.Acquire? && Next(codec, w, s, v) && p in v.st.mem
    ensures RecordKept(w, s, v, p)
  {
  }

  ghost predicate OwnPaths(w: World)
  {
    forall p :: p in w.st.mem ==> w.st.mem[p].path == p
  }

  lemma RecordBacked(w: World, s: Step, v: World, p: string)
    requires OwnPaths(w) && MemBacked(w) && GrantsKept(w, s, v)
    requires p in v.st.mem && v.now <= v.st.mem[p].expiresAt && RecordKept(w, s, v, p)
    ensures exists id :: Backs(v, id, v.st.mem[p])
  {
    var id :| Backs(w, id, w.st.mem[p]);
    assert Backs(v, id, v.st.mem[p]);
  }

  lemma StepMemBacked(codec: TimeCodec, w: World, s: Step, v: World)
    requires Fresh(w) && OwnPaths(w) && MemBacked(w) && Next(codec, w, s, v)
    ensures Fresh(v) && OwnPaths(v) && MemBacked(v)
  {
    StepGrants(codec, w, s, v);
    forall p | p in v.st.mem
      ensures v.st.mem[p].path == p
      ensures v.now <= v.st.mem[p].expiresAt ==> exists id :: Backs(v, id, v.st.mem[p])
    {
      MemStep(codec, w, s, v, p);
      if v.now <= v.st.mem[p].expiresAt {
        if RecordKept(w, s, v, p) {
          RecordBacked(w, s, v, p);
        } else {
          assert Backs(v, w.next, v.st.mem[p]);
        }
      }
    }
  }

  lemma StartBacked(w: World)
    requires Start(w)
    ensures Fresh(w) && OwnPaths(w) && MemBacked(w)
  {
  }

  lemma MemBackedAt(codec: TimeCodec, ws: seq<World>, steps: seq<Step>, k: nat)
    requires Chain(codec, ws, steps) && 0 < k < |ws|
    requires Fresh(ws[k - 1]) && OwnPaths(ws[k - 1]) && MemBacked(ws[k - 1])
    ensures Fresh(ws[k]) && OwnPaths(ws[k]) && MemBacked(ws[k])
  {
    assert Next(codec, ws[k - 1], steps[k - 1], ws[k - 1 + 1]);
    StepMemBacked(codec, ws[k - 1], steps[k - 1], ws[k]);
  }

  /** Over every run, restarts and tampered files included, every live record belongs to a live grant. */
  lemma {:induction false} NothingLingers(codec: TimeCodec, ws: seq<World>, steps: seq<Step>, k: nat)
    requires Run(codec, ws, steps) && k < |ws|
    ensures Fresh(ws[k]) && OwnPaths(ws[k]) && MemBacked(ws[k])
  {
    if k == 0 {
      StartBacked(ws[0]);
    } else {
      NothingLingers(codec, ws, steps, k - 1);
      MemBackedAt(codec, ws, steps, k);
    }
  }

  /* ------------------------------------------------------------- files, over safe runs */

  predicate FileBacks(w: World, id: nat, name: string, lock: Parsed)
  {
    && LiveGrant(w, id) && lock.Parsed?
    && var g := w.grants[id];
       g.path == lock.path && g.exp == lock.expiresAt && TrimLeft(g.owner) == lock.owner && LockName(g.path) == name
  }

  /** The lock directory holds nothing but live grants, each under its own name. */
  ghost predicate FilesBacked(codec: TimeCodec, w: World)
  {
    forall n :: n in w.st.files && IsLockFile(n, w.st.files[n]) && LiveFile(codec, w.st.files[n], w.now) ==>
      exists id :: FileBacks(w, id, n, ParseLock(codec, w.st.files[n]))
  }

  /** Beyond SafeStep: released files can be removed, and a failed write leaves no file. */
  predicate TidyStep(s: Step)
  {
    match s
    case Acquire(_, _, _, env) => env.write.WriteOk? || env.write.left == None
    case Release(path, _, stuck) => LockName(CleanPath(path)) !in stuck
    case _ => true
  }

  predicate FileKept(w: World, s: Step, v: World, n: string)
    requires n in v.st.files
  {
    n in w.st.files && v.st.files[n] == w.st.files[n] && !(s.Release? && n == LockName(CleanPath(s.path)))
  }

  predicate FileNew(codec: TimeCodec, w: World, s: Step, v: World, n: string)
    requires n in v.st.files
  {
    && NewGrant(w, s, v) && n == LockName(CleanPath(s.path)) && FileSafe(s.owner, CleanPath(s.path))
    && v.st.files[n] == File(LockText(codec, s.owner, w.now + s.ttl, CleanPath(s.path)))
  }

  lemma FileStep(codec: TimeCodec, w: World, s: Step, v: World, n: string)
    requires SafeStep(w, s) && TidyStep(s) && Next(codec, w, s, v) && n in v.st.files
    ensures FileKept(w, s, v, n) || FileNew(codec, w, s, v, n)
  {
    if s.Acquire? {
      var r :| AcquireNext(codec, w, CleanPath(s.path), s.owner, w.now + s.ttl, s.env, v, r);
      FileAcquired(codec, w, s, v, r, n);
    } else {
      FileOtherwise(codec, w, s, v, n);
    }
  }

  lemma FileOtherwise(codec: TimeCodec, w: World, s: Step, v: World, n: string)
    requires SafeStep(w, s) && TidyStep(s) && !s.Acquire? && Next(codec, w, s, v) && n in v.st.files
    ensures FileKept(w, s, v, n)
  {
  }

  lemma FileAcquired(codec: TimeCodec, w: World, s: Step, v: World, r: Outcome, n: string)
    requires s.Acquire? && AcquireNext(codec, w, CleanPath(s.path), s.owner, w.now + s.ttl, s.env, v, r)
    requires n in v.st.files && FileSafe(s.owner, CleanPath(s.path)) && TidyStep(s)
    ensures FileKept(w, s, v, n) || FileNew(codec, w, s, v, n)
  {
    match r {
      case Locked(_) =>
      case Failed =>
      case Granted => OutcomeExactly(codec, w, s, v, r);
    }
  }

  lemma StepFilesBacked(codec: TimeCodec, w: World, s: Step, v: World)
    requires GoodCodec(codec) && Fresh(w) && FilesBacked(codec, w) && SafeStep(w, s) && TidyStep(s)
    requires Next(codec, w, s, v)
    ensures FilesBacked(codec, v)
  {
    StepGrants(codec, w, s, v);
    forall n | n in v.st.files && IsLockFile(n, v.st.files[n]) && LiveFile(codec, v.st.files[n], v.now)
      ensures exists id :: FileBacks(v, id, n, ParseLock(codec, v.st.files[n]))
    {
      FileStep(codec, w, s, v, n);
      if FileKept(w, s, v, n) {
        OldFileBacked(codec, w, s, v, n);
      } else {
        NewFileBacked(codec, w, s, v, n);
      }
    }
  }

  lemma NewFileBacked(codec: TimeCodec, w: World, s: Step, v: World, n: string)
    requires GoodCodec(codec) && n in v.st.files && FileNew(codec, w, s, v, n)
    requires LiveFile(codec, v.st.files[n], v.now)
    ensures exists id :: FileBacks(v, id, n, ParseLock(codec, v.st.files[n]))
  {
    NewGrantBacks(codec, w, s, v, v.st.files[n]);
  }

  lemma NewGrantBacks(codec: TimeCodec, w: World, s: Step, v: World, e: DirEntry)
    requires GoodCodec(codec) && NewGrant(w, s, v) && FileSafe(s.owner, CleanPath(s.path))
    requires e == File(LockText(codec, s.owner, w.now + s.ttl, CleanPath(s.path))) && LiveFile(codec, e, v.now)
    ensures exists id :: FileBacks(v, id, LockName(CleanPath(s.path)), ParseLock(codec, e))
  {
    var path, exp := CleanPath(s.path), w.now + s.ttl;
    CleanPathIsClean(s.path);
    OwnerReadsBack(codec, s.owner, exp, path);
    var lock := ParseLock(codec, e);
    assert lock == Parsed(TrimLeft(s.owner), exp, path);
    assert FileBacks(v, w.next, LockName(path), lock);
  }

  lemma OldFileBacked(codec: TimeCodec, w: World, s: Step, v: World, n: string)
    requires FilesBacked(codec, w) && GrantsKept(w, s, v)
    requires n in v.st.files && FileKept(w, s, v, n)
    requires IsLockFile(n, v.st.files[n]) && LiveFile(codec, v.st.files[n], v.now)
    ensures exists id :: FileBacks(v, id, n, ParseLock(codec, v.st.files[n]))
  {
    var lock := ParseLock(codec, w.st.files[n]);
    var id :| FileBacks(w, id, n, lock);
    assert FileBacks(v, id, n, lock);
  }

  ghost predicate Exact(codec: TimeCodec, w: World)
  {
    Recoverable(codec, w) && OwnPaths(w) && MemBacked(w) && FilesBacked(codec, w)
  }

  ghost predicate SomeoneHolds(w: World, path: string)
  {
    exists id :: LiveGrant(w, id) && Overlaps(path, w.grants[id].path)
  }

  /** A path is blocked exactly when a live grant overlaps it. */
  lemma BlockedExactly(codec: TimeCodec, w: World, path: string)
    requires Exact(codec, w)
    ensures Blocked(codec, w.st, true, path, w.now) <==> SomeoneHolds(w, path)
  {
    if SomeoneHolds(w, path) {
      var id :| LiveGrant(w, id) && Overlaps(path, w.grants[id].path);
      OnDiskBlocks(codec, w.st, w.grants[id], path, w.now);
    }
    if p :| p in w.st.mem && RecordHolds(w.st.mem[p], path, w.now) {
      var id :| Backs(w, id, w.st.mem[p]);
    } else if n :| n in w.st.files && FileHolds(codec, n, w.st.files[n], path, w.now) {
      var lock := ParseLock(codec, w.st.files[n]);
      assert LiveFile(codec, w.st.files[n], w.now);
      var id :| FileBacks(w, id, n, lock);
    }
  }

  /** Releasing a live grant frees its path exactly when its lock file can be removed. */
  lemma ReleasedExactly(codec: TimeCodec, w: World, id: nat, owner: string, stuck: set<string>)
    requires Exact(codec, w) && LiveGrant(w, id) && EndedBy(w.grants[id], w.grants[id].path, owner)
    ensures var path := w.grants[id].path;
            Blocked(codec, AfterRelease(w.st, path, owner, stuck), true, path, w.now) <==> LockName(path) in stuck
  {
    var path := w.grants[id].path;
    var st := AfterRelease(w.st, path, owner, stuck);
    if LockName(path) in stuck {
      OverlapsReflexiveSymmetric(path, path);
      OnDiskBlocks(codec, st, w.grants[id], path, w.now);
    } else {
      MemFreed(w, id, owner, stuck);
      FilesFreed(codec, w, id, owner, stuck);
    }
  }

  lemma MemFreed(w: World, id: nat, owner: string, stuck: set<string>)
    requires MutuallyExclusive(w) && OwnPaths(w) && MemBacked(w)
    requires LiveGrant(w, id) && EndedBy(w.grants[id], w.grants[id].path, owner)
    ensures forall p :: p in AfterRelease(w.st, w.grants[id].path, owner, stuck).mem ==>
              !RecordHolds(w.st.mem[p], w.grants[id].path, w.now)
  {
    var path := w.grants[id].path;
    var mem := AfterRelease(w.st, path, owner, stuck).mem;
    forall p | p in mem ensures !RecordHolds(w.st.mem[p], path, w.now) {
      if w.now <= w.st.mem[p].expiresAt {
        var other :| Backs(w, other, w.st.mem[p]);
        assert other != id;
      }
    }
  }

  lemma FilesFreed(codec: TimeCodec, w: World, id: nat, owner: string, stuck: set<string>)
    requires MutuallyExclusive(w) && FilesBacked(codec, w) && LiveGrant(w, id)
    requires LockName(w.grants[id].path) !in stuck
    ensures var files := AfterRelease(w.st, w.grants[id].path, owner, stuck).files;
            forall n :: n in files ==> !FileHolds(codec, n, files[n], w.grants[id].path, w.now)
  {
    var path := w.grants[id].path;
    var files := AfterRelease(w.st, path, owner, stuck).files;
    forall n | n in files ensures !FileHolds(codec, n, files[n], path, w.now) {
      if IsLockFile(n, files[n]) && LiveFile(codec, files[n], w.now) {
        var other :| FileBacks(w, other, n, ParseLock(codec, files[n]));
        assert other != id;
      }
    }
  }

  /** No live lock file is there before the first step. */
  ghost predicate EmptyDirectory(codec: TimeCodec, w: World)
  {
    forall n :: n in w.st.files ==> !(IsLockFile(n, w.st.files[n]) && LiveFile(codec, w.st.files[n], w.now))
  }

  lemma {:induction false} RunExact(codec: TimeCodec, ws: seq<World>, steps: seq<Step>, k: nat)
    requires GoodCodec(codec) && Run(codec, ws, steps) && k < |ws| && EmptyDirectory(codec, ws[0])
    requires forall i | 0 <= i < |steps| :: SafeStep(ws[i], steps[i]) && TidyStep(steps[i])
    ensures Exact(codec, ws[k])
    ensures forall path :: Blocked(codec, ws[k].st, true, path, ws[k].now) <==> SomeoneHolds(ws[k], path)
  {
    RestartExclusion(codec, ws, steps, k);
    NothingLingers(codec, ws, steps, k);
    if k > 0 {
      RunExact(codec, ws, steps, k - 1);
      assert Next(codec, ws[k - 1], steps[k - 1], ws[k]) && SafeStep(ws[k - 1], steps[k - 1]);
      StepFilesBacked(codec, ws[k - 1], steps[k - 1], ws[k]);
    }
    forall path ensures Blocked(codec, ws[k].st, true, path, ws[k].now) <==> SomeoneHolds(ws[k], path) {
      BlockedExactly(codec, ws[k], path);
    }
  }

  /** The holder that is reported is the owner of a live overlapping grant, but for blanks in front of its name. */
  lemma HolderIsReal(codec: TimeCodec, w: World, path: string, holder: string)
    requires Exact(codec, w) && HeldBy(codec, w.st, true, path, w.now, holder)
    ensures exists id :: LiveGrant(w, id) && Overlaps(path, w.grants[id].path)
                         && (w.grants[id].owner == holder || TrimLeft(w.grants[id].owner) == holder)
  {
    if p :| p in w.st.mem && RecordHolds(w.st.mem[p], path, w.now) && w.st.mem[p].owner == holder {
      var id :| Backs(w, id, w.st.mem[p]);
    } else {
      var n :| n in w.st.files && FileHolds(codec, n, w.st.files[n], path, w.now)
               && ParseLock(codec, w.st.files[n]).owner == holder;
      var id :| FileBacks(w, id, n, ParseLock(codec, w.st.files[n]));
    }
  }

  lemma OutcomeExactly(codec: TimeCodec, w: World, s: Step, v: World, r: Outcome)
    requires s.Acquire? && AcquireNext(codec, w, CleanPath(s.path), s.owner, w.now + s.ttl, s.env, v, r)
    ensures r == Granted <==> NewGrant(w, s, v)
    ensures r == Granted <==>
            !Blocked(codec, w.st, s.env.readable, CleanPath(s.path), s.env.now)
              && WriteSucceeds(SweptFiles(codec, w.st.files, s.env), LockName(CleanPath(s.path)), s.env)
  {
    match r {
      case Locked(holder) => HeldMeansBlocked(codec, w.st, s.env.readable, CleanPath(s.path), s.env.now, holder);
      case Failed =>
      case Granted =>
    }
  }

  lemma HeldMeansBlocked(codec: TimeCodec, st: LockState, readable: bool, path: string, now: int, holder: string)
    requires HeldBy(codec, st, readable, path, now, holder)
    ensures Blocked(codec, st, readable, path, now)
  {
  }

  lemma AcquireExactly(codec: TimeCodec, w: World, s: Step, v: World)
    requires Exact(codec, w) && s.Acquire? && s.env.readable && Next(codec, w, s, v)
    ensures NewGrant(w, s, v) <==>
            !SomeoneHolds(w, CleanPath(s.path))
              && WriteSucceeds(SweptFiles(codec, w.st.files, s.env), LockName(CleanPath(s.path)), s.env)
  {
    BlockedExactly(codec, w, CleanPath(s.path));
    var r :| AcquireNext(codec, w, CleanPath(s.path), s.owner, w.now + s.ttl, s.env, v, r);
    OutcomeExactly(codec, w, s, v, r);
  }

  /** In every run of safe and tidy steps, restarts included, an acquire is granted exactly when no
      live grant overlaps its path and the lock file can be written. */
  lemma GrantedExactly(codec: TimeCodec, ws: seq<World>, steps: seq<Step>, k: nat)
    requires GoodCodec(codec) && Run(codec, ws, steps) && k < |steps| && EmptyDirectory(codec, ws[0])
    requires forall i | 0 <= i < |steps| :: SafeStep(ws[i], steps[i]) && TidyStep(steps[i])
    requires steps[k].Acquire?
    ensures var path, env := CleanPath(steps[k].path), steps[k].env;
            NewGrant(ws[k], steps[k], ws[k + 1]) <==>
            !SomeoneHolds(ws[k], path) && WriteSucceeds(SweptFiles(codec, ws[k].st.files, env), LockName(path), env)
  {
    RunExact(codec, ws, steps, k);
    assert Next(codec, ws[k], steps[k], ws[k + 1]) && SafeStep(ws[k], steps[k]);
    AcquireExactly(codec, ws[k], steps[k], ws[k + 1]);
  }
}
