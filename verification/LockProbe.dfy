/** Looking at a lock does not change it: what a probe purges no later answer depends on. */
module LockProbe {
  import opened Options
  import opened Overlap
  import opened LockManager
  import opened LockRuns

  /** The part of a state that answers at `now` or later can depend on. */
  function View(codec: TimeCodec, st: LockState, now: int): LockState
  {
    LockState(LiveMem(st.mem, now), map n | n in st.files && !Dead(codec, n, st.files[n], now) :: st.files[n])
  }

  ghost predicate Same(codec: TimeCodec, a: LockState, b: LockState, now: int)
  {
    View(codec, a, now) == View(codec, b, now)
  }

  lemma SameMem(codec: TimeCodec, a: LockState, b: LockState, now: int, p: string)
    requires Same(codec, a, b, now) && p in a.mem && now <= a.mem[p].expiresAt
    ensures p in b.mem && b.mem[p] == a.mem[p]
  {
    assert p in View(codec, a, now).mem;
    assert View(codec, b, now).mem[p] == b.mem[p];
  }

  lemma SameFile(codec: TimeCodec, a: LockState, b: LockState, now: int, n: string)
    requires Same(codec, a, b, now) && n in a.files && !Dead(codec, n, a.files[n], now)
    ensures n in b.files && b.files[n] == a.files[n]
  {
    assert n in View(codec, a, now).files;
    assert View(codec, b, now).files[n] == b.files[n];
  }

  /** Equal views stay equal as time passes. */
  lemma SameLater(codec: TimeCodec, a: LockState, b: LockState, now: int, later: int)
    requires Same(codec, a, b, now) && now <= later
    ensures Same(codec, a, b, later)
  {
    assert View(codec, a, later) == View(codec, View(codec, a, now), later);
    assert View(codec, b, later) == View(codec, View(codec, b, now), later);
  }

  /** Purging is invisible, whoever does it and however far it gets. */
  lemma PurgeInvisible(codec: TimeCodec, a: LockState, b: LockState, now: int)
    requires Purged(codec, a, b, now)
    ensures Same(codec, a, b, now)
  {
  }

  lemma SameBlocks(codec: TimeCodec, a: LockState, b: LockState, readable: bool, path: string, now: int)
    requires Same(codec, a, b, now) && Blocked(codec, a, readable, path, now)
    ensures Blocked(codec, b, readable, path, now)
  {
    if p :| p in a.mem && RecordHolds(a.mem[p], path, now) {
      SameMem(codec, a, b, now, p);
    } else {
      var n :| n in a.files && FileHolds(codec, n, a.files[n], path, now);
      SameFile(codec, a, b, now, n);
    }
  }

  lemma HeldIsBlocked(codec: TimeCodec, st: LockState, env: Env, path: string, owner: string)
    requires HeldBy(codec, st, env.readable, path, env.now, owner)
    ensures Blocked(codec, st, env.readable, path, env.now)
  {
  }

  lemma SameWrite(codec: TimeCodec, a: LockState, b: LockState, env: Env, name: string)
    requires Same(codec, a, b, env.now)
    ensures WriteSucceeds(SweptFiles(codec, a.files, env), name, env)
         == WriteSucceeds(SweptFiles(codec, b.files, env), name, env)
  {
    if name in a.files && a.files[name].Folder? {
      SameFile(codec, a, b, env.now, name);
    }
    if name in b.files && b.files[name].Folder? {
      SameFile(codec, b, a, env.now, name);
    }
  }

  lemma SweptView(codec: TimeCodec, st: LockState, env: Env)
    ensures View(codec, LockState(LiveMem(st.mem, env.now), SweptFiles(codec, st.files, env)), env.now)
         == View(codec, st, env.now)
  {
  }

  /** Writing or removing the same entry on both sides keeps the views equal. */
  lemma SameUpdate(codec: TimeCodec, a: LockState, b: LockState, now: int, name: string, left: Option<DirEntry>,
                   path: string, rec: Option<Record>)
    requires Same(codec, a, b, now)
    ensures Same(codec,
              LockState(if rec.Some? then a.mem[path := rec.value] else a.mem - {path},
                        if left.Some? then a.files[name := left.value] else a.files - {name}),
              LockState(if rec.Some? then b.mem[path := rec.value] else b.mem - {path},
                        if left.Some? then b.files[name := left.value] else b.files - {name}), now)
  {
    var a1 := LockState(if rec.Some? then a.mem[path := rec.value] else a.mem - {path},
                        if left.Some? then a.files[name := left.value] else a.files - {name});
    var b1 := LockState(if rec.Some? then b.mem[path := rec.value] else b.mem - {path},
                        if left.Some? then b.files[name := left.value] else b.files - {name});
    SameUpdateHalf(codec, a, b, now, name, path, a1, b1, left, rec);
    SameUpdateHalf(codec, b, a, now, name, path, b1, a1, left, rec);
    var va, vb := View(codec, a1, now), View(codec, b1, now);
    assert va.mem == vb.mem;
    assert va.files == vb.files;
  }

  lemma SameUpdateHalf(codec: TimeCodec, a: LockState, b: LockState, now: int, name: string, path: string,
                       a1: LockState, b1: LockState, left: Option<DirEntry>, rec: Option<Record>)
    requires Same(codec, a, b, now)
    requires a1.mem == (if rec.Some? then a.mem[path := rec.value] else a.mem - {path})
    requires b1.mem == (if rec.Some? then b.mem[path := rec.value] else b.mem - {path})
    requires a1.files == (if left.Some? then a.files[name := left.value] else a.files - {name})
    requires b1.files == (if left.Some? then b.files[name := left.value] else b.files - {name})
    ensures forall p :: p in View(codec, a1, now).mem ==> p in View(codec, b1, now).mem && b1.mem[p] == a1.mem[p]
    ensures forall n :: n in View(codec, a1, now).files ==>
              n in View(codec, b1, now).files && b1.files[n] == a1.files[n]
  {
    forall p | p in View(codec, a1, now).mem ensures p in View(codec, b1, now).mem && b1.mem[p] == a1.mem[p] {
      if p != path { SameMem(codec, a, b, now, p); }
    }
    forall n | n in View(codec, a1, now).files ensures n in View(codec, b1, now).files && b1.files[n] == a1.files[n] {
      if n != name { SameFile(codec, a, b, now, n); }
    }
  }

  /** From states with equal views an acquire ends the same way on both sides and leaves equal views. */
  lemma SameAcquire(codec: TimeCodec, a: LockState, b: LockState, env: Env, path: string, owner: string, exp: int,
                    a1: LockState, ra: Outcome, b1: LockState, rb: Outcome)
    requires Same(codec, a, b, env.now)
    requires AcquireStep(codec, a, env, path, owner, exp, a1, ra)
    requires AcquireStep(codec, b, env, path, owner, exp, b1, rb)
    ensures (ra.Locked? <==> rb.Locked?) && (ra.Granted? <==> rb.Granted?)
    ensures Same(codec, a1, b1, env.now)
  {
    var blocked := Blocked(codec, a, env.readable, path, env.now);
    if blocked {
      SameBlocks(codec, a, b, env.readable, path, env.now);
    } else if Blocked(codec, b, env.readable, path, env.now) {
      SameBlocks(codec, b, a, env.readable, path, env.now);
      assert false;
    }
    if ra.Locked? { HeldIsBlocked(codec, a, env, path, ra.owner); }
    if rb.Locked? { HeldIsBlocked(codec, b, env, path, rb.owner); }
    var name := LockName(path);
    SameWrite(codec, a, b, env, name);
    if blocked {
      PurgeInvisible(codec, a, a1, env.now);
      PurgeInvisible(codec, b, b1, env.now);
    } else {
      SameOutcomeView(codec, a, b, env, path, owner, exp, name);
    }
  }

  lemma SameOutcomeView(codec: TimeCodec, a: LockState, b: LockState, env: Env, path: string, owner: string, exp: int,
                        name: string)
    requires Same(codec, a, b, env.now)
    ensures Same(codec,
              LockState(LiveMem(a.mem, env.now)[path := Record(path, owner, exp)],
                        SweptFiles(codec, a.files, env)[name := File(LockText(codec, owner, exp, path))]),
              LockState(LiveMem(b.mem, env.now)[path := Record(path, owner, exp)],
                        SweptFiles(codec, b.files, env)[name := File(LockText(codec, owner, exp, path))]), env.now)
    ensures Same(codec,
              LockState(LiveMem(a.mem, env.now), AfterWriteError(SweptFiles(codec, a.files, env), name, env)),
              LockState(LiveMem(b.mem, env.now), AfterWriteError(SweptFiles(codec, b.files, env), name, env)), env.now)
  {
    var sa := LockState(LiveMem(a.mem, env.now), SweptFiles(codec, a.files, env));
    var sb := LockState(LiveMem(b.mem, env.now), SweptFiles(codec, b.files, env));
    SweptView(codec, a, env);
    SweptView(codec, b, env);
    assert Same(codec, sa, sb, env.now);
    SameUpdate(codec, sa, sb, env.now, name, Some(File(LockText(codec, owner, exp, path))), path,
      Some(Record(path, owner, exp)));
    if env.write.WriteError? {
      SameFilesUpdate(codec, sa, sb, env.now, name, env.write.left);
    }
  }

  lemma SameFilesUpdate(codec: TimeCodec, a: LockState, b: LockState, now: int, name: string, left: Option<DirEntry>)
    requires Same(codec, a, b, now)
    ensures Same(codec, LockState(a.mem, if left.Some? then a.files[name := left.value] else a.files - {name}),
                        LockState(b.mem, if left.Some? then b.files[name := left.value] else b.files - {name}), now)
  {
    SameUpdate(codec, a, b, now, name, left, "", None);
    var a1 := LockState(a.mem, if left.Some? then a.files[name := left.value] else a.files - {name});
    var b1 := LockState(b.mem, if left.Some? then b.files[name := left.value] else b.files - {name});
    assert View(codec, a1, now).mem == View(codec, a, now).mem;
    assert View(codec, a1, now).files == View(codec, LockState(a.mem - {""}, a1.files), now).files;
    assert View(codec, b1, now).files == View(codec, LockState(b.mem - {""}, b1.files), now).files;
  }

  /** A release, too, cannot tell states with equal views apart. */
  lemma SameRelease(codec: TimeCodec, a: LockState, b: LockState, now: int, path: string, owner: string,
                    stuck: set<string>)
    requires Same(codec, a, b, now)
    ensures Same(codec, AfterRelease(a, path, owner, stuck), AfterRelease(b, path, owner, stuck), now)
  {
    var a1, b1 := AfterRelease(a, path, owner, stuck), AfterRelease(b, path, owner, stuck);
    ReleaseHalf(codec, a, b, now, path, owner, stuck);
    ReleaseHalf(codec, b, a, now, path, owner, stuck);
    assert View(codec, a1, now).mem == View(codec, b1, now).mem;
    assert View(codec, a1, now).files == View(codec, b1, now).files;
  }

  lemma ReleaseHalf(codec: TimeCodec, a: LockState, b: LockState, now: int, path: string, owner: string,
                    stuck: set<string>)
    requires Same(codec, a, b, now)
    ensures var a1, b1 := AfterRelease(a, path, owner, stuck), AfterRelease(b, path, owner, stuck);
            && (forall p :: p in View(codec, a1, now).mem ==> p in View(codec, b1, now).mem && b1.mem[p] == a1.mem[p])
            && (forall n :: n in View(codec, a1, now).files ==>
                   n in View(codec, b1, now).files && b1.files[n] == a1.files[n])
  {
    var a1, b1 := AfterRelease(a, path, owner, stuck), AfterRelease(b, path, owner, stuck);
    forall p | p in View(codec, a1, now).mem ensures p in View(codec, b1, now).mem && b1.mem[p] == a1.mem[p] {
      SameMem(codec, a, b, now, p);
    }
    forall n | n in View(codec, a1, now).files ensures n in View(codec, b1, now).files && b1.files[n] == a1.files[n] {
      SameFile(codec, a, b, now, n);
    }
  }

  /** IsLocked answers true exactly when TryAcquire would answer ErrLocked. */
  lemma ProbeAgrees(codec: TimeCodec, s: LockState, env: Env, path: string, probed: LockState, locked: bool,
                    holder: string, owner: string, exp: int, tried: LockState, r: Outcome)
    requires ProbeStep(codec, s, env, path, probed, locked, holder)
    requires AcquireStep(codec, s, env, path, owner, exp, tried, r)
    ensures locked <==> r.Locked?
  {
    if locked { HeldIsBlocked(codec, s, env, path, holder); }
    if r.Locked? { HeldIsBlocked(codec, s, env, path, r.owner); }
  }

  lemma SameProbe(codec: TimeCodec, a: LockState, b: LockState, env: Env, path: string,
                  a1: LockState, la: bool, ha: string, b1: LockState, lb: bool, hb: string)
    requires Same(codec, a, b, env.now)
    requires ProbeStep(codec, a, env, path, a1, la, ha) && ProbeStep(codec, b, env, path, b1, lb, hb)
    ensures la == lb && Same(codec, a1, b1, env.now)
  {
    PurgeInvisible(codec, a, a1, env.now);
    PurgeInvisible(codec, b, b1, env.now);
    if la {
      HeldIsBlocked(codec, a, env, path, ha);
      SameBlocks(codec, a, b, env.readable, path, env.now);
    }
    if lb {
      HeldIsBlocked(codec, b, env, path, hb);
      SameBlocks(codec, b, a, env.readable, path, env.now);
    }
  }

  /* ------------------------------------------------------------------ whole runs */

  /** Two worlds that agree on the clock and on what has been granted, and whose states no later answer tells apart. */
  ghost predicate Alike(codec: TimeCodec, w: World, v: World)
  {
    w.now == v.now && w.grants == v.grants && w.next == v.next && Same(codec, w.st, v.st, w.now)
  }

  lemma AlikeOutcome(codec: TimeCodec, w: World, v: World, path: string, owner: string, exp: int, env: Env,
                     w1: World, rw: Outcome, v1: World, rv: Outcome)
    requires Alike(codec, w, v) && env.now == w.now == w1.now == v1.now
    requires AcquireNext(codec, w, path, owner, exp, env, w1, rw)
    requires AcquireNext(codec, v, path, owner, exp, env, v1, rv)
    ensures Alike(codec, w1, v1)
  {
    SameAcquire(codec, w.st, v.st, env, path, owner, exp, w1.st, rw, v1.st, rv);
  }

  lemma AlikeAcquire(codec: TimeCodec, w: World, v: World, s: Step, w1: World, v1: World)
    requires Alike(codec, w, v) && s.Acquire? && Next(codec, w, s, w1) && Next(codec, v, s, v1)
    ensures Alike(codec, w1, v1)
  {
    var path, exp := CleanPath(s.path), w.now + s.ttl;
    var rw :| AcquireNext(codec, w, path, s.owner, exp, s.env, w1, rw);
    var rv :| AcquireNext(codec, v, path, s.owner, exp, s.env, v1, rv);
    AlikeOutcome(codec, w, v, path, s.owner, exp, s.env, w1, rw, v1, rv);
  }

  lemma AlikeProbe(codec: TimeCodec, w: World, v: World, s: Step, w1: World, v1: World)
    requires Alike(codec, w, v) && s.Probe? && Next(codec, w, s, w1) && Next(codec, v, s, v1)
    ensures Alike(codec, w1, v1)
  {
    var path := CleanPath(s.path);
    var la, ha :| ProbeStep(codec, w.st, s.env, path, w1.st, la, ha);
    var lb, hb :| ProbeStep(codec, v.st, s.env, path, v1.st, lb, hb);
    SameProbe(codec, w.st, v.st, s.env, path, w1.st, la, ha, v1.st, lb, hb);
  }

  lemma SameFiles(codec: TimeCodec, a: LockState, b: LockState, mem: map<string, Record>, now: int)
    requires Same(codec, a, b, now)
    ensures Same(codec, LockState(mem, a.files), LockState(mem, b.files), now)
  {
    assert View(codec, LockState(mem, a.files), now).files == View(codec, a, now).files;
    assert View(codec, LockState(mem, b.files), now).files == View(codec, b, now).files;
  }

  lemma SameMemory(codec: TimeCodec, a: LockState, b: LockState, files: map<string, DirEntry>, now: int)
    requires Same(codec, a, b, now)
    ensures Same(codec, LockState(a.mem, files), LockState(b.mem, files), now)
  {
    assert View(codec, LockState(a.mem, files), now).mem == View(codec, a, now).mem;
    assert View(codec, LockState(b.mem, files), now).mem == View(codec, b, now).mem;
  }

  /** Every step, restarts and tampering included, keeps two worlds alike. */
  lemma StepAlike(codec: TimeCodec, w: World, v: World, s: Step, w1: World, v1: World)
    requires Alike(codec, w, v) && Next(codec, w, s, w1) && Next(codec, v, s, v1)
    ensures Alike(codec, w1, v1)
  {
    match s {
      case Acquire(_, _, _, _) => AlikeAcquire(codec, w, v, s, w1, v1);
      case Release(path, owner, stuck) => SameRelease(codec, w.st, v.st, w.now, CleanPath(path), owner, stuck);
      case Probe(_, _) => AlikeProbe(codec, w, v, s, w1, v1);
      case Tick(d) => SameLater(codec, w.st, v.st, w.now, w.now + d);
      case Restart => SameFiles(codec, w.st, v.st, map[], w.now);
      case Tamper(files) => SameMemory(codec, w.st, v.st, files, w.now);
    }
  }

  /** Runs of the same steps from worlds that are alike grant the same locks all along. */
  lemma {:induction false} RunsAlike(codec: TimeCodec, ws: seq<World>, vs: seq<World>, steps: seq<Step>, k: nat)
    requires Chain(codec, ws, steps) && Chain(codec, vs, steps) && Alike(codec, ws[0], vs[0]) && k < |ws|
    ensures Alike(codec, ws[k], vs[k])
  {
    if k > 0 {
      RunsAlike(codec, ws, vs, steps, k - 1);
      assert Next(codec, ws[k - 1], steps[k - 1], ws[k - 1 + 1]) && Next(codec, vs[k - 1], steps[k - 1], vs[k - 1 + 1]);
      StepAlike(codec, ws[k - 1], vs[k - 1], steps[k - 1], ws[k], vs[k]);
    }
  }

  /** A probe, or an acquire that was refused. */
  ghost predicate Looked(codec: TimeCodec, w: World, v: World)
  {
    || (exists s: Step :: s.Probe? && Next(codec, w, s, v))
    || (exists path, owner, exp, env, r ::
          AcquireNext(codec, w, path, owner, exp, env, v, r) && r.Locked? && env.now == w.now == v.now)
  }

  /** Looking is pure: a run that continues after a probe or a refused acquire grants, step for step, what the run
      grants that continues without it, and at every later point the same paths are blocked. */
  lemma LookingIsPure(codec: TimeCodec, w: World, v: World, ws: seq<World>, vs: seq<World>, steps: seq<Step>, k: nat)
    requires Looked(codec, w, v)
    requires Chain(codec, ws, steps) && Chain(codec, vs, steps) && ws[0] == w && vs[0] == v && k < |ws|
    ensures Alike(codec, ws[k], vs[k])
    ensures forall readable, path :: Blocked(codec, ws[k].st, readable, path, ws[k].now) <==>
                                       Blocked(codec, vs[k].st, readable, path, ws[k].now)
  {
    LookedAlike(codec, w, v);
    RunsAlike(codec, ws, vs, steps, k);
    forall readable, path
      ensures Blocked(codec, ws[k].st, readable, path, ws[k].now) <==>
                Blocked(codec, vs[k].st, readable, path, ws[k].now)
    {
      if Blocked(codec, ws[k].st, readable, path, ws[k].now) {
        SameBlocks(codec, ws[k].st, vs[k].st, readable, path, ws[k].now);
      }
      if Blocked(codec, vs[k].st, readable, path, ws[k].now) {
        SameBlocks(codec, vs[k].st, ws[k].st, readable, path, ws[k].now);
      }
    }
  }

  lemma LookedAlike(codec: TimeCodec, w: World, v: World)
    requires Looked(codec, w, v)
    ensures Alike(codec, w, v)
  {
    assert Purged(codec, w.st, v.st, w.now);
    PurgeInvisible(codec, w.st, v.st, w.now);
  }
}
