/** What every schedule of downloadAll comes to: it ends, and without an error it ends in one and the same place. */
module ParallelRuns {
  import opened Options
  import opened Manifest
  import opened Store
  import opened Parallel

  /* ------------------------------------------------------------------ outcome */

  /** The disk after all groups were downloaded and promoted. */
  ghost predicate Mirrored(job: Job, disk: Disk)
  {
    && (forall c, j :: c in job.groups && 0 <= j < |job.groups[c]| ==>
          job.groups[c][j].path in disk.target && disk.target[job.groups[c][j].path] == Link(c))
    && (forall p :: !Planned(job, p) ==> SameSpot(disk.target, job.start.target, p))
    && (forall c :: c in job.groups && job.groups[c] != [] && c in job.truth ==>
          c in disk.objects && disk.objects[c] == Obj(job.truth[c], job.groups[c][0].mode, job.groups[c][0].mtime))
    && (forall c :: c !in job.groups ==> SameObject(disk.objects, job.start.objects, c))
  }

  predicate Complete(job: Job, st: State)
  {
    st.done == job.groups.Keys
  }

  /** An errorless end is complete exactly when the loop was not left early; and it is only left early on
      cancellation from outside. */
  lemma CompleteExactly(job: Job, choices: seq<Choice>)
    requires GoodJob(job) && Final(Exec(job, choices)) && !Exec(job, choices).err
    ensures Complete(job, Exec(job, choices)) <==> !Exec(job, choices).broke
    ensures Exec(job, choices).broke ==> Exec(job, choices).external
  {
    AlwaysInv(job, choices);
    FinalComplete(job, Exec(job, choices));
  }

  lemma FinalPlacement(job: Job, st: State, c: string)
    requires c in job.groups && Placement(st, c) && Final(st) && st.failed == {}
    ensures c in st.done <==> c !in st.todo
  {
  }

  lemma FinalComplete(job: Job, st: State)
    requires GoodJob(job) && Inv(job, st) && Final(st) && !st.err
    ensures Complete(job, st) <==> !st.broke
    ensures st.broke ==> st.external
  {
    forall c | c in job.groups ensures c in st.done <==> c !in st.todo {
      FinalPlacement(job, st, c) by { assert Local(job, st, c); }
    }
    if st.broke {
      TodoPlanned(job, st);
      assert st.todo[0] in st.todo;
    }
  }

  /** A complete end: every entry promoted exactly once, all counters full, the disk as planned. */
  lemma CompleteOutcome(job: Job, choices: seq<Choice>)
    requires GoodJob(job) && Final(Exec(job, choices)) && Complete(job, Exec(job, choices))
    ensures var st := Exec(job, choices);
            && st.downloaded == Sum(job.checksums, Sizes(job)) && st.bytes == Sum(job.checksums, Cost(job))
            && (forall c, j: nat :: c in job.groups ==> st.log[(c, j)] == if j < |job.groups[c]| then 1 else 0)
            && Mirrored(job, st.disk)
  {
    var st := Exec(job, choices);
    AlwaysInv(job, choices);
    CompleteCounters(job, st);
    CompleteLinks(job, st);
    CompleteDisk(job, st);
  }

  lemma CompleteCounters(job: Job, st: State)
    requires Counters(job, st) && Complete(job, st)
    ensures st.downloaded == Sum(job.checksums, Sizes(job)) && st.bytes == Sum(job.checksums, Cost(job))
  {
    assert Only(st.done, Sizes(job)) == Sizes(job);
    assert Only(st.done, Cost(job)) == Cost(job);
  }

  lemma CompleteLinks(job: Job, st: State)
    requires GoodJob(job) && Inv(job, st) && Complete(job, st)
    ensures forall c, j: nat :: c in job.groups ==> st.log[(c, j)] == if j < |job.groups[c]| then 1 else 0
  {
    forall c | c in job.groups ensures c in st.linked && st.linked[c] == |job.groups[c]| {
      assert Local(job, st, c) && c in st.done;
    }
  }

  lemma DoneGroup(job: Job, st: State, c: string)
    requires GoodGroup(job, c) && Local(job, st, c) && c in st.done
    ensures c in st.disk.objects
    ensures st.disk.objects[c] == Obj(job.truth[c], job.groups[c][0].mode, job.groups[c][0].mtime)
    ensures forall j | 0 <= j < |job.groups[c]| ::
              job.groups[c][j].path in st.disk.target && st.disk.target[job.groups[c][j].path] == Link(c)
  {
  }

  lemma CompleteDisk(job: Job, st: State)
    requires GoodJob(job) && Inv(job, st) && Complete(job, st)
    ensures Mirrored(job, st.disk)
  {
    forall c | c in job.groups
      ensures c in st.disk.objects
      ensures st.disk.objects[c] == Obj(job.truth[c], job.groups[c][0].mode, job.groups[c][0].mtime)
      ensures forall j | 0 <= j < |job.groups[c]| ::
                job.groups[c][j].path in st.disk.target && st.disk.target[job.groups[c][j].path] == Link(c)
    {
      GoodJobGroup(job, c);
      DoneGroup(job, st, c) by { assert Local(job, st, c) && c in st.done; }
    }
  }

  /** Group by group, the workers leave what promoteObjectToEntries leaves: its links, and the object stamped by its
      first entry. */
  lemma MirroredPlaced(job: Job, disk: Disk, c: string, p: string)
    requires GoodJob(job) && Mirrored(job, disk) && c in job.groups && InGroup(job.groups[c], p)
    ensures p in disk.target && p in Placed(job.start, job.groups[c], c).target
    ensures disk.target[p] == Placed(job.start, job.groups[c], c).target[p]
    ensures c in disk.objects && Stamped(disk.objects[c], job.groups[c][0]) == disk.objects[c]
  {
    PlacedExact(job.start, job.groups[c], c);
    GoodJobGroup(job, c);
  }

  lemma MirroredUnique(job: Job, a: Disk, b: Disk)
    requires GoodJob(job) && Mirrored(job, a) && Mirrored(job, b)
    ensures a.target == b.target && a.objects == b.objects
  {
    forall p ensures SameSpot(a.target, b.target, p) {
      if Planned(job, p) {
        var c :| c in job.groups && InGroup(job.groups[c], p);
        var j :| 0 <= j < |job.groups[c]| && job.groups[c][j].path == p;
      } else {
        assert SameSpot(a.target, job.start.target, p) && SameSpot(b.target, job.start.target, p);
      }
    }
    forall c ensures SameObject(a.objects, b.objects, c) {
      if c !in job.groups {
        assert SameObject(a.objects, job.start.objects, c) && SameObject(b.objects, job.start.objects, c);
      }
    }
    SameSpotsEqual(a.target, b.target);
    SameObjectsEqual(a.objects, b.objects);
  }

  lemma SameSpotsEqual(a: map<string, Spot>, b: map<string, Spot>)
    requires forall p :: SameSpot(a, b, p)
    ensures a == b
  {
    assert forall p :: p in a ==> SameSpot(a, b, p);
    assert forall p :: p in b ==> SameSpot(a, b, p);
  }

  lemma SameObjectsEqual(a: map<string, Obj>, b: map<string, Obj>)
    requires forall p :: SameObject(a, b, p)
    ensures a == b
  {
    assert forall p :: p in a ==> SameObject(a, b, p);
    assert forall p :: p in b ==> SameObject(a, b, p);
  }

  /* ------------------------------------------------------------------ termination */

  function Ranks(job: Job, st: State): map<string, nat>
  {
    map c | c in job.groups :: Rank(job, st, c)
  }

  /** Steps any schedule can still take. */
  function Remaining(job: Job, st: State): nat
  {
    Sum(job.checksums, Ranks(job, st)) + (if !st.waiting && !st.broke && st.todo != [] then 1 else 0)
      + (if st.external then 0 else 1)
  }

  lemma AsideRank(job: Job, st: State, t: State, d: string)
    requires d in job.groups && Aside(job, st, t, d)
    ensures Value(Ranks(job, t), d) == Value(Ranks(job, st), d)
  {
  }

  lemma RanksStep(job: Job, st: State, t: State, c: string)
    requires Distinct(job.checksums) && (forall d :: d in job.checksums <==> d in job.groups) && c in job.groups
    requires forall d :: d in job.groups && d != c ==> Aside(job, st, t, d)
    ensures Sum(job.checksums, Ranks(job, st)) + Rank(job, t, c) == Sum(job.checksums, Ranks(job, t)) + Rank(job, st, c)
  {
    forall d | d in job.checksums && d != c ensures Value(Ranks(job, t), d) == Value(Ranks(job, st), d) {
      AsideRank(job, st, t, d);
    }
    SumUpdate(job.checksums, Ranks(job, st), Ranks(job, t), c);
  }

  lemma RankLess(job: Job, st: State, t: State, c: string)
    requires Distinct(job.checksums) && (forall d :: d in job.checksums <==> d in job.groups) && c in job.groups
    requires forall d :: d in job.groups && d != c ==> Aside(job, st, t, d)
    requires SameLoop(st, t) && Rank(job, t, c) < Rank(job, st, c)
    ensures Remaining(job, t) < Remaining(job, st)
  {
    RanksStep(job, st, t, c);
  }

  lemma WorkerDecreases(job: Job, st: State, ch: Choice, c: string)
    requires GoodJob(job) && Inv(job, st) && Enabled(job, st, ch) && ByWorker(ch, c)
    ensures Remaining(job, Apply(job, st, ch)) < Remaining(job, st)
  {
    WorkerInv(job, st, ch, c);
    RankLess(job, st, Apply(job, st, ch), c);
  }

  lemma SpawnRank(job: Job, st: State, c: string)
    requires st.todo != [] && c == st.todo[0] && c in job.groups && c !in st.todo[1..]
    ensures Rank(job, AfterSpawn(st), c) + 2 == Rank(job, st, c)
  {
  }

  lemma SpawnRanks(job: Job, st: State)
    requires Enabled(job, st, Spawn) && GoodGroup(job, st.todo[0]) && st.todo[0] !in st.todo[1..]
    requires forall d :: d in job.checksums <==> d in job.groups
    requires forall d :: d in job.groups && d != st.todo[0] ==> Aside(job, st, AfterSpawn(st), d)
    ensures Remaining(job, AfterSpawn(st)) < Remaining(job, st)
  {
    RanksStep(job, st, AfterSpawn(st), st.todo[0]);
    SpawnRank(job, st, st.todo[0]);
  }

  lemma SpawnDecreases(job: Job, st: State)
    requires GoodJob(job) && Inv(job, st) && Enabled(job, st, Spawn)
    ensures Remaining(job, AfterSpawn(st)) < Remaining(job, st)
  {
    SpawnInv(job, st);
    SpawnRanks(job, st);
  }

  lemma MainRank(job: Job, st: State, t: State, c: string)
    requires c in job.groups && t.todo == st.todo && t.live == st.live && t.linked == st.linked
    ensures Rank(job, t, c) == Rank(job, st, c)
  {
  }

  lemma MainDecreases(job: Job, st: State, ch: Choice)
    requires Control(job, st) && Enabled(job, st, ch) && (ch.Check? || ch.Cancel?)
    ensures Remaining(job, Apply(job, st, ch)) < Remaining(job, st)
  {
    var t := Apply(job, st, ch);
    forall c | c in job.groups ensures Ranks(job, t)[c] == Ranks(job, st)[c] {
      MainRank(job, st, t, c);
    }
    assert Ranks(job, t) == Ranks(job, st);
  }

  /** Every enabled choice uses up one of finitely many steps, so every schedule ends. */
  lemma StepDecreases(job: Job, st: State, ch: Choice)
    requires GoodJob(job) && Inv(job, st) && Enabled(job, st, ch)
    ensures Remaining(job, Apply(job, st, ch)) < Remaining(job, st)
  {
    match ch {
      case Check => MainDecreases(job, st, ch);
      case Cancel => MainDecreases(job, st, ch);
      case Spawn => SpawnDecreases(job, st);
      case _ => WorkerDecreases(job, st, ch, ch.c);
    }
  }

  /** How many of the choices were enabled when their turn came. */
  function Effective(job: Job, choices: seq<Choice>): nat
  {
    if choices == [] then 0
    else
      var init, ch := choices[..|choices| - 1], choices[|choices| - 1];
      Effective(job, init) + if Enabled(job, Exec(job, init), ch) then 1 else 0
  }

  /** No schedule, however long, takes more steps than were there to take at the start. */
  lemma {:induction false} SchedulesEnd(job: Job, choices: seq<Choice>)
    requires GoodJob(job)
    ensures Effective(job, choices) + Remaining(job, Exec(job, choices)) <= Remaining(job, Initial(job))
  {
    if choices != [] {
      var init, ch := choices[..|choices| - 1], choices[|choices| - 1];
      SchedulesEnd(job, init);
      AlwaysInv(job, init);
      if Enabled(job, Exec(job, init), ch) {
        StepDecreases(job, Exec(job, init), ch);
      }
    }
  }

  /** And no schedule gets stuck: before the end some choice is enabled. */
  lemma NoDeadlock(job: Job, st: State) returns (ch: Choice)
    requires GoodJob(job) && Inv(job, st) && !Final(st)
    ensures Enabled(job, st, ch)
  {
    if st.live != map[] {
      var c :| c in st.live.Keys;
      assert Local(job, st, c);
      GoodJobGroup(job, c);
      match st.live[c].pc {
        case Fetching => ch := DoFetch(c, NoReply);
        case Linking => ch := DoLink(c, LinkErr(0, false));
        case Stamping => ch := DoStamp(c, ChmodErr);
        case Accounting => ch := DoAccount(c);
        case Exiting => ch := DoExit(c);
      }
    } else {
      ch := if st.waiting then Spawn else Check;
    }
  }

  /* ------------------------------------------------------------------ what holds of every schedule, ended or not */

  // The kinds of steps, by what they do to the disk.

  lemma SettleStep(st: State, c: string, disk: Disk, r: Option<nat>)
    ensures Settle(st, c, disk, r).disk == disk && Settle(st, c, disk, r).linked == st.linked
  {
  }

  lemma FetchStep(job: Job, st: State, c: string, x: Exchange)
    requires c in job.groups && job.groups[c] != []
    ensures AfterFetch(job, st, c, x).disk == Fetch(job.hash, st.disk, job.groups[c][0], x).0
    ensures AfterFetch(job, st, c, x).linked == st.linked
  {
    var out := Fetch(job.hash, st.disk, job.groups[c][0], x);
    SettleStep(st, c, out.0, out.1);
  }

  predicate CanLink(job: Job, st: State, c: string)
  {
    c in job.groups && c in st.linked && st.linked[c] < |job.groups[c]| && c in st.live
  }

  lemma LinkStep(job: Job, st: State, c: string, link: LinkEnd)
    requires CanLink(job, st, c)
    ensures var t, path := AfterLink(job, st, c, link), job.groups[c][st.linked[c]].path;
            && t.disk == (if link.LinkOk? then Relinked(st.disk, path, c)
                 else Attempted(st.disk, path, link.depth, link.removed))
            && t.linked == (if link.LinkOk? then st.linked[c := st.linked[c] + 1] else st.linked)
  {
  }

  predicate CanStamp(job: Job, st: State, c: string)
  {
    c in job.groups && job.groups[c] != [] && c in st.disk.objects && c in st.live
  }

  lemma StampStep(job: Job, st: State, c: string, stamp: StampEnd)
    requires CanStamp(job, st, c)
    ensures var t := AfterStamp(job, st, c, stamp);
            && t.disk.(objects := st.disk.objects) == st.disk && t.linked == st.linked
            && t.disk.objects.Keys == st.disk.objects.Keys && t.disk.objects[c].content == st.disk.objects[c].content
            && forall d :: d != c ==> SameObject(t.disk.objects, st.disk.objects, d)
  {
  }

  predicate Quiet(ch: Choice)
  {
    ch.Check? || ch.Spawn? || ch.Cancel? || ch.DoAccount? || ch.DoExit?
  }

  lemma QuietStep(job: Job, st: State, ch: Choice)
    requires !Enabled(job, st, ch) || Quiet(ch)
    ensures Apply(job, st, ch).disk == st.disk && Apply(job, st, ch).linked == st.linked
  {
    match ch {
      case Spawn =>
      case DoAccount(_) =>
      case DoExit(_) =>
      case _ =>
    }
  }

  lemma StampNamed(job: Job, st: State, c: string, stamp: StampEnd)
    requires CanStamp(job, st, c) && Named(job.hash, st.disk.objects)
    ensures Named(job.hash, AfterStamp(job, st, c, stamp).disk.objects)
  {
    StampStep(job, st, c, stamp);
    var t := AfterStamp(job, st, c, stamp).disk.objects;
    forall d | d in t ensures job.hash(t[d].content) == d {
      if d != c { assert SameObject(t, st.disk.objects, d); }
    }
  }

  lemma StepNamed(job: Job, st: State, ch: Choice)
    requires Named(job.hash, st.disk.objects)
    ensures Named(job.hash, Apply(job, st, ch).disk.objects)
  {
    if !Enabled(job, st, ch) || Quiet(ch) {
      QuietStep(job, st, ch);
    } else {
      match ch {
        case DoFetch(c, x) =>
          FetchStep(job, st, c, x);
          FetchKeepsNamed(job.hash, st.disk, job.groups[c][0], x);
        case DoLink(c, link) => LinkStep(job, st, c, link);
        case DoStamp(c, stamp) => StampNamed(job, st, c, stamp);
      }
    }
  }

  /** However far a run gets, every object in the store has the content it is named by. */
  lemma {:induction false} AlwaysNamed(job: Job, choices: seq<Choice>)
    requires ProperJob(job) && Named(job.hash, job.start.objects)
    ensures Named(job.hash, Exec(job, choices).disk.objects)
  {
    if choices != [] {
      AlwaysNamed(job, choices[..|choices| - 1]);
      StepNamed(job, Exec(job, choices[..|choices| - 1]), choices[|choices| - 1]);
    }
  }

  predicate ObjectStays(job: Job, a: map<string, Obj>, b: map<string, Obj>, c: string)
  {
    (c in a ==> c in b) && (c !in job.groups ==> SameObject(a, b, c))
  }

  lemma FetchObject(job: Job, st: State, d: string, x: Exchange, c: string)
    requires OwnChecksums(job) && d in job.groups && job.groups[d] != []
    ensures ObjectStays(job, st.disk.objects, AfterFetch(job, st, d, x).disk.objects, c)
  {
    FetchStep(job, st, d, x);
    assert job.groups[d][0].checksum == d;
  }

  /** Each group has the checksum it is filed under. */
  predicate OwnChecksums(job: Job)
  {
    forall c | c in job.groups :: job.groups[c] != [] ==> job.groups[c][0].checksum == c
  }

  lemma StepObject(job: Job, st: State, ch: Choice, c: string)
    requires OwnChecksums(job)
    ensures ObjectStays(job, st.disk.objects, Apply(job, st, ch).disk.objects, c)
  {
    if !Enabled(job, st, ch) || Quiet(ch) {
      QuietStep(job, st, ch);
    } else {
      match ch {
        case DoFetch(d, x) => FetchObject(job, st, d, x, c);
        case DoLink(d, link) => LinkStep(job, st, d, link);
        case DoStamp(d, stamp) => StampStep(job, st, d, stamp);
      }
    }
  }

  /** However far a run gets, no object leaves the store, and those of other checksums stay as they are. */
  lemma {:induction false} AlwaysStays(job: Job, choices: seq<Choice>, c: string)
    requires ProperJob(job) && OwnChecksums(job)
    ensures ObjectStays(job, job.start.objects, Exec(job, choices).disk.objects, c)
  {
    if choices != [] {
      AlwaysStays(job, choices[..|choices| - 1], c);
      StepObject(job, Exec(job, choices[..|choices| - 1]), choices[|choices| - 1], c);
    }
  }

  lemma OnlyLinksTouch(job: Job, st: State, ch: Choice)
    requires !Enabled(job, st, ch) || !ch.DoLink?
    ensures var t := Apply(job, st, ch);
            t.disk.target == st.disk.target && t.disk.dirs == st.disk.dirs && t.linked == st.linked
  {
    if !Enabled(job, st, ch) || Quiet(ch) {
      QuietStep(job, st, ch);
    } else {
      match ch {
        case DoFetch(c, x) => FetchStep(job, st, c, x);
        case DoStamp(c, stamp) => StampStep(job, st, c, stamp);
      }
    }
  }

  lemma StepTarget(job: Job, st: State, ch: Choice, p: string)
    requires !Planned(job, p)
    ensures SameSpot(Apply(job, st, ch).disk.target, st.disk.target, p)
  {
    if Enabled(job, st, ch) && ch.DoLink? {
      LinkStep(job, st, ch.c, ch.link);
      assert InGroup(job.groups[ch.c], job.groups[ch.c][st.linked[ch.c]].path);
    } else {
      OnlyLinksTouch(job, st, ch);
    }
  }

  /** However far a run gets and whatever the plan, paths outside the plan are not touched. */
  lemma {:induction false} OnlyPlannedChange(job: Job, choices: seq<Choice>, p: string)
    requires ProperJob(job) && !Planned(job, p)
    ensures SameSpot(Exec(job, choices).disk.target, job.start.target, p)
  {
    if choices != [] {
      OnlyPlannedChange(job, choices[..|choices| - 1], p);
      StepTarget(job, Exec(job, choices[..|choices| - 1]), choices[|choices| - 1], p);
    }
  }

  /** At any moment of any run a planned path is as it was, or is missing, or is a link to exactly the content it
      should have. */
  lemma AnyMoment(job: Job, choices: seq<Choice>, c: string, j: nat)
    requires GoodJob(job) && c in job.groups && j < |job.groups[c]|
    ensures var disk, p := Exec(job, choices).disk, job.groups[c][j].path;
            Untouched(disk.target, job.start.target, p)
              || (p in disk.target && disk.target[p] == Link(c) && TrueObject(job, disk.objects, c))
  {
    var st := Exec(job, choices);
    AlwaysInv(job, choices);
    AlwaysNamed(job, choices);
    GoodJobGroup(job, c);
    GroupMoment(job, st, c, j) by { assert Local(job, st, c); }
  }

  predicate TrueObject(job: Job, objects: map<string, Obj>, c: string)
  {
    c in objects && c in job.truth && objects[c].content == job.truth[c]
  }

  lemma GroupMoment(job: Job, st: State, c: string, j: nat)
    requires GoodGroup(job, c) && Local(job, st, c) && Named(job.hash, st.disk.objects) && j < |job.groups[c]|
    ensures var p := job.groups[c][j].path;
            || Untouched(st.disk.target, job.start.target, p)
            || (p in st.disk.target && st.disk.target[p] == Link(c) && TrueObject(job, st.disk.objects, c))
  {
  }

  lemma EnabledTruth(job: Job, truth: map<string, Content>, st: State, ch: Choice)
    ensures Enabled(job.(truth := truth), st, ch) == Enabled(job, st, ch)
  {
  }

  lemma FetchTruth(job: Job, truth: map<string, Content>, st: State, c: string, x: Exchange)
    requires c in job.groups && job.groups[c] != []
    ensures AfterFetch(job.(truth := truth), st, c, x) == AfterFetch(job, st, c, x)
  {
  }

  lemma StepTruth(job: Job, truth: map<string, Content>, st: State, ch: Choice)
    ensures Apply(job.(truth := truth), st, ch) == Apply(job, st, ch)
  {
    EnabledTruth(job, truth, st, ch);
    if Enabled(job, st, ch) {
      match ch {
        case DoFetch(c, x) => FetchTruth(job, truth, st, c, x);
        case _ =>
      }
    }
  }

  /** The program does not depend on what the checksums stand for. */
  lemma {:induction false} TruthUnused(job: Job, truth: map<string, Content>, choices: seq<Choice>)
    ensures Exec(job.(truth := truth), choices) == Exec(job, choices)
  {
    if choices != [] {
      TruthUnused(job, truth, choices[..|choices| - 1]);
      StepTruth(job, truth, Exec(job, choices[..|choices| - 1]), choices[|choices| - 1]);
    }
  }

  /* ------------------------------------------------------------------ how many at once, and how few after an error */

  lemma ExecNext(job: Job, choices: seq<Choice>, ch: Choice)
    ensures Exec(job, choices + [ch]) == Apply(job, Exec(job, choices), ch)
  {
    assert (choices + [ch])[..|choices|] == choices;
  }

  /** The loop has started the first n groups, and none of them has got anywhere yet. */
  ghost predicate Started(job: Job, st: State, n: nat)
    requires n <= |job.checksums|
  {
    && |st.live| == n && st.todo == job.checksums[n..] && !st.waiting && !st.broke && !st.cancelled
    && forall c :: c in st.live <==> c in job.checksums[..n]
  }

  lemma ChecksThenSpawns(job: Job, st: State)
    requires st.todo != [] && !st.waiting && !st.broke && !st.cancelled && |st.live| < job.limit
    ensures Apply(job, Apply(job, st, Check), Spawn) == AfterSpawn(st)
  {
  }

  lemma OneMore<T>(m: map<string, T>, c: string, x: T)
    requires c !in m
    ensures |m[c := x]| == |m| + 1
  {
    assert m[c := x].Keys == m.Keys + {c};
    assert |m[c := x]| == |m[c := x].Keys| && |m| == |m.Keys|;
  }

  lemma StartedNext(job: Job, st: State, n: nat)
    requires Distinct(job.checksums) && n < |job.checksums| && Started(job, st, n)
    ensures Started(job, AfterSpawn(st), n + 1)
  {
    var c := job.checksums[n];
    assert st.todo[0] == c && st.todo[1..] == job.checksums[n + 1..];
    assert c !in job.checksums[..n];
    assert job.checksums[..n + 1] == job.checksums[..n] + [c];
    OneMore(st.live, c, Worker(Fetching, 0));
  }

  /** As many workers as the limit and the groups allow can be at work at the same time. */
  lemma {:induction false} ManyAtOnce(job: Job, n: nat) returns (choices: seq<Choice>)
    requires GoodJob(job) && n <= job.limit && n <= |job.checksums|
    ensures Started(job, Exec(job, choices), n) && |Exec(job, choices).live| == n
  {
    choices := [];
    if n > 0 {
      choices := ManyAtOnce(job, n - 1);
      StartedNext(job, Exec(job, choices), n - 1);
      ChecksThenSpawns(job, Exec(job, choices));
      ExecNext(job, choices, Check);
      ExecNext(job, choices + [Check], Spawn);
      choices := choices + [Check] + [Spawn];
    }
  }

  /** The groups that are still to be started, but for the one the loop has already looked at. */
  function Unstarted(st: State): int
  {
    |st.todo| - if st.waiting then 1 else 0
  }

  lemma CancelledStep(job: Job, st: State, ch: Choice)
    requires st.cancelled
    ensures Apply(job, st, ch).cancelled && Unstarted(Apply(job, st, ch)) >= Unstarted(st)
  {
    if Enabled(job, st, ch) {
      match ch {
        case Check =>
        case Spawn =>
        case Cancel =>
        case DoFetch(c, x) => SettlesInPlace(st, c, Fetch(job.hash, st.disk, job.groups[c][0], x).0,
          Fetch(job.hash, st.disk, job.groups[c][0], x).1);
        case DoLink(c, link) => LinksInPlace(job, st, c, link);
        case DoStamp(c, stamp) => StampsInPlace(job, st, c, stamp);
        case DoAccount(c) =>
        case DoExit(c) =>
      }
    }
  }

  lemma SettlesInPlace(st: State, c: string, disk: Disk, r: Option<nat>)
    ensures SameLoop(st, Settle(st, c, disk, r)) && (st.cancelled ==> Settle(st, c, disk, r).cancelled)
  {
  }

  lemma LinksInPlace(job: Job, st: State, c: string, link: LinkEnd)
    requires Enabled(job, st, DoLink(c, link))
    ensures SameLoop(st, AfterLink(job, st, c, link)) && (st.cancelled ==> AfterLink(job, st, c, link).cancelled)
  {
  }

  lemma StampsInPlace(job: Job, st: State, c: string, stamp: StampEnd)
    requires Enabled(job, st, DoStamp(c, stamp))
    ensures SameLoop(st, AfterStamp(job, st, c, stamp)) && (st.cancelled ==> AfterStamp(job, st, c, stamp).cancelled)
  {
  }

  /** Once the context is cancelled, by an error or from outside, no group is started but the one the loop has already
      looked at. */
  lemma {:induction false} FewAfterError(job: Job, choices: seq<Choice>, more: seq<Choice>)
    requires Exec(job, choices).cancelled
    ensures var end := Exec(job, choices + more);
            end.cancelled && Unstarted(end) >= Unstarted(Exec(job, choices))
  {
    if more == [] {
      assert choices + more == choices;
    } else {
      var init, ch := more[..|more| - 1], more[|more| - 1];
      FewAfterError(job, choices, init);
      assert choices + more == (choices + init) + [ch];
      ExecNext(job, choices + init, ch);
      CancelledStep(job, Exec(job, choices + init), ch);
    }
  }
}
