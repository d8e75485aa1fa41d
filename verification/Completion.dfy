/** When the downloads of a plan can come to a good end, and that all good ends are the same. */
module Completion {
  import opened Options
  import opened Manifest
  import opened Store
  import opened Parallel
  import opened ParallelRuns
  import opened Directories

  /* ------------------------------------------------------------------ the downloads of an honest server */

  /** The exchange is one with a server that answers for the true content, given the part file that is there. */
  predicate HonestAt(job: Job, st: State, ch: Choice)
  {
    Enabled(job, st, ch) && ch.DoFetch? && ch.c in job.truth ==> Honest(job.truth[ch.c], |Part(st.disk, ch.c)|, ch.x)
  }

  ghost predicate HonestRun(job: Job, choices: seq<Choice>)
  {
    forall i | 0 <= i < |choices| :: HonestAt(job, Exec(job, choices[..i]), choices[i])
  }

  /** The object is there at the right size, or what is left of an earlier attempt can be continued. */
  predicate Fetchable(job: Job, c: string)
  {
    && c in job.groups && job.groups[c] != [] && c in job.truth
    && (Cached(job.start.objects, job.groups[c][0]) || job.truth[c] == [] || Part(job.start, c) < job.truth[c])
  }

  predicate Waiting(st: State, c: string)
  {
    c in st.todo || At(st, c, Fetching)
  }

  predicate Passed(st: State, c: string)
  {
    At(st, c, Linking) || At(st, c, Stamping) || At(st, c, Accounting) || c in st.done
  }

  predicate SamePart(a: map<string, Content>, b: map<string, Content>, c: string)
  {
    (c in a <==> c in b) && (c in a ==> a[c] == b[c])
  }

  /** A part file is what it was until its download, which only succeeds when it can, and then leaves none. */
  predicate Fetched(job: Job, st: State, c: string)
    requires c in job.groups && job.groups[c] != [] && c in job.truth
  {
    && (Waiting(st, c) ==> SamePart(st.disk.parts, job.start.parts, c))
    && (Passed(st, c) ==>
          && Fetchable(job, c)
          && if Cached(job.start.objects, job.groups[c][0]) then SamePart(st.disk.parts, job.start.parts, c)
               else c !in st.disk.parts)
  }

  lemma OnlyFetchesPart(job: Job, st: State, ch: Choice)
    requires !Enabled(job, st, ch) || !ch.DoFetch?
    ensures Apply(job, st, ch).disk.parts == st.disk.parts
  {
    if !Enabled(job, st, ch) || Quiet(ch) {
      QuietStep(job, st, ch);
    } else {
      match ch {
        case DoLink(c, link) => LinkStep(job, st, c, link);
        case DoStamp(c, stamp) => StampStep(job, st, c, stamp);
      }
    }
  }

  lemma OtherPart(job: Job, st: State, d: string, x: Exchange, c: string)
    requires d in job.groups && job.groups[d] != [] && job.groups[d][0].checksum != c
    ensures SamePart(AfterFetch(job, st, d, x).disk.parts, st.disk.parts, c)
  {
    FetchStep(job, st, d, x);
  }

  lemma AsideStages(job: Job, st: State, t: State, c: string)
    requires c in job.groups && Aside(job, st, t, c)
    ensures (Waiting(t, c) <==> Waiting(st, c)) && (Passed(t, c) <==> Passed(st, c))
  {
  }

  /** Apart from its own download no step takes a checksum from waiting to passed. */
  predicate StagesKept(st: State, t: State, c: string)
  {
    (Waiting(t, c) ==> Waiting(st, c)) && (Passed(t, c) ==> Passed(st, c))
  }

  lemma SpawnStages(st: State, c: string)
    requires st.todo != [] && st.todo[0] == c && c !in st.done
    ensures StagesKept(st, AfterSpawn(st), c)
  {
  }

  lemma LinkStages(job: Job, st: State, c: string, link: LinkEnd)
    requires CanLink(job, st, c) && At(st, c, Linking) && c !in st.todo
    ensures StagesKept(st, AfterLink(job, st, c, link), c)
  {
    LinkStep(job, st, c, link);
  }

  lemma StampStages(job: Job, st: State, c: string, stamp: StampEnd)
    requires CanStamp(job, st, c) && At(st, c, Stamping) && c !in st.todo
    ensures StagesKept(st, AfterStamp(job, st, c, stamp), c)
  {
  }

  lemma EndStages(job: Job, st: State, c: string)
    requires c in job.groups && c in st.live && c !in st.todo
    ensures At(st, c, Accounting) ==> StagesKept(st, AfterAccount(job, st, c), c)
    ensures At(st, c, Exiting) ==> StagesKept(st, AfterExit(st, c), c)
  {
  }

  lemma OwnStages(job: Job, st: State, ch: Choice, c: string)
    requires c in job.groups && Placement(st, c) && Enabled(job, st, ch) && !ch.DoFetch? && ByWorker(ch, c)
    ensures StagesKept(st, Apply(job, st, ch), c)
  {
    match ch {
      case DoLink(_, link) => LinkStages(job, st, c, link);
      case DoStamp(_, stamp) => StampStages(job, st, c, stamp);
      case DoAccount(_) => EndStages(job, st, c);
      case DoExit(_) => EndStages(job, st, c);
    }
  }

  lemma MainStages(job: Job, st: State, ch: Choice, c: string)
    requires ch.Check? || ch.Cancel?
    ensures StagesKept(st, Apply(job, st, ch), c)
  {
  }

  lemma AsideFetched(job: Job, st: State, t: State, c: string)
    requires c in job.groups && job.groups[c] != [] && c in job.truth && Fetched(job, st, c)
    requires StagesKept(st, t, c) && SamePart(t.disk.parts, st.disk.parts, c)
    ensures Fetched(job, t, c)
  {
  }

  lemma FetchSucceeds(job: Job, st: State, c: string, x: Exchange)
    requires GoodGroup(job, c) && SameObject(st.disk.objects, job.start.objects, c)
    requires SamePart(st.disk.parts, job.start.parts, c)
    requires Honest(job.truth[c], |Part(st.disk, c)|, x)
    ensures var (d, r) := Fetch(job.hash, st.disk, job.groups[c][0], x);
            && (r.Some? ==> Fetchable(job, c))
            && (r.Some? ==>
                   if Cached(job.start.objects, job.groups[c][0]) then d.parts == st.disk.parts else c !in d.parts)
            && (Fetchable(job, c) && x.Reply? && x.fault == NoFault ==> r.Some?)
  {
    var e := job.groups[c][0];
    if !Cached(st.disk.objects, e) && x.Reply? && x.fault == NoFault {
      ResumeExact(job.hash, st.disk, e, job.truth[c], x);
    }
  }

  lemma OwnFetched(job: Job, st: State, c: string, x: Exchange)
    requires GoodGroup(job, c) && Local(job, st, c) && At(st, c, Fetching) && Fetched(job, st, c)
    requires Honest(job.truth[c], |Part(st.disk, c)|, x)
    ensures Fetched(job, AfterFetch(job, st, c, x), c)
  {
    var out := Fetch(job.hash, st.disk, job.groups[c][0], x);
    FetchSucceeds(job, st, c, x);
    SettleFetched(job, st, c, out.0, out.1);
  }

  lemma SettleFetched(job: Job, st: State, c: string, disk: Disk, r: Option<nat>)
    requires GoodGroup(job, c) && Placement(st, c) && At(st, c, Fetching)
    requires r.Some? ==> Fetchable(job, c)
    requires r.Some? ==> if Cached(job.start.objects, job.groups[c][0])
               then SamePart(disk.parts, job.start.parts, c) else c !in disk.parts
    ensures Fetched(job, Settle(st, c, disk, r), c)
  {
  }

  ghost predicate AllFetched(job: Job, st: State)
    requires GoodJob(job)
  {
    forall c :: c in job.groups ==> Fetched(job, st, c)
  }

  lemma WorkerFetched(job: Job, st: State, ch: Choice, d: string, c: string)
    requires GoodJob(job) && Inv(job, st) && Enabled(job, st, ch) && ByWorker(ch, d) && HonestAt(job, st, ch)
    requires c in job.groups && Fetched(job, st, c)
    ensures Fetched(job, Apply(job, st, ch), c)
  {
    WorkerInv(job, st, ch, d);
    GoodJobGroup(job, c);
    GoodJobGroup(job, d);
    assert Local(job, st, c);
    if ch.DoFetch? {
      if c == d {
        OwnFetched(job, st, c, ch.x);
      } else {
        OtherPart(job, st, d, ch.x, c);
        AsideStages(job, st, Apply(job, st, ch), c);
        AsideFetched(job, st, Apply(job, st, ch), c);
      }
    } else {
      OnlyFetchesPart(job, st, ch);
      if c == d { OwnStages(job, st, ch, c); } else { AsideStages(job, st, Apply(job, st, ch), c); }
      AsideFetched(job, st, Apply(job, st, ch), c);
    }
  }

  lemma MainFetched(job: Job, st: State, ch: Choice, c: string)
    requires GoodJob(job) && Inv(job, st) && Enabled(job, st, ch) && (ch.Check? || ch.Cancel? || ch.Spawn?)
    requires c in job.groups && Fetched(job, st, c)
    ensures Fetched(job, Apply(job, st, ch), c)
  {
    GoodJobGroup(job, c);
    OnlyFetchesPart(job, st, ch);
    if ch.Spawn? {
      SpawnInv(job, st);
      assert Local(job, st, c);
      if c == st.todo[0] { SpawnStages(st, c); } else { AsideStages(job, st, AfterSpawn(st), c); }
    } else {
      MainStages(job, st, ch, c);
    }
    AsideFetched(job, st, Apply(job, st, ch), c);
  }

  lemma StepFetched(job: Job, st: State, ch: Choice, c: string)
    requires GoodJob(job) && Inv(job, st) && HonestAt(job, st, ch) && c in job.groups && Fetched(job, st, c)
    ensures Fetched(job, Apply(job, st, ch), c)
  {
    if Enabled(job, st, ch) {
      if ch.Check? || ch.Cancel? || ch.Spawn? {
        MainFetched(job, st, ch, c);
      } else {
        WorkerFetched(job, st, ch, ch.c, c);
      }
    }
  }

  lemma {:induction false} AlwaysFetched(job: Job, choices: seq<Choice>)
    requires GoodJob(job) && HonestRun(job, choices)
    ensures AllFetched(job, Exec(job, choices))
  {
    if choices == [] {
      forall c | c in job.groups ensures Fetched(job, Initial(job), c) {
        GoodJobGroup(job, c);
      }
    } else {
      var init := choices[..|choices| - 1];
      HonestPrefix(job, choices);
      AlwaysFetched(job, init);
      AlwaysInv(job, init);
      forall c | c in job.groups ensures Fetched(job, Exec(job, choices), c) {
        StepFetched(job, Exec(job, init), choices[|choices| - 1], c);
      }
    }
  }

  lemma HonestPrefix(job: Job, choices: seq<Choice>)
    requires choices != [] && HonestRun(job, choices)
    ensures HonestRun(job, choices[..|choices| - 1])
    ensures HonestAt(job, Exec(job, choices[..|choices| - 1]), choices[|choices| - 1])
  {
    var init := choices[..|choices| - 1];
    forall i | 0 <= i < |init| ensures HonestAt(job, Exec(job, init[..i]), init[i]) {
      assert init[..i] == choices[..i] && init[i] == choices[i];
    }
  }

  lemma HonestMore(job: Job, choices: seq<Choice>, ch: Choice)
    requires HonestRun(job, choices) && HonestAt(job, Exec(job, choices), ch)
    ensures HonestRun(job, choices + [ch])
  {
    var more := choices + [ch];
    forall i | 0 <= i < |more| ensures HonestAt(job, Exec(job, more[..i]), more[i]) {
      if i < |choices| {
        assert more[..i] == choices[..i] && more[i] == choices[i];
      } else {
        assert more[..i] == choices;
      }
    }
  }

  /* ------------------------------------------------------------------ what stands in the way is never overcome */

  ghost predicate Occupied(job: Job, p: string)
  {
    p in job.start.target || Planned(job, p)
  }

  /** No planned path lies above or below a file of the target or another planned path, and no directory lies below
      one. */
  ghost predicate Unobstructed(job: Job)
  {
    && (forall p, q :: Occupied(job, p) && Planned(job, q) ==> !Conflict(p, q))
    && (forall a, q :: a in job.start.dirs && Planned(job, q) ==> !(q + "/" <= a))
  }

  lemma OccupiedPresent(job: Job, disk: Disk, p: string)
    requires Mirrored(job, disk) && Occupied(job, p)
    ensures p in disk.target
  {
    if Planned(job, p) {
      var c :| c in job.groups && InGroup(job.groups[c], p);
      var j :| 0 <= j < |job.groups[c]| && job.groups[c][j].path == p;
      assert job.groups[c][j].path in disk.target;
    } else {
      assert SameSpot(disk.target, job.start.target, p);
    }
  }

  lemma CompleteLinked(job: Job, choices: seq<Choice>, q: string)
    requires GoodJob(job) && Complete(job, Exec(job, choices)) && Planned(job, q)
    ensures LinkedWell(Exec(job, choices).disk, q)
  {
    var st := Exec(job, choices);
    AlwaysInv(job, choices);
    AlwaysShaped(job, choices);
    var c :| c in job.groups && InGroup(job.groups[c], q);
    var j :| 0 <= j < |job.groups[c]| && job.groups[c][j].path == q;
    assert IsLinked(job, st.linked, c, j) by { assert Local(job, st, c) && c in st.done; }
  }

  /** A schedule that promotes everything shows that nothing was in the way. */
  lemma CompleteUnobstructed(job: Job, choices: seq<Choice>)
    requires GoodJob(job) && Final(Exec(job, choices)) && Complete(job, Exec(job, choices))
    ensures Unobstructed(job)
  {
    var st := Exec(job, choices);
    CompleteOutcome(job, choices);
    AlwaysDirs(job, choices);
    forall p, q | Occupied(job, p) && Planned(job, q) ensures !Conflict(p, q) {
      OccupiedPresent(job, st.disk, p);
      CompleteLinked(job, choices, q);
    }
    forall a, q | a in job.start.dirs && Planned(job, q) ensures !(q + "/" <= a) {
      CompleteLinked(job, choices, q);
      if Planned(job, a) { CompleteLinked(job, choices, a); }
    }
  }

  lemma CompleteFetchable(job: Job, choices: seq<Choice>, c: string)
    requires GoodJob(job) && HonestRun(job, choices) && Complete(job, Exec(job, choices)) && c in job.groups
    ensures Fetchable(job, c)
  {
    AlwaysFetched(job, choices);
    assert Fetched(job, Exec(job, choices), c);
  }

  /* ------------------------------------------------------------------ all good ends are the same */

  /** The directories at a good end are those of the start that no link replaced, and those above the planned paths. */
  lemma EndDirs(job: Job, choices: seq<Choice>, a: string)
    requires GoodJob(job) && Final(Exec(job, choices)) && Complete(job, Exec(job, choices))
    ensures a in Exec(job, choices).disk.dirs <==> (a in job.start.dirs && !Planned(job, a)) || AbovePlanned(job, a)
  {
    AlwaysDirs(job, choices);
    if Planned(job, a) { CompleteLinked(job, choices, a); }
    if p :| Planned(job, p) && a in Ancestors(p) {
      CompleteLinked(job, choices, p);
    }
  }

  /** All schedules that end without an error and without outside cancellation end with the same target, directories,
      objects and counters. */
  lemma SchedulesAgree(job: Job, one: seq<Choice>, two: seq<Choice>)
    requires GoodJob(job)
    requires Final(Exec(job, one)) && !Exec(job, one).err && !Exec(job, one).external
    requires Final(Exec(job, two)) && !Exec(job, two).err && !Exec(job, two).external
    ensures var a, b := Exec(job, one), Exec(job, two);
            && a.disk.target == b.disk.target && a.disk.dirs == b.disk.dirs && a.disk.objects == b.disk.objects
            && a.downloaded == b.downloaded && a.bytes == b.bytes
  {
    CompleteExactly(job, one);
    CompleteExactly(job, two);
    CompleteOutcome(job, one);
    CompleteOutcome(job, two);
    MirroredUnique(job, Exec(job, one).disk, Exec(job, two).disk);
    forall a ensures a in Exec(job, one).disk.dirs <==> a in Exec(job, two).disk.dirs {
      EndDirs(job, one, a);
      EndDirs(job, two, a);
    }
  }

  /* ------------------------------------------------------------------ otherwise the run can always be finished */

  /** All a good end needs, and all of it can be looked up before the downloads start. */
  ghost predicate Completable(job: Job)
  {
    Unobstructed(job) && forall c :: c in job.groups ==> Fetchable(job, c)
  }

  /** The answer of an honest server, delivered in full. */
  function FullReply(content: Content, offset: nat): Exchange
  {
    Reply(Serve(content, offset).0, Serve(content, offset).1, NoFault, 0)
  }

  predicate Untroubled(st: State)
  {
    !st.err && !st.cancelled && !st.external
  }

  lemma SettleUntroubled(st: State, c: string, disk: Disk, r: Option<nat>)
    requires Untroubled(st) && r.Some?
    ensures Untroubled(Settle(st, c, disk, r))
  {
  }

  lemma TargetOccupied(job: Job, st: State, p: string)
    requires Frame(job, st) && p in st.disk.target
    ensures Occupied(job, p)
  {
    if !Planned(job, p) {
      assert SameSpot(st.disk.target, job.start.target, p);
    }
  }

  lemma UnobstructedPlaces(job: Job, st: State, c: string, i: nat)
    requires Unobstructed(job) && Frame(job, st) && DirsKept(job, st.disk.dirs) && c in job.groups
    requires i < |job.groups[c]|
    ensures CanPlace(st.disk, job.groups[c][i].path)
  {
    var path := job.groups[c][i].path;
    assert InGroup(job.groups[c], path);
    assert Planned(job, path);
    forall p | p in st.disk.target ensures !Conflict(p, path) {
      TargetOccupied(job, st, p);
    }
    forall a | a in st.disk.dirs ensures !(path + "/" <= a) {
      if a !in job.start.dirs && path + "/" <= a {
        var p :| Planned(job, p) && a in Ancestors(p);
        AboveAbove(path, a, p);
        assert Occupied(job, p) && Conflict(p, path);
      }
    }
  }

  lemma FetchCanGoOn(job: Job, st: State, c: string) returns (ch: Choice)
    requires GoodGroup(job, c) && Local(job, st, c) && At(st, c, Fetching) && Untroubled(st)
    requires Fetched(job, st, c) && Fetchable(job, c)
    ensures Enabled(job, st, ch) && HonestAt(job, st, ch) && Untroubled(Apply(job, st, ch))
  {
    var x := FullReply(job.truth[c], |Part(st.disk, c)|);
    ch := DoFetch(c, x);
    FetchSucceeds(job, st, c, x);
    var out := Fetch(job.hash, st.disk, job.groups[c][0], x);
    SettleUntroubled(st, c, out.0, out.1);
  }

  lemma WorkerCanGoOn(job: Job, st: State, c: string) returns (ch: Choice)
    requires GoodGroup(job, c) && Local(job, st, c) && c in st.live && Untroubled(st)
    requires Fetched(job, st, c) && Fetchable(job, c)
    requires forall i | 0 <= i < |job.groups[c]| :: CanPlace(st.disk, job.groups[c][i].path)
    ensures Enabled(job, st, ch) && HonestAt(job, st, ch) && Untroubled(Apply(job, st, ch))
  {
    match st.live[c].pc {
      case Fetching => ch := FetchCanGoOn(job, st, c);
      case Linking => ch := DoLink(c, LinkOk);
      case Stamping => ch := DoStamp(c, StampOk);
      case Accounting => ch := DoAccount(c);
      case Exiting => ch := DoExit(c);
    }
  }

  lemma CanGoOn(job: Job, st: State) returns (ch: Choice)
    requires GoodJob(job) && Inv(job, st) && DirsKept(job, st.disk.dirs) && AllFetched(job, st)
    requires Completable(job) && Untroubled(st) && !Final(st)
    ensures Enabled(job, st, ch) && HonestAt(job, st, ch) && Untroubled(Apply(job, st, ch))
  {
    if st.live != map[] {
      var c :| c in st.live.Keys;
      assert Local(job, st, c);
      GoodJobGroup(job, c);
      forall i | 0 <= i < |job.groups[c]| ensures CanPlace(st.disk, job.groups[c][i].path) {
        UnobstructedPlaces(job, st, c, i);
      }
      ch := WorkerCanGoOn(job, st, c);
    } else {
      ch := if st.waiting then Spawn else Check;
    }
  }

  /** From every point of every honest schedule without trouble so far, a completable run can be brought to a good
      end. */
  lemma {:induction false} CanFinish(job: Job, choices: seq<Choice>) returns (all: seq<Choice>)
    requires GoodJob(job) && Apart(job.start)
    requires Completable(job) && HonestRun(job, choices) && Untroubled(Exec(job, choices))
    ensures choices <= all && HonestRun(job, all)
    ensures Final(Exec(job, all)) && Untroubled(Exec(job, all)) && Complete(job, Exec(job, all))
    decreases Remaining(job, Exec(job, choices))
  {
    var st := Exec(job, choices);
    if Final(st) {
      CompleteExactly(job, choices);
      all := choices;
    } else {
      var ch := NextChoice(job, choices);
      HonestMore(job, choices, ch);
      assert (choices + [ch])[..|choices|] == choices;
      all := CanFinish(job, choices + [ch]);
    }
  }

  lemma NextChoice(job: Job, choices: seq<Choice>) returns (ch: Choice)
    requires GoodJob(job) && Completable(job) && HonestRun(job, choices)
    requires Untroubled(Exec(job, choices)) && !Final(Exec(job, choices))
    ensures var st := Exec(job, choices);
            && HonestAt(job, st, ch) && Untroubled(Apply(job, st, ch))
            && Remaining(job, Apply(job, st, ch)) < Remaining(job, st)
  {
    AlwaysInv(job, choices);
    AlwaysDirs(job, choices);
    AlwaysFetched(job, choices);
    ch := CanGoOn(job, Exec(job, choices));
    StepDecreases(job, Exec(job, choices), ch);
  }

  ghost predicate Promotes(job: Job, choices: seq<Choice>)
  {
    HonestRun(job, choices) && Final(Exec(job, choices)) && Complete(job, Exec(job, choices))
  }

  /** With an honest server some schedule promotes every planned entry exactly when nothing obstructs a planned path and
      every planned object is there already, empty, or left from earlier attempts as nothing or a strict prefix. */
  lemma CompletesExactly(job: Job)
    requires GoodJob(job) && Apart(job.start)
    ensures (exists choices :: Promotes(job, choices)) <==> Completable(job)
  {
    if choices :| Promotes(job, choices) {
      CompleteUnobstructed(job, choices);
      forall c | c in job.groups ensures Fetchable(job, c) {
        CompleteFetchable(job, choices, c);
      }
    }
    if Completable(job) {
      assert Exec(job, []) == Initial(job);
      var all := CanFinish(job, []);
      assert Promotes(job, all);
    }
  }

  /* ------------------------------------------------------------------ no trouble at the end, none on the way */

  lemma SettleTrouble(st: State, c: string, disk: Disk, r: Option<nat>)
    ensures Untroubled(Settle(st, c, disk, r)) ==> Untroubled(st)
  {
  }

  lemma LinkTrouble(job: Job, st: State, c: string, link: LinkEnd)
    requires CanLink(job, st, c)
    ensures Untroubled(AfterLink(job, st, c, link)) ==> Untroubled(st)
  {
  }

  lemma StampTrouble(job: Job, st: State, c: string, stamp: StampEnd)
    requires CanStamp(job, st, c)
    ensures Untroubled(AfterStamp(job, st, c, stamp)) ==> Untroubled(st)
  {
  }

  lemma StepTrouble(job: Job, st: State, ch: Choice)
    ensures Untroubled(Apply(job, st, ch)) ==> Untroubled(st) && ch != Cancel
  {
    if Enabled(job, st, ch) {
      match ch {
        case DoFetch(c, x) =>
          var out := Fetch(job.hash, st.disk, job.groups[c][0], x);
          SettleTrouble(st, c, out.0, out.1);
        case DoLink(c, link) => LinkTrouble(job, st, c, link);
        case DoStamp(c, stamp) => StampTrouble(job, st, c, stamp);
        case _ =>
      }
    }
  }

  /** An untroubled schedule was not cancelled from outside. */
  lemma {:induction false} UntroubledUncancelled(job: Job, choices: seq<Choice>)
    requires Untroubled(Exec(job, choices))
    ensures Cancel !in choices
  {
    if choices != [] {
      var init, ch := choices[..|choices| - 1], choices[|choices| - 1];
      assert choices == init + [ch];
      StepTrouble(job, Exec(job, init), ch);
      UntroubledUncancelled(job, init);
    }
  }
}
