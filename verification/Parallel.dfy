/** downloadAll: one worker per checksum, a semaphore, shared counters and a first error, over every interleaving. */
module Parallel {
  import opened Options
  import opened Manifest
  import opened FileTree
  import opened Store

  /** The planned downloads grouped by checksum, in the order the loop starts them. `truth` names the content
      each checksum stands for; it is not known to the program. */
  datatype Job = Job(hash: Hash, checksums: seq<string>, groups: map<string, seq<Entry>>, limit: nat, start: Disk,
                     truth: map<string, Content>)

  datatype PC = Fetching | Linking | Stamping | Accounting | Exiting

  datatype Worker = Worker(pc: PC, written: nat)

  /** `linked[c]` counts the links of group c made so far; `log` records each link made, as group and position. */
  datatype State = State(
    disk: Disk,
    todo: seq<string>,
    waiting: bool,
    broke: bool,
    live: map<string, Worker>,
    done: set<string>,
    failed: set<string>,
    linked: map<string, nat>,
    log: multiset<(string, nat)>,
    downloaded: nat,
    bytes: nat,
    err: bool,
    cancelled: bool,
    external: bool)

  datatype LinkEnd = LinkOk | LinkErr(depth: nat, removed: bool)
  datatype StampEnd = StampOk | ChmodErr | ChtimesErr

  datatype Choice =
    | Check
    | Spawn
    | Cancel
    | DoFetch(c: string, x: Exchange)
    | DoLink(c: string, link: LinkEnd)
    | DoStamp(c: string, stamp: StampEnd)
    | DoAccount(c: string)
    | DoExit(c: string)

  predicate Distinct(cs: seq<string>)
  {
    forall i, j | 0 <= i < j < |cs| :: cs[i] != cs[j]
  }

  predicate PathsApart(a: seq<Entry>, b: seq<Entry>)
  {
    forall i, j | 0 <= i < |a| && 0 <= j < |b| :: a[i].path != b[j].path
  }

  /** Every planned path is one below the target, outside the client's own directories. */
  ghost predicate ProperJob(job: Job)
  {
    forall c, i :: c in job.groups && 0 <= i < |job.groups[c]| ==> Proper(job.groups[c][i].path)
  }

  ghost predicate GoodJob(job: Job)
  {
    && ProperJob(job)
    && Distinct(job.checksums) && (forall c :: c in job.checksums <==> c in job.groups) && job.limit > 0
    && (forall c :: c in job.groups ==> job.groups[c] != [] && DistinctPaths(job.groups[c]))
    && (forall c, i :: c in job.groups && 0 <= i < |job.groups[c]| ==> job.groups[c][i].checksum == c)
    && (forall c, d :: c in job.groups && d in job.groups && c != d ==> PathsApart(job.groups[c], job.groups[d]))
    && Named(job.hash, job.start.objects)
    && (forall c ::
          c in job.groups ==>
            && c in job.truth && job.hash(job.truth[c]) == c && CollisionFree(job.hash, job.truth[c])
            && |job.truth[c]| == job.groups[c][0].size)
  }

  /** What a good job says about one of its checksums. */
  ghost predicate GoodGroup(job: Job, c: string)
  {
    && c in job.groups && c in job.checksums && Distinct(job.checksums)
    && job.groups[c] != [] && DistinctPaths(job.groups[c]) && job.groups[c][0].checksum == c
    && c in job.truth && job.hash(job.truth[c]) == c && CollisionFree(job.hash, job.truth[c])
    && |job.truth[c]| == job.groups[c][0].size
    && (c in job.start.objects ==> job.hash(job.start.objects[c].content) == c)
  }

  lemma GoodJobGroup(job: Job, c: string)
    requires GoodJob(job) && c in job.groups
    ensures GoodGroup(job, c)
  {
  }

  function Initial(job: Job): State
  {
    State(job.start, job.checksums, false, false, map[], {}, {}, map c | c in job.groups :: 0,
          multiset{}, 0, 0, false, false, false)
  }

  predicate At(st: State, c: string, pc: PC)
  {
    c in st.live && st.live[c].pc == pc
  }

  predicate Enabled(job: Job, st: State, ch: Choice)
  {
    match ch
    case Check => !st.waiting && !st.broke && st.todo != []
    case Spawn => st.waiting && st.todo != [] && |st.live| < job.limit
    case Cancel => !st.cancelled
    case DoFetch(c, _) => At(st, c, Fetching) && c in job.groups && job.groups[c] != []
    case DoLink(c, link) =>
      && At(st, c, Linking) && c in job.groups && c in st.linked && st.linked[c] < |job.groups[c]|
      && (link.LinkOk? || link.removed ==> CanPlace(st.disk, job.groups[c][st.linked[c]].path))
    case DoStamp(c, _) => At(st, c, Stamping) && c in job.groups && job.groups[c] != [] && c in st.disk.objects
    case DoAccount(c) => At(st, c, Accounting) && c in job.groups
    case DoExit(c) => At(st, c, Exiting)
  }

  function Fail(st: State, c: string, disk: Disk): State
  {
    st.(disk := disk, live := st.live[c := Worker(Exiting, 0)], failed := st.failed + {c},
        err := true, cancelled := true)
  }

  function Move(st: State, c: string, disk: Disk, pc: PC, written: nat): State
  {
    st.(disk := disk, live := st.live[c := Worker(pc, written)])
  }

  function Settle(st: State, c: string, disk: Disk, r: Option<nat>): State
  {
    match r
    case None => Fail(st, c, disk)
    case Some(n) => Move(st, c, disk, Linking, n)
  }

  /** downloadObject for the representative of the group. */
  function AfterFetch(job: Job, st: State, c: string, x: Exchange): State
    requires c in job.groups && job.groups[c] != []
  {
    var out := Fetch(job.hash, st.disk, job.groups[c][0], x);
    Settle(st, c, out.0, out.1)
  }

  /** Replacing the next path of the group by a link, after which the worker links on or stamps. */
  function AfterLink(job: Job, st: State, c: string, link: LinkEnd): State
    requires c in job.groups && c in st.linked && st.linked[c] < |job.groups[c]| && c in st.live
  {
    var i := st.linked[c];
    var path := job.groups[c][i].path;
    match link
    case LinkErr(depth, removed) => Fail(st, c, Attempted(st.disk, path, depth, removed))
    case LinkOk =>
      Move(st, c, Relinked(st.disk, path, c),
           if i + 1 == |job.groups[c]| then Stamping else Linking, st.live[c].written)
      .(linked := st.linked[c := i + 1], log := st.log + multiset{(c, i)})
  }

  /** chmod, then chtimes, on the shared object. */
  function AfterStamp(job: Job, st: State, c: string, stamp: StampEnd): State
    requires c in job.groups && job.groups[c] != [] && c in st.disk.objects && c in st.live
  {
    var o, first := st.disk.objects[c], job.groups[c][0];
    match stamp
    case ChmodErr => Fail(st, c, st.disk)
    case ChtimesErr => Fail(st, c, st.disk.(objects := st.disk.objects[c := o.(mode := first.mode)]))
    case StampOk => Move(st, c, st.disk.(objects := st.disk.objects[c := Stamped(o, first)]), Accounting,
      st.live[c].written)
  }

  function AfterAccount(job: Job, st: State, c: string): State
    requires c in job.groups && c in st.live
  {
    Move(st, c, st.disk, Exiting, 0)
    .(downloaded := st.downloaded + |job.groups[c]|, bytes := st.bytes + st.live[c].written, done := st.done + {c})
  }

  function AfterExit(st: State, c: string): State
  {
    st.(live := st.live - {c})
  }

  function AfterSpawn(st: State): State
    requires st.todo != []
  {
    st.(waiting := false, todo := st.todo[1..], live := st.live[st.todo[0] := Worker(Fetching, 0)])
  }

  /** One choice; a choice that is not enabled does nothing. */
  function Apply(job: Job, st: State, ch: Choice): State
  {
    if !Enabled(job, st, ch) then st
    else match ch
      case Check => if st.cancelled then st.(broke := true) else st.(waiting := true)
      case Spawn => AfterSpawn(st)
      case Cancel => st.(cancelled := true, external := true)
      case DoFetch(c, x) => AfterFetch(job, st, c, x)
      case DoLink(c, link) => AfterLink(job, st, c, link)
      case DoStamp(c, stamp) => AfterStamp(job, st, c, stamp)
      case DoAccount(c) => AfterAccount(job, st, c)
      case DoExit(c) => AfterExit(st, c)
  }

  /** A schedule. */
  function Exec(job: Job, choices: seq<Choice>): State
  {
    if choices == [] then Initial(job)
    else Apply(job, Exec(job, choices[..|choices| - 1]), choices[|choices| - 1])
  }

  /** The loop is over and every worker has returned. */
  predicate Final(st: State)
  {
    !st.waiting && (st.todo == [] || st.broke) && st.live == map[]
  }

  /* ------------------------------------------------------------------ sums over the planned checksums */

  function Value(m: map<string, nat>, c: string): nat
  {
    if c in m then m[c] else 0
  }

  function Sum(cs: seq<string>, m: map<string, nat>): nat
  {
    if cs == [] then 0 else Value(m, cs[0]) + Sum(cs[1..], m)
  }

  function Only(s: set<string>, m: map<string, nat>): map<string, nat>
  {
    map c | c in m && c in s :: m[c]
  }

  lemma {:induction false} SumSame(cs: seq<string>, m: map<string, nat>, n: map<string, nat>)
    requires forall c :: c in cs ==> Value(m, c) == Value(n, c)
    ensures Sum(cs, m) == Sum(cs, n)
  {
    if cs != [] {
      SumSame(cs[1..], m, n);
    }
  }

  /** Changing the summand of one checksum changes the sum by as much. */
  lemma {:induction false} SumUpdate(cs: seq<string>, m: map<string, nat>, n: map<string, nat>, c: string)
    requires Distinct(cs) && c in cs && forall d :: d in cs && d != c ==> Value(m, d) == Value(n, d)
    ensures Sum(cs, m) + Value(n, c) == Sum(cs, n) + Value(m, c)
  {
    if cs[0] == c {
      forall d | d in cs[1..] ensures d != c {
        var i :| 0 <= i < |cs[1..]| && cs[1..][i] == d;
        assert cs[i + 1] == d;
      }
      SumSame(cs[1..], m, n);
    } else {
      assert c in cs[1..];
      SumUpdate(cs[1..], m, n, c);
    }
  }

  lemma SumAdd(cs: seq<string>, s: set<string>, m: map<string, nat>, c: string)
    requires Distinct(cs) && c in cs && c !in s && c in m
    ensures Sum(cs, Only(s + {c}, m)) == Sum(cs, Only(s, m)) + m[c]
  {
    SumUpdate(cs, Only(s, m), Only(s + {c}, m), c);
  }

  lemma {:induction false} SumZero(cs: seq<string>, m: map<string, nat>)
    requires forall c :: c in cs ==> Value(m, c) == 0
    ensures Sum(cs, m) == 0
  {
    if cs != [] { SumZero(cs[1..], m); }
  }

  function Sizes(job: Job): map<string, nat>
  {
    map c | c in job.groups :: |job.groups[c]|
  }

  /** What a checksum adds to the byte count: nothing when its object was there at the right size, its size
      otherwise. */
  function CostOf(job: Job, c: string): nat
    requires c in job.groups
  {
    if job.groups[c] == [] || Cached(job.start.objects, job.groups[c][0]) then 0 else job.groups[c][0].size
  }

  function Cost(job: Job): map<string, nat>
  {
    map c | c in job.groups :: CostOf(job, c)
  }

  /* ------------------------------------------------------------------ the invariant, checksum by checksum */

  predicate SameObject(a: map<string, Obj>, b: map<string, Obj>, c: string)
  {
    (c in a <==> c in b) && (c in a ==> a[c] == b[c])
  }

  predicate SameSpot(a: map<string, Spot>, b: map<string, Spot>, p: string)
  {
    (p in a <==> p in b) && (p in a ==> a[p] == b[p])
  }

  /** Unstarted, in flight, failed or done: exactly one of them; a worker that has failed or finished only has to
      leave. */
  predicate Placement(st: State, c: string)
  {
    && !(c in st.done && c in st.failed)
    && (c in st.todo ==> c !in st.live && c !in st.done && c !in st.failed)
    && (c in st.live ==> (st.live[c].pc == Exiting <==> c in st.done || c in st.failed))
    && (c in st.todo || c in st.live || c in st.done || c in st.failed)
  }

  predicate Progress(job: Job, st: State, c: string)
    requires c in job.groups
  {
    && c in st.linked && st.linked[c] <= |job.groups[c]|
    && (c in st.todo || At(st, c, Fetching) ==> st.linked[c] == 0)
    && (At(st, c, Linking) ==> st.linked[c] < |job.groups[c]|)
    && (At(st, c, Stamping) || At(st, c, Accounting) || c in st.done ==> st.linked[c] == |job.groups[c]|)
  }

  predicate ObjectState(job: Job, st: State, c: string)
    requires c in job.groups && job.groups[c] != [] && c in job.truth
  {
    && (c in st.todo || At(st, c, Fetching) ==> SameObject(st.disk.objects, job.start.objects, c))
    && (At(st, c, Linking) || At(st, c, Stamping) ==>
           c in st.disk.objects && st.disk.objects[c].content == job.truth[c])
    && (At(st, c, Accounting) || c in st.done ==>
          c in st.disk.objects
          && st.disk.objects[c] == Obj(job.truth[c], job.groups[c][0].mode, job.groups[c][0].mtime))
    && (At(st, c, Linking) || At(st, c, Stamping) || At(st, c, Accounting) ==> st.live[c].written == CostOf(job, c))
    && (c in st.linked && st.linked[c] > 0 ==> c in st.disk.objects)
  }

  /** The paths before `linked[c]` are links to the object; those after it are untouched; the one at it may be
      missing after a failure. */
  predicate TargetState(job: Job, st: State, c: string)
    requires c in job.groups && c in st.linked
  {
    forall j | 0 <= j < |job.groups[c]| ::
      && (j < st.linked[c] ==>
             job.groups[c][j].path in st.disk.target && st.disk.target[job.groups[c][j].path] == Link(c))
      && (j > st.linked[c] || (j == st.linked[c] && c !in st.failed) ==>
            SameSpot(st.disk.target, job.start.target, job.groups[c][j].path))
      && (j == st.linked[c] ==> Untouched(st.disk.target, job.start.target, job.groups[c][j].path))
  }

  predicate Untouched(a: map<string, Spot>, b: map<string, Spot>, p: string)
  {
    p !in a || SameSpot(a, b, p)
  }

  predicate Local(job: Job, st: State, c: string)
    requires c in job.groups && job.groups[c] != [] && c in job.truth
  {
    Placement(st, c) && Progress(job, st, c) && ObjectState(job, st, c) && TargetState(job, st, c)
  }

  ghost predicate Planned(job: Job, p: string)
  {
    exists c :: c in job.groups && InGroup(job.groups[c], p)
  }

  ghost predicate Frame(job: Job, st: State)
  {
    && (forall c :: c !in job.groups ==> SameObject(st.disk.objects, job.start.objects, c))
    && (forall p :: !Planned(job, p) ==> SameSpot(st.disk.target, job.start.target, p))
  }

  predicate Control(job: Job, st: State)
  {
    && |st.live| <= job.limit
    && (st.err <==> st.failed != {})
    && (st.cancelled <==> st.err || st.external)
    && (st.broke ==> st.cancelled && !st.waiting && st.todo != [])
    && (st.waiting ==> st.todo != [])
    && |st.todo| <= |job.checksums| && st.todo == job.checksums[|job.checksums| - |st.todo|..]
    && st.live.Keys + st.done + st.failed <= job.groups.Keys
  }

  predicate Counters(job: Job, st: State)
  {
    && st.downloaded == Sum(job.checksums, Only(st.done, Sizes(job)))
    && st.bytes == Sum(job.checksums, Only(st.done, Cost(job)))
  }

  /** Each position below `linked` has been linked exactly once, the others not at all. */
  ghost predicate LinkedOnce(st: State)
  {
    forall c, j: nat :: st.log[(c, j)] == if c in st.linked && j < st.linked[c] then 1 else 0
  }

  ghost predicate Basics(job: Job, st: State)
  {
    Control(job, st) && Counters(job, st) && LinkedOnce(st)
  }

  ghost predicate Inv(job: Job, st: State)
    requires GoodJob(job)
  {
    Basics(job, st) && Frame(job, st) && forall c :: c in job.groups ==> Local(job, st, c)
  }

  /* ------------------------------------------------------------------ every step keeps it */

  /** Between two states only checksum c may have moved. */
  predicate Aside(job: Job, st: State, t: State, d: string)
    requires d in job.groups
  {
    && (d in t.todo <==> d in st.todo) && (d in t.done <==> d in st.done) && (d in t.failed <==> d in st.failed)
    && (d in t.live <==> d in st.live) && (d in st.live ==> t.live[d] == st.live[d])
    && d in st.linked && d in t.linked && t.linked[d] == st.linked[d]
    && SameObject(t.disk.objects, st.disk.objects, d)
    && forall j | 0 <= j < |job.groups[d]| :: SameSpot(t.disk.target, st.disk.target, job.groups[d][j].path)
  }

  lemma AsideLocal(job: Job, st: State, t: State, d: string)
    requires GoodJob(job) && d in job.groups && Local(job, st, d) && Aside(job, st, t, d)
    ensures Local(job, t, d)
  {
  }

  lemma Assemble(job: Job, st: State, t: State, c: string)
    requires GoodJob(job) && Inv(job, st) && c in job.groups
    requires forall d :: d in job.groups && d != c ==> Aside(job, st, t, d)
    requires Basics(job, t) && Frame(job, t) && Local(job, t, c)
    ensures Inv(job, t)
  {
    forall d | d in job.groups ensures Local(job, t, d) {
      if d != c { AsideLocal(job, st, t, d); }
    }
  }

  lemma InitialBasics(job: Job)
    ensures Basics(job, Initial(job))
  {
    SumZero(job.checksums, Only({}, Sizes(job)));
    SumZero(job.checksums, Only({}, Cost(job)));
    assert job.checksums[0..] == job.checksums;
  }

  lemma InitialInv(job: Job)
    requires GoodJob(job)
    ensures Inv(job, Initial(job))
  {
    InitialBasics(job);
    forall c | c in job.groups ensures Local(job, Initial(job), c) {
      GoodJobGroup(job, c);
      InitialLocal(job, c);
    }
  }

  lemma InitialLocal(job: Job, c: string)
    requires GoodGroup(job, c)
    ensures Local(job, Initial(job), c)
  {
  }

  /** A disk step of worker c stays within its own object and the paths of its own group. */
  ghost predicate Within(job: Job, a: Disk, b: Disk, c: string)
    requires c in job.groups
  {
    && (forall d :: d != c ==> SameObject(b.objects, a.objects, d))
    && (forall p :: !InGroup(job.groups[c], p) ==> SameSpot(b.target, a.target, p))
  }

  lemma WithinFrame(job: Job, st: State, t: State, c: string)
    requires c in job.groups && Frame(job, st) && Within(job, st.disk, t.disk, c)
    ensures Frame(job, t)
  {
    forall p | !Planned(job, p) ensures SameSpot(t.disk.target, job.start.target, p) {
      assert !InGroup(job.groups[c], p);
      assert SameSpot(t.disk.target, st.disk.target, p) && SameSpot(st.disk.target, job.start.target, p);
    }
    forall d | d !in job.groups ensures SameObject(t.disk.objects, job.start.objects, d) {
      assert SameObject(st.disk.objects, job.start.objects, d);
      assert SameObject(t.disk.objects, st.disk.objects, d);
    }
  }

  lemma WithinAside(job: Job, st: State, t: State, c: string, d: string)
    requires GoodJob(job) && c in job.groups && d in job.groups && c != d && Within(job, st.disk, t.disk, c)
    ensures SameObject(t.disk.objects, st.disk.objects, d)
    ensures forall j | 0 <= j < |job.groups[d]| :: SameSpot(t.disk.target, st.disk.target, job.groups[d][j].path)
  {
    assert PathsApart(job.groups[c], job.groups[d]);
  }

  predicate SameLoop(st: State, t: State)
  {
    t.todo == st.todo && t.waiting == st.waiting && t.broke == st.broke && t.external == st.external
  }

  /** Only the bookkeeping of checksum c differs. */
  predicate Moved(st: State, t: State, c: string)
  {
    && SameLoop(st, t)
    && t.live.Keys - {c} == st.live.Keys - {c}
    && (forall d | d in t.live && d != c && d in st.live :: t.live[d] == st.live[d])
    && t.done - {c} == st.done - {c} && t.failed - {c} == st.failed - {c}
    && t.linked.Keys == st.linked.Keys
    && (forall d | d in t.linked && d != c && d in st.linked :: t.linked[d] == st.linked[d])
  }

  lemma MovedAside(job: Job, st: State, t: State, c: string, d: string)
    requires GoodJob(job) && c in job.groups && d in job.groups && c != d && Local(job, st, d)
    requires Moved(st, t, c) && Within(job, st.disk, t.disk, c)
    ensures Aside(job, st, t, d)
  {
    WithinAside(job, st, t, c, d);
    assert d in t.live - {c} <==> d in st.live - {c} by {
      assert d in t.live.Keys - {c} <==> d in st.live.Keys - {c};
    }
    assert d in t.done - {c} <==> d in st.done - {c};
    assert d in t.failed - {c} <==> d in st.failed - {c};
  }

  /** Steps checksum c still needs. */
  function Rank(job: Job, st: State, c: string): nat
    requires c in job.groups
  {
    var n := |job.groups[c]|;
    if c in st.todo then n + 6
    else if c !in st.live then 0
    else match st.live[c].pc
      case Fetching => n + 4
      case Linking => (if c in st.linked && st.linked[c] < n then n - st.linked[c] else 0) + 3
      case Stamping => 3
      case Accounting => 2
      case Exiting => 1
  }

  /** What a step of worker c owes: progress, its own checksum, the counters, the control state, and nothing else
      touched. */
  ghost predicate StepOk(job: Job, st: State, t: State, c: string)
    requires GoodGroup(job, c)
  {
    Moved(st, t, c) && Within(job, st.disk, t.disk, c) && Basics(job, t) && Local(job, t, c)
      && Rank(job, t, c) < Rank(job, st, c)
  }

  lemma WorkerStep(job: Job, st: State, t: State, c: string)
    requires GoodJob(job) && Inv(job, st) && GoodGroup(job, c) && StepOk(job, st, t, c)
    ensures Inv(job, t) && SameLoop(st, t) && Rank(job, t, c) < Rank(job, st, c)
    ensures forall d :: d in job.groups && d != c ==> Aside(job, st, t, d)
  {
    forall d | d in job.groups && d != c ensures Aside(job, st, t, d) {
      MovedAside(job, st, t, c, d);
    }
    WithinFrame(job, st, t, c);
    Assemble(job, st, t, c);
  }

  predicate LinkPath(job: Job, st: State, c: string, p: string)
    requires c in job.groups && c in st.linked
  {
    At(st, c, Linking) && st.linked[c] < |job.groups[c]| && p == job.groups[c][st.linked[c]].path
  }

  lemma FailLocal(job: Job, st: State, c: string, disk: Disk)
    requires GoodGroup(job, c) && Local(job, st, c) && c in st.live && st.live[c].pc != Exiting
    requires forall p :: if LinkPath(job, st, c, p) then Untouched(disk.target, st.disk.target, p)
               else SameSpot(disk.target, st.disk.target, p)
    requires c in st.disk.objects ==> c in disk.objects
    ensures Local(job, Fail(st, c, disk), c)
  {
    var g := job.groups[c];
    forall j | 0 <= j < |g| && j != st.linked[c] ensures SameSpot(disk.target, st.disk.target, g[j].path) {
      if At(st, c, Linking) { assert g[j].path != g[st.linked[c]].path; }
    }
    var i := st.linked[c];
    if i < |g| {
      var p := g[i].path;
      assert SameSpot(st.disk.target, job.start.target, p);
      assert if LinkPath(job, st, c, p) then Untouched(disk.target, st.disk.target, p)
               else SameSpot(disk.target, st.disk.target, p);
      assert Untouched(disk.target, job.start.target, p);
    }
  }

  lemma FailOk(job: Job, st: State, c: string, disk: Disk)
    requires GoodGroup(job, c) && Basics(job, st) && Local(job, st, c) && c in st.live && st.live[c].pc != Exiting
    requires Within(job, st.disk, disk, c)
    requires forall p :: if LinkPath(job, st, c, p) then Untouched(disk.target, st.disk.target, p)
               else SameSpot(disk.target, st.disk.target, p)
    requires c in st.disk.objects ==> c in disk.objects
    ensures StepOk(job, st, Fail(st, c, disk), c)
  {
    FailLocal(job, st, c, disk);
    FailControl(job, st, c, disk);
  }

  lemma FailControl(job: Job, st: State, c: string, disk: Disk)
    requires Control(job, st) && Counters(job, st) && LinkedOnce(st) && c in st.live
    ensures var t := Fail(st, c, disk); Control(job, t) && Counters(job, t) && LinkedOnce(t) && Moved(st, t, c)
  {
    var t := Fail(st, c, disk);
    assert t.live.Keys == st.live.Keys;
    assert |t.live| == |t.live.Keys| && |st.live| == |st.live.Keys|;
  }

  /** A successful fetch of a planned checksum leaves its true content in the store, at the planned cost. */
  lemma FetchTrue(job: Job, st: State, c: string, x: Exchange)
    requires GoodGroup(job, c) && SameObject(st.disk.objects, job.start.objects, c)
    ensures var (disk, r) := Fetch(job.hash, st.disk, job.groups[c][0], x);
            && Within(job, st.disk, disk, c) && disk.target == st.disk.target && (c in st.disk.objects ==>
                 c in disk.objects)
            && (r.Some? ==> c in disk.objects && disk.objects[c].content == job.truth[c] && r.value == CostOf(job, c))
  {
  }

  lemma SameLive(st: State, t: State, c: string)
    requires c in st.live && c in t.live && t.live == st.live[c := t.live[c]]
    ensures t.live.Keys == st.live.Keys && |t.live| == |st.live|
  {
    assert |t.live| == |t.live.Keys| && |st.live| == |st.live.Keys|;
  }

  lemma SettleOk(job: Job, st: State, c: string, disk: Disk, r: Option<nat>)
    requires GoodGroup(job, c) && Basics(job, st) && Local(job, st, c) && At(st, c, Fetching)
    requires Within(job, st.disk, disk, c) && disk.target == st.disk.target
    requires (c in st.disk.objects ==> c in disk.objects)
    requires r.Some? ==> c in disk.objects && disk.objects[c].content == job.truth[c] && r.value == CostOf(job, c)
    ensures StepOk(job, st, Settle(st, c, disk, r), c)
  {
    match r {
      case None => FailOk(job, st, c, disk);
      case Some(n) => MoveBasics(job, st, c, disk, Linking, n);
    }
  }

  lemma FetchOk(job: Job, st: State, c: string, x: Exchange)
    requires GoodGroup(job, c) && Basics(job, st) && Local(job, st, c) && At(st, c, Fetching)
    ensures StepOk(job, st, AfterFetch(job, st, c, x), c)
  {
    var out := Fetch(job.hash, st.disk, job.groups[c][0], x);
    FetchTrue(job, st, c, x);
    SettleOk(job, st, c, out.0, out.1);
  }

  lemma MoveBasics(job: Job, st: State, c: string, disk: Disk, pc: PC, written: nat)
    requires Basics(job, st) && c in st.live
    ensures Basics(job, Move(st, c, disk, pc, written)) && Moved(st, Move(st, c, disk, pc, written), c)
  {
    SameLive(st, Move(st, c, disk, pc, written), c);
  }

  lemma LinkOkLocal(job: Job, st: State, c: string)
    requires GoodGroup(job, c) && At(st, c, Linking) && Local(job, st, c)
    ensures Local(job, AfterLink(job, st, c, LinkOk), c)
  {
    var i, g := st.linked[c], job.groups[c];
    forall j | 0 <= j < |g| && j != i ensures g[j].path != g[i].path {
    }
  }

  lemma LogStep(st: State, t: State, c: string)
    requires LinkedOnce(st) && c in st.linked && t.linked == st.linked[c := st.linked[c] + 1]
    requires t.log == st.log + multiset{(c, st.linked[c])}
    ensures LinkedOnce(t)
  {
  }

  lemma LinkOkBasics(job: Job, st: State, c: string)
    requires Basics(job, st) && At(st, c, Linking) && c in job.groups && c in st.linked
    requires st.linked[c] < |job.groups[c]|
    ensures Basics(job, AfterLink(job, st, c, LinkOk)) && Moved(st, AfterLink(job, st, c, LinkOk), c)
  {
    var t := AfterLink(job, st, c, LinkOk);
    MoveBasics(job, st, c, t.disk, t.live[c].pc, t.live[c].written);
    LogStep(st, t, c);
  }

  lemma LinkOkStep(job: Job, st: State, c: string)
    requires GoodGroup(job, c) && Basics(job, st) && Local(job, st, c) && At(st, c, Linking)
    ensures StepOk(job, st, AfterLink(job, st, c, LinkOk), c)
  {
    assert InGroup(job.groups[c], job.groups[c][st.linked[c]].path);
    LinkOkLocal(job, st, c);
    LinkOkBasics(job, st, c);
  }

  lemma LinkStepOk(job: Job, st: State, c: string, link: LinkEnd)
    requires GoodGroup(job, c) && Basics(job, st) && Local(job, st, c) && At(st, c, Linking)
    ensures StepOk(job, st, AfterLink(job, st, c, link), c)
  {
    var i, g := st.linked[c], job.groups[c];
    var path := g[i].path;
    assert InGroup(g, path);
    match link {
      case LinkErr(depth, removed) =>
        FailOk(job, st, c, Attempted(st.disk, path, depth, removed));
      case LinkOk =>
        LinkOkStep(job, st, c);
    }
  }

  lemma StampOkStep(job: Job, st: State, c: string, stamp: StampEnd)
    requires GoodGroup(job, c) && Basics(job, st) && Local(job, st, c) && At(st, c, Stamping)
    ensures StepOk(job, st, AfterStamp(job, st, c, stamp), c)
  {
    var o, first := st.disk.objects[c], job.groups[c][0];
    match stamp {
      case ChmodErr => FailOk(job, st, c, st.disk);
      case ChtimesErr => FailOk(job, st, c, st.disk.(objects := st.disk.objects[c := o.(mode := first.mode)]));
      case StampOk => MoveBasics(job, st, c, AfterStamp(job, st, c, stamp).disk, Accounting, st.live[c].written);
    }
  }

  lemma AccountCounters(job: Job, st: State, c: string)
    requires GoodGroup(job, c) && Counters(job, st) && c in st.live && c !in st.done
    requires st.live[c].written == CostOf(job, c)
    ensures Counters(job, AfterAccount(job, st, c))
  {
    SumAdd(job.checksums, st.done, Sizes(job), c);
    SumAdd(job.checksums, st.done, Cost(job), c);
  }

  lemma AccountBasics(job: Job, st: State, c: string)
    requires GoodGroup(job, c) && Basics(job, st) && c in st.live && c !in st.done
    requires st.live[c].written == CostOf(job, c)
    ensures Basics(job, AfterAccount(job, st, c)) && Moved(st, AfterAccount(job, st, c), c)
  {
    AccountCounters(job, st, c);
    SameLive(st, AfterAccount(job, st, c), c);
  }

  lemma AccountLocal(job: Job, st: State, c: string)
    requires GoodGroup(job, c) && Local(job, st, c) && At(st, c, Accounting)
    ensures Local(job, AfterAccount(job, st, c), c)
  {
  }

  lemma AccountOk(job: Job, st: State, c: string)
    requires GoodGroup(job, c) && Basics(job, st) && Local(job, st, c) && At(st, c, Accounting)
    ensures StepOk(job, st, AfterAccount(job, st, c), c)
  {
    AccountBasics(job, st, c);
    AccountLocal(job, st, c);
  }

  lemma ExitControl(job: Job, st: State, c: string)
    requires Control(job, st) && c in st.live
    ensures Control(job, AfterExit(st, c))
  {
    var t := AfterExit(st, c);
    assert t.live.Keys == st.live.Keys - {c};
    assert |t.live| == |t.live.Keys| && |st.live| == |st.live.Keys|;
  }

  lemma ExitMoved(st: State, c: string)
    ensures Moved(st, AfterExit(st, c), c)
  {
  }

  lemma ExitBasics(job: Job, st: State, c: string)
    requires Basics(job, st) && c in st.live
    ensures Basics(job, AfterExit(st, c))
  {
    ExitControl(job, st, c);
  }

  lemma ExitLocal(job: Job, st: State, c: string)
    requires GoodGroup(job, c) && Local(job, st, c) && At(st, c, Exiting)
    ensures Local(job, AfterExit(st, c), c)
  {
  }

  lemma ExitOk(job: Job, st: State, c: string)
    requires GoodGroup(job, c) && Basics(job, st) && Local(job, st, c) && At(st, c, Exiting)
    ensures StepOk(job, st, AfterExit(st, c), c)
  {
    ExitBasics(job, st, c);
    ExitMoved(st, c);
    ExitLocal(job, st, c);
  }

  lemma SpawnLive(live: map<string, Worker>, c: string, w: Worker)
    requires c !in live
    ensures |live[c := w]| == |live| + 1 && live[c := w].Keys == live.Keys + {c}
  {
    assert live[c := w].Keys == live.Keys + {c};
    assert |live[c := w]| == |live[c := w].Keys| && |live| == |live.Keys|;
  }

  lemma TodoTail(cs: seq<string>, todo: seq<string>)
    requires todo != [] && |todo| <= |cs| && todo == cs[|cs| - |todo|..]
    ensures todo[1..] == cs[|cs| - |todo[1..]|..]
  {
  }

  lemma SpawnBounds(job: Job, st: State)
    requires Control(job, st) && st.todo != [] && st.todo[0] in job.groups && st.todo[0] !in st.live
    ensures var t := AfterSpawn(st);
            && |t.live| == |st.live| + 1 && t.live.Keys + t.done + t.failed <= job.groups.Keys
            && |t.todo| <= |job.checksums| && t.todo == job.checksums[|job.checksums| - |t.todo|..]
  {
    SpawnLive(st.live, st.todo[0], Worker(Fetching, 0));
    TodoTail(job.checksums, st.todo);
  }

  lemma SpawnControl(job: Job, st: State)
    requires Control(job, st) && st.todo != [] && st.todo[0] in job.groups && st.todo[0] !in st.live
    requires |st.live| < job.limit && !st.broke
    ensures Control(job, AfterSpawn(st))
  {
    SpawnBounds(job, st);
  }

  lemma SpawnBasics(job: Job, st: State)
    requires Basics(job, st) && st.todo != [] && st.todo[0] in job.groups && st.todo[0] !in st.live
    requires |st.live| < job.limit && !st.broke
    ensures Basics(job, AfterSpawn(st))
  {
    SpawnControl(job, st);
  }

  lemma SuffixTail(cs: seq<string>, todo: seq<string>)
    requires Distinct(cs) && todo != [] && |todo| <= |cs| && todo == cs[|cs| - |todo|..]
    ensures todo[1..] == cs[|cs| - |todo[1..]|..] && todo[0] !in todo[1..]
  {
    var n := |cs| - |todo|;
    forall k | 0 <= k < |todo[1..]| ensures todo[1..][k] != todo[0] {
      assert todo[1..][k] == cs[n + 1 + k] && todo[0] == cs[n];
    }
  }

  lemma SpawnLocal(job: Job, st: State)
    requires st.todo != [] && GoodGroup(job, st.todo[0]) && Local(job, st, st.todo[0])
    requires st.todo[0] !in st.todo[1..]
    ensures Local(job, AfterSpawn(st), st.todo[0])
  {
  }

  lemma SpawnAside(job: Job, st: State, d: string)
    requires st.todo != [] && d in job.groups && d != st.todo[0] && d in st.linked
    ensures Aside(job, st, AfterSpawn(st), d)
  {
    assert st.todo == [st.todo[0]] + st.todo[1..];
  }

  lemma TodoPlanned(job: Job, st: State)
    requires GoodJob(job) && Control(job, st) && st.todo != []
    ensures GoodGroup(job, st.todo[0])
  {
    assert st.todo[0] == job.checksums[|job.checksums| - |st.todo|] && st.todo[0] in job.checksums;
    GoodJobGroup(job, st.todo[0]);
  }

  lemma SpawnAsides(job: Job, st: State)
    requires GoodJob(job) && Inv(job, st) && st.todo != []
    ensures forall d :: d in job.groups && d != st.todo[0] ==> Aside(job, st, AfterSpawn(st), d)
  {
    forall d | d in job.groups && d != st.todo[0] ensures Aside(job, st, AfterSpawn(st), d) {
      SpawnAside(job, st, d) by { assert Local(job, st, d); }
    }
  }

  lemma SpawnFirst(job: Job, st: State)
    requires st.todo != [] && GoodGroup(job, st.todo[0]) && Placement(st, st.todo[0]) && Basics(job, st)
    requires Enabled(job, st, Spawn)
    ensures Basics(job, AfterSpawn(st))
  {
    SpawnBasics(job, st);
  }

  lemma SpawnInv(job: Job, st: State)
    requires GoodJob(job) && Inv(job, st) && Enabled(job, st, Spawn)
    ensures Inv(job, AfterSpawn(st)) && GoodGroup(job, st.todo[0]) && st.todo[0] !in st.todo[1..]
    ensures forall d :: d in job.groups && d != st.todo[0] ==> Aside(job, st, AfterSpawn(st), d)
  {
    TodoPlanned(job, st);
    SuffixTail(job.checksums, st.todo);
    SpawnAsides(job, st);
    assert Basics(job, AfterSpawn(st)) by {
      assert Local(job, st, st.todo[0]);
      SpawnFirst(job, st);
    }
    assert Local(job, AfterSpawn(st), st.todo[0]) by {
      assert Local(job, st, st.todo[0]);
      SpawnLocal(job, st);
    }
    Assemble(job, st, AfterSpawn(st), st.todo[0]);
  }

  lemma MainBasics(job: Job, st: State, t: State)
    requires Basics(job, st)
    requires t == st.(broke := t.broke, waiting := t.waiting, cancelled := t.cancelled, external := t.external)
    requires (t.cancelled <==> t.err || t.external) && (t.broke ==> t.cancelled && !t.waiting && t.todo != [])
    requires (t.waiting ==> t.todo != [])
    ensures Basics(job, t)
  {
  }

  lemma MainInv(job: Job, st: State, t: State)
    requires GoodJob(job) && Inv(job, st)
    requires t == st.(broke := t.broke, waiting := t.waiting, cancelled := t.cancelled, external := t.external)
    requires (t.cancelled <==> t.err || t.external) && (t.broke ==> t.cancelled && !t.waiting && t.todo != [])
    requires (t.waiting ==> t.todo != [])
    ensures Inv(job, t)
  {
    MainBasics(job, st, t);
    forall d | d in job.groups ensures Local(job, t, d) {
      GoodJobGroup(job, d);
      SameLocal(job, st, t, d) by { assert Local(job, st, d); }
    }
  }

  lemma SameLocal(job: Job, st: State, t: State, d: string)
    requires GoodGroup(job, d) && Local(job, st, d)
    requires t.disk == st.disk && t.todo == st.todo && t.live == st.live && t.done == st.done && t.failed == st.failed
    requires t.linked == st.linked
    ensures Local(job, t, d)
  {
  }

  predicate ByWorker(ch: Choice, c: string)
  {
    match ch
    case DoFetch(d, _) => d == c
    case DoLink(d, _) => d == c
    case DoStamp(d, _) => d == c
    case DoAccount(d) => d == c
    case DoExit(d) => d == c
    case _ => false
  }

  lemma WorkerOk(job: Job, st: State, ch: Choice, c: string)
    requires GoodGroup(job, c) && Basics(job, st) && Local(job, st, c) && Enabled(job, st, ch) && ByWorker(ch, c)
    ensures StepOk(job, st, Apply(job, st, ch), c)
  {
    match ch {
      case DoFetch(_, x) => FetchOk(job, st, c, x);
      case DoLink(_, link) => LinkStepOk(job, st, c, link);
      case DoStamp(_, stamp) => StampOkStep(job, st, c, stamp);
      case DoAccount(_) => AccountOk(job, st, c);
      case DoExit(_) => ExitOk(job, st, c);
    }
  }

  lemma WorkerInv(job: Job, st: State, ch: Choice, c: string)
    requires GoodJob(job) && Inv(job, st) && Enabled(job, st, ch) && ByWorker(ch, c)
    ensures c in job.groups && Inv(job, Apply(job, st, ch)) && SameLoop(st, Apply(job, st, ch))
    ensures Rank(job, Apply(job, st, ch), c) < Rank(job, st, c)
    ensures forall d :: d in job.groups && d != c ==> Aside(job, st, Apply(job, st, ch), d)
  {
    assert c in st.live.Keys && c in job.groups;
    GoodJobGroup(job, c);
    WorkerOk(job, st, ch, c) by { assert Local(job, st, c); }
    WorkerStep(job, st, Apply(job, st, ch), c);
  }

  /** Every choice keeps the invariant. */
  lemma StepInv(job: Job, st: State, ch: Choice)
    requires GoodJob(job) && Inv(job, st)
    ensures Inv(job, Apply(job, st, ch))
  {
    if Enabled(job, st, ch) {
      match ch {
        case Check => MainInv(job, st, Apply(job, st, ch));
        case Spawn => SpawnInv(job, st);
        case Cancel => MainInv(job, st, Apply(job, st, ch));
        case _ => WorkerInv(job, st, ch, ch.c);
      }
    }
  }

  /** In every interleaving: at most `limit` workers, the checksums partitioned, the counters sums over the finished
      groups. */
  lemma {:induction false} AlwaysInv(job: Job, choices: seq<Choice>)
    requires GoodJob(job)
    ensures Inv(job, Exec(job, choices))
  {
    if choices == [] {
      InitialInv(job);
    } else {
      AlwaysInv(job, choices[..|choices| - 1]);
      StepInv(job, Exec(job, choices[..|choices| - 1]), choices[|choices| - 1]);
    }
  }
}
