/** What a successful run comes to: the target mirrors the remote, exactly when it does so in metadata too, and when
    it never will. */
module Converge {
  import opened Options
  import opened Manifest
  import opened FileTree
  import opened Store
  import opened Parallel
  import opened ParallelRuns
  import opened Completion
  import opened Directories
  import opened Plan
  import opened Mirror

  /** The remote of a run. `truth` names the content behind each checksum; the client does not know it. */
  datatype Upstream = Upstream(hash: Hash, skip: string -> bool, remote: map<string, Entry>,
                                  truth: map<string, Content>)

  ghost predicate TrueEntry(up: Upstream, e: Entry)
  {
    && e.checksum in up.truth && up.hash(up.truth[e.checksum]) == e.checksum
    && CollisionFree(up.hash, up.truth[e.checksum]) && |up.truth[e.checksum]| == e.size
  }

  ghost predicate Truthful(up: Upstream)
  {
    Keyed(up.remote) && forall p :: p in up.remote ==> TrueEntry(up, up.remote[p]) && Proper(p)
  }

  predicate InSight(up: Upstream)
  {
    forall p | p in up.remote :: !Hidden(up.skip, p)
  }

  /** A run that applied its plan to the end, without an error and without being cancelled from outside. */
  ghost predicate Succeeded(up: Upstream, limit: nat, before: Disk, ev: Events, dec: Decision, after: Disk)
  {
    var st := Exec(dec.job, ev.choices);
    && Decides(up.hash, up.skip, limit, up.remote, before, ev, dec)
    && Final(st) && !st.err && !st.external
    && after == st.disk.(target := Removed(st.disk.target, dec.del, ev.removable))
  }

  function RealJob(up: Upstream, dec: Decision): Job
  {
    dec.job.(truth := up.truth)
  }

  function LocalOf(up: Upstream, before: Disk, ev: Events): map<string, Entry>
  {
    ScanOf(before, up.skip, ev.order)
  }

  lemma AscendingDistinct(names: seq<string>)
    requires Ascending(names)
    ensures Distinct(names)
  {
    forall i, j | 0 <= i < j < |names| ensures names[i] != names[j] {
      LessIrreflexive(names[i]);
    }
  }

  lemma PlannedGroup(up: Upstream, down: seq<Entry>, c: string)
    requires Truthful(up) && Increasing(down)
    requires (forall e :: e in down ==> e.path in up.remote && up.remote[e.path] == e)
    requires c in GroupsOf(down)
    ensures var g := GroupsOf(down)[c];
            && g != [] && DistinctPaths(g)
               && (forall i | 0 <= i < |g| :: g[i].checksum == c && g[i] in down && Proper(g[i].path))
            && c in up.truth && up.hash(up.truth[c]) == c && CollisionFree(up.hash, up.truth[c])
               && |up.truth[c]| == g[0].size
  {
    GroupExact(down, c);
    var g := GroupsOf(down)[c];
    IncreasingDistinct(g);
    assert g[0] in g;
    assert TrueEntry(up, up.remote[g[0].path]);
    forall i | 0 <= i < |g| ensures g[i].checksum == c && g[i] in down && Proper(g[i].path) {
      assert g[i] in g;
    }
  }

  lemma GroupsApart(up: Upstream, down: seq<Entry>, c: string, d: string)
    requires Truthful(up) && Increasing(down)
    requires (forall e :: e in down ==> e.path in up.remote && up.remote[e.path] == e)
    requires c in GroupsOf(down) && d in GroupsOf(down) && c != d
    ensures PathsApart(GroupsOf(down)[c], GroupsOf(down)[d])
  {
    PlannedGroup(up, down, c);
    PlannedGroup(up, down, d);
  }

  /** The jobs the plan makes are the ones all the results about downloadAll are about. */
  lemma JobIsGood(up: Upstream, limit: nat, before: Disk, ev: Events, dec: Decision)
    requires Truthful(up) && limit > 0 && Named(up.hash, before.objects)
    requires Decides(up.hash, up.skip, limit, up.remote, before, ev, dec)
    ensures GoodJob(RealJob(up, dec))
  {
    var job, down := RealJob(up, dec), dec.down;
    AscendingDistinct(job.checksums);
    forall c | c in job.groups
      ensures job.groups[c] != [] && DistinctPaths(job.groups[c])
      ensures (forall i | 0 <= i < |job.groups[c]| :: job.groups[c][i].checksum == c && Proper(job.groups[c][i].path))
      ensures c in up.truth && up.hash(up.truth[c]) == c && CollisionFree(up.hash, up.truth[c])
      ensures |up.truth[c]| == job.groups[c][0].size
    {
      PlannedGroup(up, down, c);
    }
    forall c, d | c in job.groups && d in job.groups && c != d ensures PathsApart(job.groups[c], job.groups[d]) {
      GroupsApart(up, down, c, d);
    }
  }

  /** What a successful run leaves: the planned downloads mirrored, then the planned deletes removed. */
  lemma RunMirrors(up: Upstream, limit: nat, before: Disk, ev: Events, dec: Decision, after: Disk)
    requires Truthful(up) && limit > 0 && Named(up.hash, before.objects) && Succeeded(up, limit, before, ev, dec, after)
    ensures var st := Exec(dec.job, ev.choices);
            GoodJob(RealJob(up, dec)) && Exec(RealJob(up, dec), ev.choices) == st && Complete(RealJob(up, dec), st)
            && Mirrored(RealJob(up, dec), st.disk) && Named(up.hash, after.objects)
  {
    var job := RealJob(up, dec);
    JobIsGood(up, limit, before, ev, dec);
    TruthUnused(dec.job, up.truth, ev.choices);
    CompleteExactly(job, ev.choices);
    CompleteOutcome(job, ev.choices);
    AlwaysNamed(job, ev.choices);
  }

  /** With an honest server a run can succeed, in some interleaving, exactly when nothing obstructs its planned paths
      and every planned object is there already or can still be fetched. */
  lemma CanSucceedExactly(up: Upstream, limit: nat, before: Disk, ev: Events, dec: Decision)
    requires Apart(before)
    requires Truthful(up) && limit > 0 && Named(up.hash, before.objects)
    requires Decides(up.hash, up.skip, limit, up.remote, before, ev, dec)
    ensures (exists choices, after :: HonestSuccess(up, limit, before, ev, dec, choices, after)) <==>
              Completable(RealJob(up, dec))
  {
    var job := RealJob(up, dec);
    JobIsGood(up, limit, before, ev, dec);
    CompletesExactly(job);
    if choices, after :| HonestSuccess(up, limit, before, ev, dec, choices, after) {
      RunMirrors(up, limit, before, ev.(choices := choices), dec, after);
      assert Promotes(job, choices);
    }
    if Completable(job) {
      assert Exec(job, []) == Initial(job);
      var choices := CanFinish(job, []);
      TruthUnused(dec.job, up.truth, choices);
      var disk := Exec(dec.job, choices).disk;
      assert HonestSuccess(up, limit, before, ev, dec, choices,
             disk.(target := Removed(disk.target, dec.del, ev.removable)));
    }
  }

  ghost predicate HonestSuccess(up: Upstream, limit: nat, before: Disk, ev: Events, dec: Decision, choices: seq<Choice>,
                                after: Disk)
  {
    HonestRun(RealJob(up, dec), choices) && Succeeded(up, limit, before, ev.(choices := choices), dec, after)
  }

  /* ------------------------------------------------------------------ path by path */

  lemma InPlanPlanned(up: Upstream, dec: Decision, local: map<string, Entry>, p: string)
    requires Keyed(up.remote) && IsPlan(up.remote, local, dec.down, dec.del) && dec.job.groups == GroupsOf(dec.down)
    ensures Planned(RealJob(up, dec), p) <==> p in up.remote && !Kept(up.remote, local, p)
    ensures p in up.remote && !Kept(up.remote, local, p) ==>
              up.remote[p].checksum in dec.job.groups && up.remote[p] in dec.job.groups[up.remote[p].checksum]
  {
    var job := RealJob(up, dec);
    if Planned(job, p) {
      var c :| c in job.groups && InGroup(job.groups[c], p);
      GroupExact(dec.down, c);
      var i :| 0 <= i < |job.groups[c]| && job.groups[c][i].path == p;
      assert job.groups[c][i] in job.groups[c];
    }
    if p in up.remote && !Kept(up.remote, local, p) {
      var e := up.remote[p];
      assert e in dec.down;
      GroupExact(dec.down, e.checksum);
      var i :| 0 <= i < |job.groups[e.checksum]| && job.groups[e.checksum][i] == e;
      assert InGroup(job.groups[e.checksum], p);
    }
  }

  /** A planned path ends as a link to the object of its checksum. */
  lemma PlannedSpot(up: Upstream, limit: nat, before: Disk, ev: Events, dec: Decision, after: Disk, p: string)
    requires Truthful(up) && limit > 0 && Named(up.hash, before.objects) && Succeeded(up, limit, before, ev, dec, after)
    requires p in up.remote && !Kept(up.remote, LocalOf(up, before, ev), p)
    ensures up.remote[p].checksum in dec.job.groups
    ensures p in after.target && after.target[p] == Link(up.remote[p].checksum)
  {
    RunMirrors(up, limit, before, ev, dec, after);
    InPlanPlanned(up, dec, LocalOf(up, before, ev), p);
    var c := up.remote[p].checksum;
    var j :| 0 <= j < |dec.job.groups[c]| && dec.job.groups[c][j] == up.remote[p];
    assert RealJob(up, dec).groups[c][j].path == p;
  }

  /** Any other path keeps its spot, unless it is a planned delete that could be removed. */
  lemma OtherSpot(up: Upstream, limit: nat, before: Disk, ev: Events, dec: Decision, after: Disk, p: string)
    requires Truthful(up) && limit > 0 && Named(up.hash, before.objects) && Succeeded(up, limit, before, ev, dec, after)
    requires p !in up.remote || Kept(up.remote, LocalOf(up, before, ev), p)
    ensures if p in dec.del && p in ev.removable then p !in after.target else SameSpot(after.target, before.target, p)
  {
    RunMirrors(up, limit, before, ev, dec, after);
    InPlanPlanned(up, dec, LocalOf(up, before, ev), p);
    assert SameSpot(Exec(dec.job, ev.choices).disk.target, before.target, p);
  }

  /** The object of a planned checksum carries its true content and the metadata of the group's first entry; other
      objects stay. */
  lemma ObjectAfter(up: Upstream, limit: nat, before: Disk, ev: Events, dec: Decision, after: Disk, c: string)
    requires Truthful(up) && limit > 0 && Named(up.hash, before.objects) && Succeeded(up, limit, before, ev, dec, after)
    ensures if c in dec.job.groups
            then dec.job.groups[c] != [] && c in up.truth && c in after.objects
                 && after.objects[c] == Obj(up.truth[c], dec.job.groups[c][0].mode, dec.job.groups[c][0].mtime)
            else SameObject(after.objects, before.objects, c)
  {
    RunMirrors(up, limit, before, ev, dec, after);
    if c in dec.job.groups {
      GoodJobGroup(RealJob(up, dec), c);
    } else {
      assert SameObject(Exec(dec.job, ev.choices).disk.objects, RealJob(up, dec).start.objects, c);
    }
  }

  /* ------------------------------------------------------------------ convergence */

  /** The files the quick check leaves alone have the remote content: it compares size, time and mode only. */
  ghost predicate KeptTrue(up: Upstream, before: Disk, local: map<string, Entry>)
  {
    forall p :: Kept(up.remote, local, p) && up.remote[p].checksum in up.truth ==>
                  Stat(before, p).Some? && Stat(before, p).value.content == up.truth[up.remote[p].checksum]
  }

  /** The path's file is, or becomes, the object that the run stamps for its checksum. */
  predicate Shares(up: Upstream, before: Disk, ev: Events, dec: Decision, p: string)
    requires p in up.remote
  {
    up.remote[p].checksum in dec.job.groups
    && (!Kept(up.remote, LocalOf(up, before, ev), p) || (p in before.target && before.target[p].Link?))
  }

  /** The entry whose mode and time the path's file carries afterwards. */
  function Stamp(up: Upstream, before: Disk, ev: Events, dec: Decision, p: string): Entry
    requires p in up.remote
  {
    if Shares(up, before, ev, dec, p) && dec.job.groups[up.remote[p].checksum] != []
        then dec.job.groups[up.remote[p].checksum][0]
    else up.remote[p]
  }

  lemma KeptFile(up: Upstream, before: Disk, ev: Events, p: string)
    requires Truthful(up) && KeptTrue(up, before, LocalOf(up, before, ev))
    requires Kept(up.remote, LocalOf(up, before, ev), p)
    ensures up.remote[p].checksum in up.truth
    ensures Stat(before, p) == Some(FileInfo(up.truth[up.remote[p].checksum], up.remote[p].mode, up.remote[p].mtime))
  {
    assert TrueEntry(up, up.remote[p]);
  }

  /** After a successful run every remote path has its true content, and the metadata of its stamp. */
  lemma FileAfter(up: Upstream, limit: nat, before: Disk, ev: Events, dec: Decision, after: Disk, p: string)
    requires Truthful(up) && limit > 0 && Named(up.hash, before.objects) && Succeeded(up, limit, before, ev, dec, after)
    requires KeptTrue(up, before, LocalOf(up, before, ev)) && p in up.remote
    ensures up.remote[p].checksum in up.truth
    ensures var s := Stamp(up, before, ev, dec, p);
            Stat(after, p) == Some(FileInfo(up.truth[up.remote[p].checksum], s.mode, s.mtime))
  {
    var local, e := LocalOf(up, before, ev), up.remote[p];
    assert TrueEntry(up, e);
    if Kept(up.remote, local, p) {
      KeptFile(up, before, ev, p);
      OtherSpot(up, limit, before, ev, dec, after, p);
      if before.target[p].Link? {
        var c := before.target[p].checksum;
        assert c == e.checksum by { assert up.hash(before.objects[c].content) == c; }
        ObjectAfter(up, limit, before, ev, dec, after, c);
      }
    } else {
      PlannedSpot(up, limit, before, ev, dec, after, p);
      ObjectAfter(up, limit, before, ev, dec, after, e.checksum);
    }
  }

  /** Every planned delete could be removed. */
  predicate AllRemoved(ev: Events, dec: Decision)
  {
    forall p | p in dec.del :: p in ev.removable
  }

  /** What the walk of the first scan could see is all there was. */
  ghost predicate CleanStart(up: Upstream, before: Disk, ev: Events)
  {
    WalkOrder(before, ev.order) && NoDangling(before, up.skip)
  }

  /** Nothing but the remote paths is left in sight. */
  lemma StaleGone(up: Upstream, limit: nat, before: Disk, ev: Events, dec: Decision, after: Disk, p: string)
    requires Truthful(up) && limit > 0 && Named(up.hash, before.objects) && Succeeded(up, limit, before, ev, dec, after)
    requires CleanStart(up, before, ev) && AllRemoved(ev, dec) && p !in up.remote && p in after.target
    ensures Hidden(up.skip, p)
  {
    OtherSpot(up, limit, before, ev, dec, after, p);
    ScanSeesAll(before, up.skip, ev.order);
  }

  ghost predicate Converging(up: Upstream, limit: nat, before: Disk, ev: Events, dec: Decision, after: Disk)
  {
    && Truthful(up) && InSight(up) && limit > 0 && Named(up.hash, before.objects)
    && CleanStart(up, before, ev) && KeptTrue(up, before, LocalOf(up, before, ev))
    && Succeeded(up, limit, before, ev, dec, after) && AllRemoved(ev, dec)
  }

  /** After a successful run a scan lists exactly the remote paths, each file with its true content, and meets no
      dangling link. */
  lemma ContentConverges(up: Upstream, limit: nat, before: Disk, ev: Events, dec: Decision, after: Disk)
    requires Converging(up, limit, before, ev, dec, after)
    ensures FullScan(after, up.skip).Keys == up.remote.Keys
    ensures forall p :: p in up.remote ==>
              up.remote[p].checksum in up.truth && Stat(after, p).Some?
                && Stat(after, p).value.content == up.truth[up.remote[p].checksum]
    ensures NoDangling(after, up.skip) && Named(up.hash, after.objects)
  {
    forall p | p in up.remote
      ensures up.remote[p].checksum in up.truth && Stat(after, p).Some?
      ensures Stat(after, p).value.content == up.truth[up.remote[p].checksum]
    {
      FileAfter(up, limit, before, ev, dec, after, p);
    }
    forall p | p in after.target && p !in up.remote ensures Hidden(up.skip, p) {
      StaleGone(up, limit, before, ev, dec, after, p);
    }
    RunMirrors(up, limit, before, ev, dec, after);
  }

  /** The scanned files have the remote paths, sizes, times and modes. */
  predicate Settled(remote: map<string, Entry>, local: map<string, Entry>)
  {
    local.Keys == remote.Keys && forall p | p in remote :: Kept(remote, local, p)
  }

  /** Entries that come to share an object agree on mode and time with the one that stamps it. Decided before
      anything is downloaded. */
  predicate Uniform(up: Upstream, before: Disk, ev: Events, dec: Decision)
  {
    forall p | p in up.remote ::
      Stamp(up, before, ev, dec, p).mode == up.remote[p].mode
        && Stamp(up, before, ev, dec, p).mtime == up.remote[p].mtime
  }

  /** A successful run converges in metadata exactly when the entries that share an object agree on it. */
  lemma ConvergesExactly(up: Upstream, limit: nat, before: Disk, ev: Events, dec: Decision, after: Disk)
    requires Converging(up, limit, before, ev, dec, after)
    ensures Settled(up.remote, FullScan(after, up.skip)) <==> Uniform(up, before, ev, dec)
  {
    ContentConverges(up, limit, before, ev, dec, after);
    forall p | p in up.remote
      ensures var s := Stamp(up, before, ev, dec, p);
              Kept(up.remote, FullScan(after, up.skip), p) <==>
                  s.mode == up.remote[p].mode && s.mtime == up.remote[p].mtime
    {
      FileAfter(up, limit, before, ev, dec, after, p);
      assert TrueEntry(up, up.remote[p]);
      assert p in FullScan(after, up.skip);
    }
  }

  /** Remote entries of equal checksum agree on mode and time: what a caller can see in the manifest. */
  predicate Agreeing(remote: map<string, Entry>)
  {
    forall p, q | p in remote && q in remote ::
      remote[p].checksum == remote[q].checksum ==>
          remote[p].mode == remote[q].mode && remote[p].mtime == remote[q].mtime
  }

  lemma AgreeingUniform(up: Upstream, limit: nat, before: Disk, ev: Events, dec: Decision)
    requires Keyed(up.remote) && Agreeing(up.remote) && Decides(up.hash, up.skip, limit, up.remote, before, ev, dec)
    ensures Uniform(up, before, ev, dec)
  {
    forall p | p in up.remote && Shares(up, before, ev, dec, p) && dec.job.groups[up.remote[p].checksum] != []
      ensures Stamp(up, before, ev, dec, p).mode == up.remote[p].mode
      ensures Stamp(up, before, ev, dec, p).mtime == up.remote[p].mtime
    {
      var c := up.remote[p].checksum;
      GroupExact(dec.down, c);
      assert dec.job.groups[c][0] in dec.job.groups[c];
    }
  }

  /** Mirror convergence: the next plan, in whatever order the next scan walks, is empty. */
  lemma Converges(up: Upstream, limit: nat, before: Disk, ev: Events, dec: Decision, after: Disk,
                  order: seq<string>, down: seq<Entry>, del: seq<string>)
    requires Converging(up, limit, before, ev, dec, after)
    requires WalkOrder(after, order) && IsPlan(up.remote, ScanOf(after, up.skip, order), down, del)
    ensures down == [] && del == [] <==> Uniform(up, before, ev, dec)
    ensures Agreeing(up.remote) ==> Settled(up.remote, FullScan(after, up.skip)) && down == [] && del == []
  {
    ContentConverges(up, limit, before, ev, dec, after);
    ConvergesExactly(up, limit, before, ev, dec, after);
    ScanSeesAll(after, up.skip, order);
    EmptyPlan(up.remote, FullScan(after, up.skip), down, del);
    if Agreeing(up.remote) {
      AgreeingUniform(up, limit, before, ev, dec);
    }
  }

  lemma EmptyPlan(remote: map<string, Entry>, local: map<string, Entry>, down: seq<Entry>, del: seq<string>)
    requires Keyed(remote) && IsPlan(remote, local, down, del)
    ensures down == [] && del == [] <==> Settled(remote, local)
  {
    assert down != [] ==> down[0] in down;
    assert del != [] ==> del[0] in del;
    if down == [] && del == [] {
      forall p | p in remote ensures Kept(remote, local, p) {
        assert remote[p] !in down;
      }
      assert forall p :: p in local ==> p in remote by {
        forall p | p in local ensures p in remote { assert p !in del; }
      }
    }
  }

  /* ------------------------------------------------------------------ what is reported */

  lemma {:induction false} MembersCount(names: seq<string>)
    requires Distinct(names)
    ensures |Members(names)| == |names|
  {
    if names != [] {
      var init, last := names[..|names| - 1], names[|names| - 1];
      MembersCount(init);
      assert names == init + [last];
      assert Members(names) == Members(init) + {last};
    }
  }

  lemma DropCount(m: map<string, Spot>, gone: set<string>)
    requires gone <= m.Keys
    ensures |m| - |m - gone| == |gone|
  {
    assert (m - gone).Keys == m.Keys - gone;
    assert |m - gone| == |(m - gone).Keys| && |m| == |m.Keys|;
  }

  lemma DownloadsCounted(up: Upstream, limit: nat, before: Disk, ev: Events, dec: Decision, after: Disk)
    requires Truthful(up) && limit > 0 && Named(up.hash, before.objects) && Succeeded(up, limit, before, ev, dec, after)
    ensures var st := Exec(dec.job, ev.choices);
            st.downloaded == |dec.down| && st.bytes == Sum(dec.job.checksums, Cost(dec.job))
  {
    var job := RealJob(up, dec);
    RunMirrors(up, limit, before, ev, dec, after);
    CompleteOutcome(job, ev.choices);
    SameCounts(up, dec);
    PlannedCount(dec.down, dec.job.checksums);
  }

  lemma SameCounts(up: Upstream, dec: Decision)
    requires dec.job.groups == GroupsOf(dec.down)
    ensures Sizes(RealJob(up, dec)) == SizesOf(GroupsOf(dec.down)) && Cost(RealJob(up, dec)) == Cost(dec.job)
  {
  }

  lemma PlannedCount(down: seq<Entry>, checksums: seq<string>)
    requires Increasing(down) && IsOrder(down, checksums)
    ensures Sum(checksums, SizesOf(GroupsOf(down))) == |down|
  {
    forall e | e in down ensures e.checksum in checksums {
      GroupExact(down, e.checksum);
    }
    AscendingDistinct(checksums);
    GroupsTotal(down, checksums);
  }

  lemma RemovedCount(target: map<string, Spot>, del: seq<string>, removable: set<string>)
    requires Ascending(del) && Members(del) <= target.Keys && forall p | p in del :: p in removable
    ensures |target| - |Removed(target, del, removable)| == |del|
  {
    AscendingDistinct(del);
    MembersCount(del);
    DropCount(target, Members(del));
    assert (set p | p in del && p in removable) == Members(del);
  }

  /** A successful run reports every planned entry as downloaded, every delete as deleted, and as bytes the sizes of the
      objects that were not there at the right size, however each of them was transferred. */
  lemma RunAccounts(up: Upstream, limit: nat, before: Disk, ev: Events, dec: Decision, after: Disk,
                    r: Result<Report, RunError>)
    requires Truthful(up) && limit > 0 && Named(up.hash, before.objects) && Succeeded(up, limit, before, ev, dec, after)
    requires WalkOrder(before, ev.order) && AllRemoved(ev, dec)
    requires Applied(Exec(dec.job, ev.choices), dec.del, ev, after, r)
    ensures r == Ok(Report(|dec.down|, |dec.del|, Sum(dec.job.checksums, Cost(dec.job))))
  {
    DownloadsCounted(up, limit, before, ev, dec, after);
    DeletesPresent(up, limit, before, ev, dec, after);
    RemovedCount(Exec(dec.job, ev.choices).disk.target, dec.del, ev.removable);
  }

  lemma DeletesPresent(up: Upstream, limit: nat, before: Disk, ev: Events, dec: Decision, after: Disk)
    requires Truthful(up) && limit > 0 && Named(up.hash, before.objects) && Succeeded(up, limit, before, ev, dec, after)
    requires WalkOrder(before, ev.order)
    ensures Members(dec.del) <= Exec(dec.job, ev.choices).disk.target.Keys
  {
    RunMirrors(up, limit, before, ev, dec, after);
    forall p | p in dec.del ensures p in Exec(dec.job, ev.choices).disk.target {
      InPlanPlanned(up, dec, LocalOf(up, before, ev), p);
      assert SameSpot(Exec(dec.job, ev.choices).disk.target, before.target, p);
      assert p in before.target by { assert p in ev.order; }
    }
  }

  /* ------------------------------------------------------------------ running again */

  lemma {:induction false} IdleExec(job: Job, choices: seq<Choice>)
    requires job.checksums == []
    ensures var st := Exec(job, choices);
            st.disk == job.start && st.todo == [] && st.live == map[] && st.downloaded == 0 && st.bytes == 0
              && !st.err && !st.waiting
  {
    if choices != [] { IdleExec(job, choices[..|choices| - 1]); }
  }

  lemma NothingPlanned(up: Upstream, limit: nat, disk: Disk, ev: Events, dec: Decision)
    requires Keyed(up.remote) && Settled(up.remote, FullScan(disk, up.skip)) && NoDangling(disk, up.skip)
    requires WalkOrder(disk, ev.order) && Decides(up.hash, up.skip, limit, up.remote, disk, ev, dec)
    ensures dec.del == [] && dec.job.checksums == []
  {
    ScanSeesAll(disk, up.skip, ev.order);
    EmptyPlan(up.remote, FullScan(disk, up.skip), dec.down, dec.del);
    assert dec.job.checksums != [] ==> dec.job.checksums[0] in GroupsOf(dec.down);
  }

  lemma NothingRemoved(target: map<string, Spot>, removable: set<string>)
    ensures Removed(target, [], removable) == target
  {
  }

  lemma IdleApplied(job: Job, ev: Events, after: Disk, r: Result<Report, RunError>)
    requires job.checksums == [] && Applied(Exec(job, ev.choices), [], ev, after, r)
    ensures after == job.start && r == Ok(Report(0, 0, 0))
  {
    IdleExec(job, ev.choices);
    NothingRemoved(job.start.target, ev.removable);
  }

  /** Once converged, every further run, however it goes, finds nothing to do and changes nothing. */
  lemma SettledStays(up: Upstream, limit: nat, disk: Disk, ev: Events, dec: Decision, after: Disk,
                     r: Result<Report, RunError>)
    requires Keyed(up.remote) && Settled(up.remote, FullScan(disk, up.skip)) && NoDangling(disk, up.skip)
    requires WalkOrder(disk, ev.order) && Decides(up.hash, up.skip, limit, up.remote, disk, ev, dec)
    requires Applied(Exec(dec.job, ev.choices), dec.del, ev, after, r)
    ensures after == disk && r == Ok(Report(0, 0, 0))
  {
    NothingPlanned(up, limit, disk, ev, dec);
    IdleApplied(dec.job, ev, after, r);
  }

  /** Two entries share their content and disagree on mode or time. */
  predicate Clash(remote: map<string, Entry>, p: string, q: string)
  {
    && p in remote && q in remote && remote[p].checksum == remote[q].checksum
    && (remote[p].mode != remote[q].mode || remote[p].mtime != remote[q].mtime)
  }

  predicate BothLinked(remote: map<string, Entry>, d: Disk, p: string, q: string)
    requires p in remote
  {
    && p in d.target && d.target[p] == Link(remote[p].checksum)
    && q in d.target && d.target[q] == Link(remote[p].checksum)
  }

  /** Linked to one object they cannot both pass the quick check, whatever the scan sees. */
  lemma ClashNotKept(remote: map<string, Entry>, d: Disk, skip: string -> bool, order: seq<string>, p: string,
                     q: string)
    requires Clash(remote, p, q) && BothLinked(remote, d, p, q)
    ensures !(Kept(remote, ScanOf(d, skip, order), p) && Kept(remote, ScanOf(d, skip, order), q))
  {
  }

  lemma ClashStaysLinked(up: Upstream, limit: nat, before: Disk, ev: Events, dec: Decision, after: Disk, p: string,
                         q: string)
    requires Truthful(up) && limit > 0 && Named(up.hash, before.objects) && Succeeded(up, limit, before, ev, dec, after)
    requires Clash(up.remote, p, q)
    requires (BothLinked(up.remote, before, p, q) || (p !in before.target && q !in before.target))
    ensures BothLinked(up.remote, after, p, q) && Named(up.hash, after.objects)
  {
    RunMirrors(up, limit, before, ev, dec, after);
    LinkedAfter(up, limit, before, ev, dec, after, p);
    LinkedAfter(up, limit, before, ev, dec, after, q);
  }

  lemma LinkedAfter(up: Upstream, limit: nat, before: Disk, ev: Events, dec: Decision, after: Disk, p: string)
    requires Truthful(up) && limit > 0 && Named(up.hash, before.objects) && Succeeded(up, limit, before, ev, dec, after)
    requires p in up.remote && (p in before.target ==> before.target[p] == Link(up.remote[p].checksum))
    ensures p in after.target && after.target[p] == Link(up.remote[p].checksum)
  {
    if Kept(up.remote, LocalOf(up, before, ev), p) {
      OtherSpot(up, limit, before, ev, dec, after, p);
      assert Stat(before, p).Some?;
    } else {
      PlannedSpot(up, limit, before, ev, dec, after, p);
    }
  }

  ghost predicate OneRun(up: Upstream, limit: nat, a: Disk, b: Disk)
  {
    exists ev, dec :: Succeeded(up, limit, a, ev, dec, b)
  }

  ghost predicate ManyRuns(up: Upstream, limit: nat, disks: seq<Disk>)
  {
    disks != [] && forall i | 0 <= i < |disks| - 1 :: OneRun(up, limit, disks[i], disks[i + 1])
  }

  /** Equal contents under different metadata never settle: starting without the two files, after any number of
      successful runs the next plan, whatever its scan sees, is still not empty. */
  lemma {:induction false} NeverSettles(up: Upstream, limit: nat, disks: seq<Disk>, p: string, q: string,
                                        order: seq<string>,
                                        down: seq<Entry>, del: seq<string>)
    requires Truthful(up) && limit > 0 && ManyRuns(up, limit, disks) && Named(up.hash, disks[0].objects)
    requires Clash(up.remote, p, q) && p !in disks[0].target && q !in disks[0].target
    requires IsPlan(up.remote, ScanOf(disks[|disks| - 1], up.skip, order), down, del)
    requires WalkOrder(disks[|disks| - 1], order)
    ensures down != []
  {
    var last := disks[|disks| - 1];
    ClashAlong(up, limit, disks, p, q);
    if |disks| > 1 {
      ClashNotKept(up.remote, last, up.skip, order, p, q);
    }
    assert up.remote[p] in down || up.remote[q] in down by {
      assert !Kept(up.remote, ScanOf(last, up.skip, order), p) || !Kept(up.remote, ScanOf(last, up.skip, order), q);
    }
  }

  lemma {:induction false} ClashAlong(up: Upstream, limit: nat, disks: seq<Disk>, p: string, q: string)
    requires Truthful(up) && limit > 0 && ManyRuns(up, limit, disks) && Named(up.hash, disks[0].objects)
    requires Clash(up.remote, p, q) && p !in disks[0].target && q !in disks[0].target
    ensures Named(up.hash, disks[|disks| - 1].objects)
    ensures (|disks| > 1 ==> BothLinked(up.remote, disks[|disks| - 1], p, q))
    decreases |disks|
  {
    if |disks| > 1 {
      var init := disks[..|disks| - 1];
      forall i | 0 <= i < |init| - 1 ensures OneRun(up, limit, init[i], init[i + 1]) {
        assert OneRun(up, limit, disks[i], disks[i + 1]);
      }
      ClashAlong(up, limit, init, p, q);
      var a, b := disks[|disks| - 2], disks[|disks| - 1];
      assert a == init[|init| - 1];
      assert OneRun(up, limit, disks[|disks| - 2], disks[|disks| - 2 + 1]);
      var ev, dec :| Succeeded(up, limit, a, ev, dec, b);
      ClashStaysLinked(up, limit, a, ev, dec, b, p, q);
    }
  }

  /** A remote path that the target scan does not look at is in every plan. */
  lemma HiddenNeverSettles(remote: map<string, Entry>, d: Disk, skip: string -> bool, order: seq<string>,
                           down: seq<Entry>, del: seq<string>, p: string)
    requires Keyed(remote) && p in remote && Hidden(skip, p) && IsPlan(remote, ScanOf(d, skip, order), down, del)
    ensures remote[p] in down
  {
  }

  /* ------------------------------------------------------------------ safety of every run */

  predicate ProperRemote(remote: map<string, Entry>)
  {
    forall p | p in remote :: remote[p].path == p && Proper(p)
  }

  /** The path leads to an object that the run may stamp or fetch anew. */
  predicate LinksPlanned(dec: Decision, d: Disk, p: string)
  {
    p in d.target && d.target[p].Link? && d.target[p].checksum in dec.job.groups
  }

  lemma GroupsChecksums(down: seq<Entry>, job: Job)
    requires Increasing(down) && job.groups == GroupsOf(down)
    ensures OwnChecksums(job)
  {
    forall c | c in job.groups && job.groups[c] != [] ensures job.groups[c][0].checksum == c {
      GroupExact(down, c);
      assert job.groups[c][0] in job.groups[c];
    }
  }

  lemma PlanProper(remote: map<string, Entry>, local: map<string, Entry>, down: seq<Entry>, del: seq<string>, job: Job)
    requires ProperRemote(remote) && IsPlan(remote, local, down, del) && job.groups == GroupsOf(down)
    ensures ProperJob(job)
  {
    forall c, i | c in job.groups && 0 <= i < |job.groups[c]| ensures Proper(job.groups[c][i].path) {
      GroupExact(down, c);
      assert job.groups[c][i] in job.groups[c];
    }
  }

  /** Whatever else the remote says, a path outside the remote keeps its spot in a run that does not succeed, and in
      any run if the scan did not list it; a run that does not succeed deletes nothing. */
  lemma OutsideSpot(hash: Hash, skip: string -> bool, limit: nat, remote: map<string, Entry>, before: Disk, ev: Events,
                    dec: Decision,
                    after: Disk, r: Result<Report, RunError>, p: string)
    requires ProperRemote(remote) && Decides(hash, skip, limit, remote, before, ev, dec)
    requires Applied(Exec(dec.job, ev.choices), dec.del, ev, after, r)
    requires p !in remote && (r.Err? || p !in ScanOf(before, skip, ev.order))
    ensures SameSpot(after.target, before.target, p) && after.objects == Exec(dec.job, ev.choices).disk.objects
  {
    var up := Upstream(hash, skip, remote, dec.job.truth);
    assert RealJob(up, dec) == dec.job;
    InPlanPlanned(up, dec, LocalOf(up, before, ev), p);
    PlanProper(remote, LocalOf(up, before, ev), dec.down, dec.del, dec.job);
    OnlyPlannedChange(dec.job, ev.choices, p);
  }

  /** What is read at such a path keeps its content always, and stays altogether unless it leads to an object of the
      plan. */
  lemma OutsideUntouched(hash: Hash, skip: string -> bool, limit: nat, remote: map<string, Entry>, before: Disk,
                         ev: Events, dec: Decision,
                         after: Disk, r: Result<Report, RunError>, p: string)
    requires ProperRemote(remote) && Decides(hash, skip, limit, remote, before, ev, dec)
    requires Applied(Exec(dec.job, ev.choices), dec.del, ev, after, r)
    requires p !in remote && (r.Err? || p !in ScanOf(before, skip, ev.order))
    requires Named(hash, before.objects)
    requires (Stat(before, p).Some? ==> CollisionFree(hash, Stat(before, p).value.content))
    ensures SameSpot(after.target, before.target, p)
    ensures Stat(before, p).Some? ==>
              Stat(after, p).Some? && Stat(after, p).value.content == Stat(before, p).value.content
    ensures !LinksPlanned(dec, before, p) ==> Stat(after, p) == Stat(before, p)
  {
    OutsideSpot(hash, skip, limit, remote, before, ev, dec, after, r, p);
    PlanProper(remote, ScanOf(before, skip, ev.order), dec.down, dec.del, dec.job);
    GroupsChecksums(dec.down, dec.job);
    AlwaysNamed(dec.job, ev.choices);
    if p in before.target && before.target[p].Link? {
      AlwaysStays(dec.job, ev.choices, before.target[p].checksum);
    }
  }

  /** The run gives the object the path leads to another mode or time, or makes it appear. */
  predicate Restamps(dec: Decision, before: Disk, p: string)
  {
    && LinksPlanned(dec, before, p) && dec.job.groups[before.target[p].checksum] != []
    && var c := before.target[p].checksum;
       var first := dec.job.groups[c][0];
       c !in before.objects || before.objects[c].mode != first.mode || before.objects[c].mtime != first.mtime
  }

  /** After a successful run what is read at such a path has changed exactly when the run stamped its object
      differently. */
  lemma OutsideChangesExactly(up: Upstream, limit: nat, before: Disk, ev: Events, dec: Decision, after: Disk, p: string)
    requires Truthful(up) && limit > 0 && Named(up.hash, before.objects) && Succeeded(up, limit, before, ev, dec, after)
    requires p !in up.remote && p !in LocalOf(up, before, ev)
    ensures Stat(after, p) == Stat(before, p) <==> !Restamps(dec, before, p)
  {
    OtherSpot(up, limit, before, ev, dec, after, p);
    if p in before.target && before.target[p].Link? {
      var c := before.target[p].checksum;
      ObjectAfter(up, limit, before, ev, dec, after, c);
      if c in dec.job.groups {
        PlannedGroup(up, dec.down, c);
      }
    }
  }

  /** At every moment of every run, stopped or failed ones included, a remote path is as it was, or missing, or leads to
      exactly its remote content. */
  lemma RemoteAnyMoment(up: Upstream, limit: nat, before: Disk, ev: Events, dec: Decision, p: string)
    requires Truthful(up) && limit > 0 && Named(up.hash, before.objects)
    requires Decides(up.hash, up.skip, limit, up.remote, before, ev, dec) && p in up.remote
    ensures var disk := Exec(dec.job, ev.choices).disk;
            || Untouched(disk.target, before.target, p)
            || (up.remote[p].checksum in up.truth && Stat(disk, p).Some?
                && Stat(disk, p).value.content == up.truth[up.remote[p].checksum])
  {
    var job, local := RealJob(up, dec), LocalOf(up, before, ev);
    JobIsGood(up, limit, before, ev, dec);
    TruthUnused(dec.job, up.truth, ev.choices);
    InPlanPlanned(up, dec, local, p);
    if Kept(up.remote, local, p) {
      OnlyPlannedChange(job, ev.choices, p);
    } else {
      var c := up.remote[p].checksum;
      var j :| 0 <= j < |job.groups[c]| && job.groups[c][j] == up.remote[p];
      AnyMoment(job, ev.choices, c, j);
    }
  }

  /** The directories on the disk after a successful run: those it found, but for the ones its links replaced, and those
      above its links. Emptying them, as the deletes may, does not remove them. */
  lemma DirsOutliveDeletes(up: Upstream, limit: nat, before: Disk, ev: Events, dec: Decision, after: Disk, a: string)
    requires Truthful(up) && limit > 0 && Named(up.hash, before.objects) && Succeeded(up, limit, before, ev, dec, after)
    ensures a in after.dirs <==>
              (a in before.dirs && !Planned(RealJob(up, dec), a)) || AbovePlanned(RealJob(up, dec), a)
  {
    RunMirrors(up, limit, before, ev, dec, after);
    EndDirs(RealJob(up, dec), ev.choices, a);
  }

  /** So where an earlier run left a directory, even an empty one, no later run can put a file on a path above it. */
  lemma LeftoverDirectoryBlocks(up: Upstream, limit: nat, before: Disk, ev: Events, dec: Decision, after: Disk,
                                a: string, q: string)
    requires Truthful(up) && limit > 0 && Named(up.hash, before.objects)
    requires Decides(up.hash, up.skip, limit, up.remote, before, ev, dec)
    requires a in before.dirs && q + "/" <= a && q in up.remote && !Kept(up.remote, LocalOf(up, before, ev), q)
    ensures !Succeeded(up, limit, before, ev, dec, after)
  {
    InPlanPlanned(up, dec, LocalOf(up, before, ev), q);
    if Succeeded(up, limit, before, ev, dec, after) {
      RunMirrors(up, limit, before, ev, dec, after);
      CompleteUnobstructed(RealJob(up, dec), ev.choices);
    }
  }

  /** A dangling link cuts the scan short, so a stale file the walk would have met after it outlives a successful
      run. */
  lemma DanglingKeepsStale(up: Upstream, limit: nat, before: Disk, ev: Events, dec: Decision, after: Disk, k: nat,
                           p: string)
    requires Truthful(up) && limit > 0 && Named(up.hash, before.objects) && Succeeded(up, limit, before, ev, dec, after)
    requires WalkOrder(before, ev.order) && k < |ev.order| && Stops(before, up.skip, ev.order[k])
    requires forall i | 0 <= i < k :: !Stops(before, up.skip, ev.order[i])
    requires p in before.target && p !in up.remote && p !in ev.order[..k]
    ensures SameSpot(after.target, before.target, p)
  {
    DanglingEndsScan(before, up.skip, ev.order, k);
    OtherSpot(up, limit, before, ev, dec, after, p);
  }

  /** Cancellation from outside can end the loop with no error recorded: nothing was downloaded, yet the deletes go
      ahead. */
  lemma CancelledRunDeletes(job: Job, del: seq<string>, order: seq<string>, removable: set<string>)
    requires job.checksums != []
    ensures var ev := Events(order, [Cancel, Check], removable);
            var left := Removed(job.start.target, del, removable);
            && |left| <= |job.start.target|
            && Applied(Exec(job, ev.choices), del, ev, job.start.(target := left),
               Ok(Report(0, |job.start.target| - |left|, 0)))
  {
    assert [Cancel, Check][..1] == [Cancel] && [Cancel][..0] == [];
    assert Exec(job, []) == Initial(job);
    assert Exec(job, [Cancel]) == Initial(job).(cancelled := true, external := true);
    assert Exec(job, [Cancel, Check]) == Initial(job).(cancelled := true, external := true, broke := true);
    RemovedFewer(job.start.target, del, removable);
  }

  lemma RemovedFewer(target: map<string, Spot>, del: seq<string>, removable: set<string>)
    ensures |Removed(target, del, removable)| <= |target|
  {
    var gone := (set p | p in del && p in removable) * target.Keys;
    DropCount(target, gone);
    assert Removed(target, del, removable) == target - gone;
  }

  /** Only an outside cancellation sets the flag. */
  lemma {:induction false} UncancelledExec(job: Job, choices: seq<Choice>)
    requires Cancel !in choices
    ensures !Exec(job, choices).external
  {
    if choices != [] {
      var init, ch := choices[..|choices| - 1], choices[|choices| - 1];
      UncancelledExec(job, init);
      assert ch in choices;
      OutsideStep(job, Exec(job, init), ch);
    }
  }

  lemma OutsideStep(job: Job, st: State, ch: Choice)
    requires !ch.Cancel?
    ensures Apply(job, st, ch).external == st.external
  {
    if Enabled(job, st, ch) && ch.DoFetch? {
      var out := Fetch(job.hash, st.disk, job.groups[ch.c][0], ch.x);
      SettleOutside(st, ch.c, out.0, out.1);
    }
  }

  lemma SettleOutside(st: State, c: string, disk: Disk, r: Option<nat>)
    ensures Settle(st, c, disk, r).external == st.external
  {
  }
}
