/** Nothing but a good tree is needed: from an empty target some run succeeds, and after any history the next success
    mirrors. */
module FirstRun {
  import opened Options
  import opened Paths
  import opened Manifest
  import opened Exclude
  import opened FileTree
  import opened Snapshot
  import opened Indexer
  import opened Store
  import opened Parallel
  import opened ParallelRuns
  import opened Completion
  import opened Directories
  import opened Plan
  import opened Mirror
  import opened Converge
  import opened EndToEnd
  import opened Histories

  const EMPTY: Disk := Disk(map[], map[], map[], {})

  lemma OrderExists(down: seq<Entry>) returns (checksums: seq<string>)
    ensures IsOrder(down, checksums)
  {
    var groups := GroupsOf(down);
    var some: seq<string> := [];
    var rest := groups.Keys;
    while rest != {}
      invariant rest <= groups.Keys && (forall i, j | 0 <= i < j < |some| :: some[i] != some[j])
      invariant forall c :: c in some <==> c in groups && c !in rest
    {
      var c :| c in rest;
      some := some + [c];
      rest := rest - {c};
    }
    SortAscending(some);
    checksums := SortNames(some);
  }

  lemma PlanEverything(snap: Snap)
    requires Consistent(snap)
    ensures IsPlan(snap.byPath, map[], snap.entries, [])
  {
  }

  lemma ManifestConsistent(hash: Hash, root: Forest, s: seq<string>, skip: string -> bool)
    requires ValidForest(root)
    ensures var cut := Cut("", "", IndexOf(hash, root), PrefixOf(s), skip);
            Consistent(cut) && cut.byPath == ManifestOf(hash, root, s, skip)
  {
    SnapshotConsistent(hash, root, PrefixOf(s), skip, "", "");
  }

  lemma EmptyScan(skip: string -> bool)
    ensures ScanOf(EMPTY, skip, []) == map[]
  {
  }

  /** The first plan is to download everything. */
  lemma FirstPlan(hash: Hash, root: Forest, s: seq<string>, skip: string -> bool, limit: nat, ev: Events)
      returns (dec: Decision)
    requires ValidForest(root) && ev.order == []
    ensures Decides(hash, skip, limit, ManifestOf(hash, root, s, skip), EMPTY, ev, dec)
  {
    var cut := Cut("", "", IndexOf(hash, root), PrefixOf(s), skip);
    ManifestConsistent(hash, root, s, skip);
    PlanEverything(cut);
    EmptyScan(skip);
    var checksums := OrderExists(cut.entries);
    dec := Decision(cut.entries, [], JobOf(hash, limit, cut.entries, checksums, EMPTY));
  }

  /** Files of one tree are never above one another. */
  lemma FilesApart(source: Forest, q: seq<string>, r: seq<string>)
    requires Names(q) && Names(r) && HasFile(source, q) && HasFile(source, r)
    ensures !(Render(q) + "/" <= Render(r))
  {
    NamesReduced(q);
    NamesReduced(r);
    SlashPrefix(q, r);
    if q < r {
      assert r == q + r[|q|..];
      FindBelow(source, q, r[|q|..]);
    }
  }

  lemma PlannedOffered(hash: Hash, root: Forest, s: seq<string>, source: Forest, skip: string -> bool, limit: nat,
                       before: Disk, ev: Events, dec: Decision, p: string) returns (q: seq<string>)
    requires ValidForest(root) && Below(root, s) == Some(source) && GoodTree(hash, skip, source)
    requires Decides(hash, skip, limit, ManifestOf(hash, root, s, skip), before, ev, dec)
    requires Planned(RealJob(UpstreamOf(hash, root, s, skip), dec), p)
    ensures Offered(skip, source, q) && Render(q) == p
  {
    var up := UpstreamOf(hash, root, s, skip);
    TreeUpstream(hash, root, s, source, skip);
    InPlanPlanned(up, dec, LocalOf(up, before, ev), p);
    q := ManifestFrom(hash, root, s, source, skip, p);
  }

  lemma PlannedApart(hash: Hash, root: Forest, s: seq<string>, source: Forest, skip: string -> bool, limit: nat,
                     ev: Events, dec: Decision, p: string, q: string)
    requires ValidForest(root) && Below(root, s) == Some(source) && GoodTree(hash, skip, source)
    requires Decides(hash, skip, limit, ManifestOf(hash, root, s, skip), EMPTY, ev, dec)
    requires Planned(RealJob(UpstreamOf(hash, root, s, skip), dec), p)
    requires Planned(RealJob(UpstreamOf(hash, root, s, skip), dec), q)
    ensures !Conflict(p, q)
  {
    var a := PlannedOffered(hash, root, s, source, skip, limit, EMPTY, ev, dec, p);
    var b := PlannedOffered(hash, root, s, source, skip, limit, EMPTY, ev, dec, q);
    FilesApart(source, a, b);
    FilesApart(source, b, a);
  }

  lemma EmptyFetchable(job: Job, c: string)
    requires GoodGroup(job, c) && job.start == EMPTY
    ensures Fetchable(job, c)
  {
  }

  /** From an empty disk nothing is in the way of the files of a tree, and everything can be fetched. */
  lemma FirstCompletable(hash: Hash, root: Forest, s: seq<string>, source: Forest, skip: string -> bool, limit: nat,
                         ev: Events, dec: Decision)
    requires ValidForest(root) && Below(root, s) == Some(source) && GoodTree(hash, skip, source) && limit > 0
    requires Decides(hash, skip, limit, ManifestOf(hash, root, s, skip), EMPTY, ev, dec)
    ensures GoodJob(RealJob(UpstreamOf(hash, root, s, skip), dec))
    ensures Completable(RealJob(UpstreamOf(hash, root, s, skip), dec))
  {
    var up := UpstreamOf(hash, root, s, skip);
    var job := RealJob(up, dec);
    TreeUpstream(hash, root, s, source, skip);
    JobIsGood(up, limit, EMPTY, ev, dec);
    forall p, q | Occupied(job, p) && Planned(job, q) ensures !Conflict(p, q) {
      PlannedApart(hash, root, s, source, skip, limit, ev, dec, p, q);
    }
    forall c | c in job.groups ensures Fetchable(job, c) {
      GoodJobGroup(job, c);
      EmptyFetchable(job, c);
    }
  }

  /** There is an honest schedule for it that ends well. */
  lemma FirstSchedule(hash: Hash, root: Forest, s: seq<string>, source: Forest, skip: string -> bool, limit: nat)
      returns (dec: Decision, choices: seq<Choice>)
    requires ValidForest(root) && Below(root, s) == Some(source) && GoodTree(hash, skip, source) && limit > 0
    ensures Decides(hash, skip, limit, ManifestOf(hash, root, s, skip), EMPTY, Events([], choices, {}), dec)
    ensures HonestRun(RealJob(UpstreamOf(hash, root, s, skip), dec), choices) && Cancel !in choices
    ensures Final(Exec(dec.job, choices)) && !Exec(dec.job, choices).err
  {
    var none := Events([], [], {});
    dec := FirstPlan(hash, root, s, skip, limit, none);
    var job := RealJob(UpstreamOf(hash, root, s, skip), dec);
    FirstCompletable(hash, root, s, source, skip, limit, none, dec);
    assert Exec(job, []) == Initial(job);
    choices := CanFinish(job, []);
    UntroubledUncancelled(job, choices);
    TruthUnused(dec.job, UpstreamOf(hash, root, s, skip).truth, choices);
  }

  /** For every good tree and every descendant-closed excluder there is a run from the empty disk, with an honest
      server, that succeeds in favourable circumstances; and it mirrors the tree. */
  lemma FirstRunMirrors(hash: Hash, root: Forest, s: seq<string>, source: Forest, skip: string -> bool, limit: nat)
      returns (ev: Events, dec: Decision, after: Disk, r: Result<Report, RunError>)
    requires ValidForest(root) && Below(root, s) == Some(source) && GoodTree(hash, skip, source)
    requires DescendantClosed(skip)
    requires limit > 0
    ensures Favourable(hash, root, s, source, skip, EMPTY, ev)
    ensures Decides(hash, skip, limit, ManifestOf(hash, root, s, skip), EMPTY, ev, dec)
    ensures HonestRun(RealJob(UpstreamOf(hash, root, s, skip), dec), ev.choices)
    ensures Applied(Exec(dec.job, ev.choices), dec.del, ev, after, r) && r.Ok?
    ensures TreeMirrored(skip, source, after) && NothingLeft(ManifestOf(hash, root, s, skip), skip, after)
  {
    var choices;
    dec, choices := FirstSchedule(hash, root, s, source, skip, limit);
    ev := Events([], choices, {});
    var st := Exec(dec.job, choices);
    after := st.disk.(target := Removed(st.disk.target, dec.del, {}));
    RemovedFewer(st.disk.target, dec.del, {});
    r := Ok(Report(st.downloaded, |st.disk.target| - |after.target|, st.bytes));
    AppliedMirrors(hash, root, s, source, skip, limit, EMPTY, ev, dec, after, r);
  }

  /** After any history from a target without files, whatever became of its runs, the next success mirrors the tree. */
  lemma HistoryMirrorsTree(hash: Hash, root: Forest, s: seq<string>, source: Forest, skip: string -> bool,
                           disks: seq<Disk>,
                           limit: nat, ev: Events, dec: Decision, after: Disk)
    requires ValidForest(root) && Below(root, s) == Some(source) && GoodTree(hash, skip, source)
    requires DescendantClosed(skip)
    requires History(UpstreamOf(hash, root, s, skip), disks) && limit > 0 && WalkOrder(disks[|disks| - 1], ev.order)
    requires Succeeded(UpstreamOf(hash, root, s, skip), limit, disks[|disks| - 1], ev, dec, after)
    ensures TreeMirrored(skip, source, after) && NothingLeft(ManifestOf(hash, root, s, skip), skip, after)
  {
    TreeUpstream(hash, root, s, source, skip);
    HistoryMirrors(UpstreamOf(hash, root, s, skip), disks, limit, ev, dec, after);
    ConvergingMirrors(hash, root, s, source, skip, limit, disks[|disks| - 1], ev, dec, after);
  }
}
