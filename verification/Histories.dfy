/** Whole histories of one target against one remote: runs that stop, fail, are cancelled or succeed, in any order. */
module Histories {
  import opened Options
  import opened Manifest
  import opened Store
  import opened Parallel
  import opened ParallelRuns
  import opened Plan
  import opened Mirror
  import opened Converge

  /** One run, however it ends: stopped anywhere, failed, cancelled, successful, or without any effect. */
  ghost predicate SomeRun(up: Upstream, a: Disk, b: Disk)
  {
    a == b || exists limit, ev, dec, r :: RunFrom(up, limit, a, ev, dec, b, r)
  }

  ghost predicate RunFrom(up: Upstream, limit: nat, a: Disk, ev: Events, dec: Decision, b: Disk,
                          r: Result<Report, RunError>)
  {
    && limit > 0 && Decides(up.hash, up.skip, limit, up.remote, a, ev, dec)
    && Applied(Exec(dec.job, ev.choices), dec.del, ev, b, r)
  }

  /** Any number of such runs, from a target without files. */
  ghost predicate History(up: Upstream, disks: seq<Disk>)
  {
    && disks != [] && disks[0].target == map[] && Named(up.hash, disks[0].objects)
    && forall i | 0 <= i < |disks| - 1 :: SomeRun(up, disks[i], disks[i + 1])
  }

  /** Every file of the target is a remote path and a link to its object, which is there. */
  predicate OnlyLinks(up: Upstream, d: Disk)
  {
    forall p | p in d.target ::
      p in up.remote && d.target[p] == Link(up.remote[p].checksum) && up.remote[p].checksum in d.objects
  }

  lemma ScanWithin(up: Upstream, d: Disk, order: seq<string>)
    requires OnlyLinks(up, d)
    ensures forall p :: p in ScanOf(d, up.skip, order) ==> p in up.remote
  {
  }

  lemma NoDeletes(up: Upstream, d: Disk, ev: Events, dec: Decision, limit: nat)
    requires OnlyLinks(up, d) && Decides(up.hash, up.skip, limit, up.remote, d, ev, dec)
    ensures dec.del == []
  {
    assert dec.del != [] ==> dec.del[0] in dec.del;
    ScanWithin(up, d, ev.order);
  }

  /** At any moment of a run from such a target. */
  lemma MomentOnlyLinks(up: Upstream, limit: nat, d: Disk, ev: Events, dec: Decision, p: string)
    requires Truthful(up) && limit > 0 && Named(up.hash, d.objects) && OnlyLinks(up, d)
    requires Decides(up.hash, up.skip, limit, up.remote, d, ev, dec)
    ensures var disk := Exec(dec.job, ev.choices).disk;
            p in disk.target ==>
              p in up.remote && disk.target[p] == Link(up.remote[p].checksum) && up.remote[p].checksum in disk.objects
  {
    var job, local := RealJob(up, dec), LocalOf(up, d, ev);
    JobIsGood(up, limit, d, ev, dec);
    TruthUnused(dec.job, up.truth, ev.choices);
    InPlanPlanned(up, dec, local, p);
    if !Planned(job, p) {
      OnlyPlannedChange(job, ev.choices, p);
    } else {
      var c := up.remote[p].checksum;
      var j :| 0 <= j < |job.groups[c]| && job.groups[c][j] == up.remote[p];
      AnyMoment(job, ev.choices, c, j);
    }
    if p in d.target {
      GroupsChecksums(dec.down, job);
      AlwaysStays(job, ev.choices, up.remote[p].checksum);
    }
  }

  lemma RunKeepsLinks(up: Upstream, limit: nat, a: Disk, ev: Events, dec: Decision, b: Disk,
                      r: Result<Report, RunError>)
    requires Truthful(up) && Named(up.hash, a.objects) && OnlyLinks(up, a) && RunFrom(up, limit, a, ev, dec, b, r)
    ensures Named(up.hash, b.objects) && OnlyLinks(up, b)
  {
    JobIsGood(up, limit, a, ev, dec);
    TruthUnused(dec.job, up.truth, ev.choices);
    AlwaysNamed(RealJob(up, dec), ev.choices);
    NoDeletes(up, a, ev, dec, limit);
    NothingRemoved(Exec(dec.job, ev.choices).disk.target, ev.removable);
    forall p | p in b.target
      ensures p in up.remote && b.target[p] == Link(up.remote[p].checksum) && up.remote[p].checksum in b.objects
    {
      MomentOnlyLinks(up, limit, a, ev, dec, p);
    }
  }

  /** However a history goes, what it leaves is made of links to true objects. */
  lemma {:induction false} HistoryKeepsLinks(up: Upstream, disks: seq<Disk>)
    requires Truthful(up) && History(up, disks)
    ensures Named(up.hash, disks[|disks| - 1].objects) && OnlyLinks(up, disks[|disks| - 1])
    decreases |disks|
  {
    if |disks| > 1 {
      var init := disks[..|disks| - 1];
      var a, b := disks[|disks| - 2], disks[|disks| - 1];
      forall i | 0 <= i < |init| - 1 ensures SomeRun(up, init[i], init[i + 1]) {
        assert SomeRun(up, disks[i], disks[i + 1]);
      }
      HistoryKeepsLinks(up, init);
      assert SomeRun(up, disks[|disks| - 2], disks[|disks| - 2 + 1]);
      if a != b {
        var limit, ev, dec, r :| RunFrom(up, limit, a, ev, dec, b, r);
        RunKeepsLinks(up, limit, a, ev, dec, b, r);
      }
    }
  }

  /** So it has no dangling link, and the quick check is right about all its files: nothing has to be assumed of the
      disk. */
  lemma LinksAreClean(up: Upstream, d: Disk, local: map<string, Entry>)
    requires Truthful(up) && Named(up.hash, d.objects) && OnlyLinks(up, d)
    requires forall p :: p in local ==> p in d.target
    ensures NoDangling(d, up.skip) && KeptTrue(up, d, local) && Apart(d)
  {
    forall p | Kept(up.remote, local, p) && up.remote[p].checksum in up.truth
      ensures Stat(d, p).Some? && Stat(d, p).value.content == up.truth[up.remote[p].checksum]
    {
      assert TrueEntry(up, up.remote[p]);
    }
  }

  /** After any history, whatever became of its runs, a successful run makes the target mirror the remote: the paths,
      the contents, and, when copies agree, sizes, times and modes. */
  lemma HistoryMirrors(up: Upstream, disks: seq<Disk>, limit: nat, ev: Events, dec: Decision, after: Disk)
    requires Truthful(up) && InSight(up) && limit > 0 && History(up, disks)
    requires WalkOrder(disks[|disks| - 1], ev.order) && Succeeded(up, limit, disks[|disks| - 1], ev, dec, after)
    ensures Converging(up, limit, disks[|disks| - 1], ev, dec, after)
    ensures FullScan(after, up.skip).Keys == up.remote.Keys
    ensures forall p :: p in up.remote ==>
              up.remote[p].checksum in up.truth && Stat(after, p).Some?
                && Stat(after, p).value.content == up.truth[up.remote[p].checksum]
    ensures Agreeing(up.remote) ==> Settled(up.remote, FullScan(after, up.skip))
  {
    var before := disks[|disks| - 1];
    HistoryKeepsLinks(up, disks);
    ScanInTarget(up, before, ev);
    LinksAreClean(up, before, LocalOf(up, before, ev));
    NoDeletes(up, before, ev, dec, limit);
    ContentConverges(up, limit, before, ev, dec, after);
    ConvergesExactly(up, limit, before, ev, dec, after);
    if Agreeing(up.remote) {
      AgreeingUniform(up, limit, before, ev, dec);
    }
  }

  lemma ScanInTarget(up: Upstream, d: Disk, ev: Events)
    ensures forall p :: p in LocalOf(up, d, ev) ==> p in d.target
  {
  }
}
