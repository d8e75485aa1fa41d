/** One run of the client on its target: scan, plan, guard, downloads and deletes. */
module Mirror {
  import opened Options
  import opened Manifest
  import opened FileTree
  import opened Store
  import opened Parallel
  import opened Plan

  datatype Report = Report(downloaded: nat, deleted: nat, bytes: nat)
  datatype RunError = GuardTripped | DownloadFailed | Interrupted

  /** What happens to one run: the order in which the walk meets the target, the interleaving and outcomes of the
      download workers, and which removals succeed. */
  datatype Events = Events(order: seq<string>, choices: seq<Choice>, removable: set<string>)

  function JobOf(hash: Hash, limit: nat, down: seq<Entry>, checksums: seq<string>, d: Disk): Job
  {
    Job(hash, checksums, GroupsOf(down), limit, d, map[])
  }

  ghost predicate IsOrder(down: seq<Entry>, checksums: seq<string>)
  {
    Ascending(checksums) && forall c :: c in checksums <==> c in GroupsOf(down)
  }

  function Removed(target: map<string, Spot>, del: seq<string>, removable: set<string>): map<string, Spot>
  {
    target - (set p | p in del && p in removable)
  }

  /** What the client decided in a run. */
  datatype Decision = Decision(down: seq<Entry>, del: seq<string>, job: Job)

  ghost predicate Decides(hash: Hash, skip: string -> bool, limit: nat, remote: map<string, Entry>, d: Disk, ev: Events,
                          dec: Decision)
  {
    && IsPlan(remote, ScanOf(d, skip, ev.order), dec.down, dec.del)
    && IsOrder(dec.down, dec.job.checksums) && dec.job == JobOf(hash, limit, dec.down, dec.job.checksums, d)
  }

  class Client {
    var disk: Disk

    constructor (d: Disk)
      ensures disk == d
    {
      disk := d;
    }

    /** downloadAll, driven through the given interleaving. */
    method DownloadAll(job: Job, choices: seq<Choice>) returns (st: State)
      requires job.start == disk
      modifies this
      ensures st == Exec(job, choices) && disk == st.disk
    {
      st := Initial(job);
      for i := 0 to |choices|
        invariant st == Exec(job, choices[..i])
      {
        assert choices[..i + 1][..i] == choices[..i];
        st := Apply(job, st, choices[i]);
      }
      assert choices[..|choices|] == choices;
      disk := st.disk;
    }

    /** One turn of the delete loop. */
    method DeleteOne(p: string, removable: set<string>) returns (gone: bool)
      modifies this
      ensures disk == old(disk).(target := if p in removable then old(disk).target - {p} else old(disk).target)
      ensures |disk.target| == |old(disk).target| - if gone then 1 else 0
    {
      gone := p in removable && p in disk.target;
      if gone {
        DropOne(disk.target, p);
        disk := disk.(target := disk.target - {p});
      } else {
        assert p !in removable || disk.target - {p} == disk.target;
      }
    }

    /** The delete loop: a removal that fails is passed over and not counted. */
    method DeleteAll(del: seq<string>, removable: set<string>) returns (deleted: nat)
      modifies this
      ensures disk == old(disk).(target := Removed(old(disk).target, del, removable))
      ensures deleted == |old(disk).target| - |disk.target|
      ensures deleted <= |del|
    {
      deleted := 0;
      ghost var target := disk.target;
      for i := 0 to |del|
        invariant disk == old(disk).(target := Removed(target, del[..i], removable))
        invariant deleted == |target| - |disk.target| && deleted <= i
      {
        RemovedStep(target, del, removable, i);
        var gone := DeleteOne(del[i], removable);
        if gone {
          deleted := deleted + 1;
        }
      }
      assert del[..|del|] == del;
    }

    /** The part of Run that changes the target: downloads, then deletes. A schedule that does not get to the end of
        the downloads is a process that was stopped. */
    method ApplyPlan(job: Job, del: seq<string>, ev: Events) returns (r: Result<Report, RunError>)
      requires job.start == disk
      modifies this
      ensures Applied(Exec(job, ev.choices), del, ev, disk, r)
      ensures r.Ok? ==> r.value.deleted <= |del|
    {
      var st := DownloadAll(job, ev.choices);
      if !Final(st) {
        r := Err(Interrupted);
      } else if st.err {
        r := Err(DownloadFailed);
      } else {
        var deleted := DeleteAll(del, ev.removable);
        r := Ok(Report(st.downloaded, deleted, st.bytes));
      }
    }

    /** Scan and plan; the groups are made when the downloads start, from the plan alone. */
    method MakePlan(hash: Hash, skip: string -> bool, limit: nat, remote: map<string, Entry>, ev: Events)
        returns (dec: Decision, total: nat)
      requires Keyed(remote)
      ensures Decides(hash, skip, limit, remote, disk, ev, dec) && total == |ScanOf(disk, skip, ev.order)|
    {
      var local := ScanLocal(disk, skip, ev.order);
      var down := PlanDownloads(remote, local);
      var del := PlanDeletes(remote, local);
      var groups, checksums := GroupByChecksum(down);
      return Decision(down, del, Job(hash, checksums, groups, limit, disk, map[])), |local|;
    }

    /** Run, from the fetched manifest on. Unless it is forced, a run that passes the guard with at least the minimum of
        local files deletes at most the allowed share of them. */
    method Run(hash: Hash, skip: string -> bool, cfg: Config, remote: map<string, Entry>, ev: Events)
        returns (r: Result<Report, RunError>, ghost dec: Decision, ghost total: nat, ghost go: bool)
      requires Keyed(remote)
      modifies this
      ensures Decides(hash, skip, Limit(cfg), remote, old(disk), ev, dec)
      ensures total == |ScanOf(old(disk), skip, ev.order)| && go == GuardPasses(cfg, total, |dec.del|)
      ensures !go <==>
              !cfg.force && |dec.del| > 0 && cfg.minFiles <= total
                && (total == 0 || |dec.del| as real > cfg.ratio * total as real)
      ensures r.Ok? && !cfg.force && cfg.minFiles <= total && cfg.ratio >= 0.0 ==>
                r.value.deleted as real <= cfg.ratio * total as real
      ensures dec.job.limit == if cfg.concurrency > 0 then cfg.concurrency else 8
      ensures !go ==> r == Err(GuardTripped) && disk == old(disk)
      ensures go && cfg.dryRun ==> r == Ok(Report(0, 0, 0)) && disk == old(disk)
      ensures go && !cfg.dryRun ==> Applied(Exec(dec.job, ev.choices), dec.del, ev, disk, r)
    {
      var plan, found := MakePlan(hash, skip, Limit(cfg), remote, ev);
      dec, total := plan, found;
      var ok := EnforceDeleteGuard(cfg, found, |plan.del|);
      go := ok;
      if !ok {
        return Err(GuardTripped), dec, total, go;
      }
      if cfg.dryRun {
        r := Ok(Report(0, 0, 0));
      } else {
        r := ApplyPlan(plan.job, plan.del, ev);
      }
      if r.Ok? {
        FewerStill(r.value.deleted, |plan.del|, cfg.ratio * found as real);
      }
    }
  }

  /** How a run ends once its plan is applied: nothing is deleted unless all downloads ended without an error. */
  predicate Applied(st: State, del: seq<string>, ev: Events, after: Disk, r: Result<Report, RunError>)
  {
    if !Final(st) then r == Err(Interrupted) && after == st.disk
    else if st.err then r == Err(DownloadFailed) && after == st.disk
    else
      && after == st.disk.(target := Removed(st.disk.target, del, ev.removable))
      && |after.target| <= |st.disk.target|
         && r == Ok(Report(st.downloaded, |st.disk.target| - |after.target|, st.bytes))
  }

  lemma FewerStill(deleted: nat, planned: nat, most: real)
    requires deleted <= planned
    ensures planned as real <= most ==> deleted as real <= most
  {
  }

  lemma RemovedStep(target: map<string, Spot>, del: seq<string>, removable: set<string>, i: nat)
    requires i < |del|
    ensures Removed(target, del[..i + 1], removable)
         == if del[i] in removable then Removed(target, del[..i], removable) - {del[i]}
             else Removed(target, del[..i], removable)
  {
    assert del[..i + 1] == del[..i] + [del[i]];
  }

  lemma DropOne(m: map<string, Spot>, p: string)
    requires p in m
    ensures |m - {p}| == |m| - 1
  {
    assert (m - {p}).Keys == m.Keys - {p};
    assert |m - {p}| == |(m - {p}).Keys| && |m| == |m.Keys|;
  }
}
