/** Links and directories of the target over every schedule of downloadAll. */
module Directories {
  import opened Manifest
  import opened Store
  import opened Parallel
  import opened ParallelRuns

  /** One of the two would have to be a directory above the other. */
  predicate Conflict(p: string, q: string)
  {
    p + "/" <= q || q + "/" <= p
  }

  /* ------------------------------------------------------------------ linked paths and directories */

  predicate ClearOf(target: map<string, Spot>, q: string)
  {
    forall p | p in target :: !Conflict(p, q)
  }

  /** Nothing is above or below the linked path but the directories it needs. */
  predicate LinkedWell(d: Disk, q: string)
  {
    && q in d.target && ClearOf(d.target, q) && Ancestors(q) <= d.dirs
    && forall a | a in d.dirs :: a != q && !(q + "/" <= a)
  }

  predicate IsLinked(job: Job, linked: map<string, nat>, c: string, j: nat)
  {
    c in job.groups && c in linked && j < linked[c] && j < |job.groups[c]|
  }

  ghost predicate Shaped(job: Job, d: Disk, linked: map<string, nat>)
  {
    forall c, j: nat :: IsLinked(job, linked, c, j) ==> LinkedWell(d, job.groups[c][j].path)
  }

  lemma AboveAbove(q: string, a: string, path: string)
    requires a in Ancestors(path) && (q == a || q + "/" <= a)
    ensures q + "/" <= path
  {
    AncestorExact(a, path);
    if q + "/" <= a {
      assert q + "/" <= a + "/";
    }
  }

  lemma RelinkKeeps(d: Disk, path: string, c: string, q: string)
    requires CanPlace(d, path) && (q == path || LinkedWell(d, q))
    ensures LinkedWell(Relinked(d, path, c), q)
  {
    var t := Relinked(d, path, c);
    forall a | a in t.dirs ensures a != q && !(q + "/" <= a) {
      if a in Ancestors(path) && (a == q || q + "/" <= a) { AboveAbove(q, a, path); }
    }
    if path in Ancestors(q) { AncestorExact(path, q); }
    AllMakeable(d, path);
  }

  lemma AttemptKeeps(d: Disk, path: string, depth: nat, removed: bool, q: string)
    requires (removed ==> CanPlace(d, path)) && q != path && LinkedWell(d, q)
    ensures LinkedWell(Attempted(d, path, depth, removed), q)
  {
    var t := Attempted(d, path, depth, removed);
    forall a | a in t.dirs ensures a != q && !(q + "/" <= a) {
      if removed && a in Ancestors(path) && (a == q || q + "/" <= a) { AboveAbove(q, a, path); }
    }
    if path in Ancestors(q) { AncestorExact(path, q); }
  }

  lemma OtherPosition(job: Job, c: string, i: nat, d: string, j: nat)
    requires GoodJob(job) && c in job.groups && i < |job.groups[c]| && d in job.groups && j < |job.groups[d]|
    requires c != d || i != j
    ensures job.groups[c][i].path != job.groups[d][j].path
  {
    if c != d {
      assert PathsApart(job.groups[c], job.groups[d]);
    } else {
      assert DistinctPaths(job.groups[c]);
    }
  }

  lemma LinkShaped(job: Job, st: State, c: string, link: LinkEnd)
    requires GoodJob(job) && Shaped(job, st.disk, st.linked) && CanLink(job, st, c)
    requires link.LinkOk? || link.removed ==> CanPlace(st.disk, job.groups[c][st.linked[c]].path)
    ensures var t := AfterLink(job, st, c, link); Shaped(job, t.disk, t.linked)
  {
    LinkStep(job, st, c, link);
    var t, i := AfterLink(job, st, c, link), st.linked[c];
    var path := job.groups[c][i].path;
    forall d, j: nat | IsLinked(job, t.linked, d, j) ensures LinkedWell(t.disk, job.groups[d][j].path) {
      if d != c || j != i { assert IsLinked(job, st.linked, d, j); }
      match link {
        case LinkOk => RelinkKeeps(st.disk, path, c, job.groups[d][j].path);
        case LinkErr(depth, removed) =>
          OtherPosition(job, c, i, d, j);
          AttemptKeeps(st.disk, path, depth, removed, job.groups[d][j].path);
      }
    }
  }

  lemma StepShaped(job: Job, st: State, ch: Choice)
    requires GoodJob(job) && Shaped(job, st.disk, st.linked)
    ensures var t := Apply(job, st, ch); Shaped(job, t.disk, t.linked)
  {
    if Enabled(job, st, ch) && ch.DoLink? {
      LinkShaped(job, st, ch.c, ch.link);
    } else {
      OnlyLinksTouch(job, st, ch);
      SameShape(job, st.disk, Apply(job, st, ch).disk, st.linked);
    }
  }

  lemma SameShape(job: Job, d: Disk, e: Disk, linked: map<string, nat>)
    requires Shaped(job, d, linked) && e.target == d.target && e.dirs == d.dirs
    ensures Shaped(job, e, linked)
  {
    forall c, j: nat | IsLinked(job, linked, c, j) ensures LinkedWell(e, job.groups[c][j].path) {
      assert LinkedWell(d, job.groups[c][j].path);
    }
  }

  lemma {:induction false} AlwaysShaped(job: Job, choices: seq<Choice>)
    requires GoodJob(job)
    ensures var st := Exec(job, choices); Shaped(job, st.disk, st.linked)
  {
    if choices != [] {
      AlwaysShaped(job, choices[..|choices| - 1]);
      StepShaped(job, Exec(job, choices[..|choices| - 1]), choices[|choices| - 1]);
    }
  }

  ghost predicate AbovePlanned(job: Job, a: string)
  {
    exists p :: Planned(job, p) && a in Ancestors(p)
  }

  /** Directories stay, unless a link takes the place of one; and only those above planned paths are made. */
  ghost predicate DirsKept(job: Job, dirs: set<string>)
  {
    && (forall a :: a in job.start.dirs && !Planned(job, a) ==> a in dirs)
    && (forall a :: a in dirs ==> a in job.start.dirs || AbovePlanned(job, a))
  }

  lemma StepDirs(job: Job, st: State, ch: Choice)
    requires DirsKept(job, st.disk.dirs)
    ensures DirsKept(job, Apply(job, st, ch).disk.dirs)
  {
    if Enabled(job, st, ch) && ch.DoLink? {
      LinkStep(job, st, ch.c, ch.link);
      var path := job.groups[ch.c][st.linked[ch.c]].path;
      assert InGroup(job.groups[ch.c], path);
      assert Planned(job, path);
    } else {
      OnlyLinksTouch(job, st, ch);
    }
  }

  /** So the directories of the target outlive every schedule, whatever becomes of the files in them. */
  lemma {:induction false} AlwaysDirs(job: Job, choices: seq<Choice>)
    requires ProperJob(job)
    ensures DirsKept(job, Exec(job, choices).disk.dirs)
  {
    if choices != [] {
      AlwaysDirs(job, choices[..|choices| - 1]);
      StepDirs(job, Exec(job, choices[..|choices| - 1]), choices[|choices| - 1]);
    }
  }
}
