/** Requested source paths: what the session handler lets through, and which snapshot the index cuts for them. */
module Sources {
  import opened Options
  import opened Text
  import opened Paths
  import opened Manifest
  import opened FileTree
  import opened Snapshot
  import Overlap

  /** The cleaned path begins with "..". */
  predicate Climbs(p: string)
  {
    !Rooted(p) && !Local(p)
  }

  lemma ClimbingClean(p: string)
    requires Climbs(p)
    ensures Clean(p) == ".." || "../" <= Clean(p)
  {
    var cs := Components(p);
    ComponentsReduced(p);
    assert cs != [] && cs[0] == "..";
    if |cs| > 1 {
      assert Clean(p) == ".." + ['/'] + Join(cs[1..], '/');
    }
  }

  /** For every requested path the prefix is the rendering of its components, unless the path climbs; then it is the
      cleaned path, which begins with "..". */
  lemma SourcePrefixExact(p: string)
    ensures if Climbs(p) then SourcePrefix(p) == Clean(p) && (Clean(p) == ".." || "../" <= Clean(p))
            else Names(Components(p)) && SourcePrefix(p) == PrefixOf(Components(p))
  {
    var cs := Components(p);
    ComponentsReduced(p);
    CleanStable(p);
    if Climbs(p) {
      ClimbingClean(p);
    } else if Rooted(p) {
      assert Names(cs);
      if cs != [] {
        SourcePrefixIsLocal(cs);
        assert SourcePrefix(p) == SourcePrefix("/" + Render(cs));
      }
    } else {
      SourcePrefixIsLocal(cs);
      assert SourcePrefix(p) == SourcePrefix(Render(cs));
    }
  }

  /* ------------------------------------------------------------------ the handler's test */

  /** The directory the handler looks at: the module root joined with the cleaned source path. */
  function Resolved(rootDir: string, p: string): seq<string>
  {
    Components(JoinPath(rootDir, Clean(p)))
  }

  /** filepath.Rel of that directory does not begin with "..": it lies in the module, and its first name does not
      begin with "..". */
  predicate Accepts(rootDir: string, p: string)
  {
    Components(rootDir) <= Resolved(rootDir, p) && !(".." <= Render(Resolved(rootDir, p)[|Components(rootDir)|..]))
  }

  function Inside(rootDir: string, p: string): seq<string>
    requires Accepts(rootDir, p)
  {
    Resolved(rootDir, p)[|Components(rootDir)|..]
  }

  /** A session is made for an accepted path at which the module has something. */
  predicate Admitted(rootDir: string, root: Forest, p: string)
  {
    Accepts(rootDir, p) && (Inside(rootDir, p) == [] || Find(root, Inside(rootDir, p)).Some?)
  }

  lemma ResolvedComponents(rootDir: string, p: string)
    requires rootDir != ""
    ensures Resolved(rootDir, p) == Reduce(Rooted(rootDir), Components(rootDir), Split(Clean(p), '/'))
  {
    CleanNonEmpty(p);
    CleanStable(rootDir + "/" + Clean(p));
    JoinedComponents(rootDir, Clean(p));
  }

  lemma SplitClean(p: string)
    ensures var cs := Components(p);
            Split(Clean(p), '/') == (if Rooted(p) then [""] else [])
              + (if cs != [] then cs else if Rooted(p) then [""] else ["."])
  {
    var cs := Components(p);
    ComponentsReduced(p);
    if Rooted(p) {
      assert Clean(p) == "" + ['/'] + Join(cs, '/');
      SplitConcat("", Join(cs, '/'), '/');
    }
    if cs != [] {
      SplitJoin(cs, '/');
    } else {
      SplitWhole(".", '/');
    }
  }

  lemma {:induction false} ReduceSkips(rooted: bool, done: seq<string>, c: string, todo: seq<string>)
    requires c == "" || c == "."
    ensures Reduce(rooted, done, [c] + todo) == Reduce(rooted, done, todo)
  {
    assert ([c] + todo)[1..] == todo;
  }

  /** A path that does not climb leads to its own components below the module root. */
  lemma StraightResolved(rootDir: string, p: string)
    requires Rooted(rootDir) && !Climbs(p)
    ensures Resolved(rootDir, p) == Components(rootDir) + Components(p)
  {
    var at, cs := Components(rootDir), Components(p);
    ComponentsReduced(rootDir);
    ComponentsReduced(p);
    ResolvedComponents(rootDir, p);
    SplitClean(p);
    ReduceFixed(true, at, cs);
    ReduceSkips(true, at, "", cs);
    ReduceSkips(true, at, "", [""]);
    ReduceSkips(true, at, "", []);
    ReduceSkips(true, at, ".", []);
    assert [] + cs == cs && [""] + [] == [""] && ["."] + [] == ["."] && [] + ["."] == ["."];
  }

  /** So the handler takes it exactly when its first name does not begin with "..". */
  lemma AcceptsStraightExactly(rootDir: string, p: string)
    requires Rooted(rootDir) && !Climbs(p)
    ensures Accepts(rootDir, p) <==> !(".." <= Render(Components(p)))
    ensures Accepts(rootDir, p) ==> Inside(rootDir, p) == Components(p)
  {
    StraightResolved(rootDir, p);
    assert (Components(rootDir) + Components(p))[|Components(rootDir)|..] == Components(p);
  }

  /** And a session is made for it exactly when, besides, the module has something there. */
  lemma AdmittedStraightExactly(rootDir: string, root: Forest, p: string)
    requires Rooted(rootDir) && !Climbs(p)
    ensures Admitted(rootDir, root, p) <==>
            !(".." <= Render(Components(p))) && (Components(p) == [] || Find(root, Components(p)).Some?)
  {
    AcceptsStraightExactly(rootDir, p);
  }

  function Least(a: nat, b: nat): nat
  {
    if a < b then a else b
  }

  /** Climbing stops at the top of the file system. */
  lemma {:induction false} ClimbsToTop(at: seq<string>, cs: seq<string>)
    requires Names(at) && Reduced(false, cs)
    ensures Reduce(true, at, cs) == at[..|at| - Least(Overlap.Climb(cs), |at|)] + Overlap.Down(cs)
    decreases |cs|
  {
    if Overlap.Climb(cs) <= |at| {
      Overlap.LeadExact(at, cs);
    } else {
      var up := if at == [] then [] else at[..|at| - 1];
      assert Push(true, at, "..") == up by { assert at != [] ==> IsName(at[|at| - 1]); }
      assert Reduced(false, cs[1..]) by {
        forall i, j | 0 <= j < i < |cs[1..]| && cs[1..][i] == ".." ensures cs[1..][j] == ".." {
          assert cs[i + 1] == ".." && cs[j + 1] == "..";
        }
      }
      ClimbsToTop(up, cs[1..]);
      assert cs[1..][Overlap.Climb(cs[1..])..] == cs[Overlap.Climb(cs)..];
    }
  }

  lemma ClimbingResolved(rootDir: string, p: string)
    requires Rooted(rootDir) && Climbs(p)
    ensures var at, cs := Components(rootDir), Components(p);
            Resolved(rootDir, p) == at[..|at| - Least(Overlap.Climb(cs), |at|)] + Overlap.Down(cs)
  {
    ComponentsReduced(rootDir);
    ComponentsReduced(p);
    ResolvedComponents(rootDir, p);
    ClimbingSplit(p);
    ClimbsToTop(Components(rootDir), Components(p));
  }

  lemma ClimbingSplit(p: string)
    requires Climbs(p)
    ensures Split(Clean(p), '/') == Components(p)
  {
    ComponentsReduced(p);
    SplitClean(p);
    assert [] + Components(p) == Components(p);
  }

  lemma HeadAndRest(at: seq<string>, k: nat, down: seq<string>)
    requires k <= |at|
    ensures at <= at[..|at| - k] + down <==> at[|at| - k..] <= down
    ensures at[|at| - k..] <= down ==> (at[..|at| - k] + down)[|at|..] == down[k..]
  {
    var head := at[..|at| - k];
    assert at == head + at[|at| - k..];
    if at <= head + down {
      assert (head + down)[..|at|][|head|..] == down[..k];
    }
    if at[|at| - k..] <= down {
      assert (head + down)[..|at|] == head + down[..k];
    }
  }

  lemma AcceptsFrom(rootDir: string, p: string, k: nat, down: seq<string>)
    requires k <= |Components(rootDir)|
    requires Resolved(rootDir, p) == Components(rootDir)[..|Components(rootDir)| - k] + down
    ensures Accepts(rootDir, p) <==>
            Components(rootDir)[|Components(rootDir)| - k..] <= down && !(".." <= Render(down[k..]))
    ensures Accepts(rootDir, p) ==> Inside(rootDir, p) == down[k..]
  {
    HeadAndRest(Components(rootDir), k, down);
  }

  /** A path that climbs k directories is let through exactly when it comes down again by the last k names of the
      module root, or by all of them if it climbed further than that, and goes on to a name that does not begin with
      ".."; whatever ends outside the module is refused. */
  lemma AcceptsClimbingExactly(rootDir: string, p: string)
    requires Rooted(rootDir) && Climbs(p)
    ensures var at, down := Components(rootDir), Overlap.Down(Components(p));
            var k := Least(Overlap.Climb(Components(p)), |at|);
            && (Accepts(rootDir, p) <==> at[|at| - k..] <= down && !(".." <= Render(down[k..])))
            && (Accepts(rootDir, p) ==> Inside(rootDir, p) == down[k..])
  {
    ClimbingResolved(rootDir, p);
    AcceptsFrom(rootDir, p, Least(Overlap.Climb(Components(p)), |Components(rootDir)|), Overlap.Down(Components(p)));
  }

  /* ------------------------------------------------------------------ the snapshot of an accepted path */

  /** A source path whose cleaned form climbs with ".." matches no index entry, even when it leads back into the
      module. */
  lemma ClimbingSourceIsEmpty(hash: Hash, root: Forest, prefix: string, skip: string -> bool)
    requires ValidForest(root) && (prefix == ".." || "../" <= prefix)
    ensures Project(IndexOf(hash, root), prefix, skip) == []
  {
    var p := Project(IndexOf(hash, root), prefix, skip);
    assert p != [] ==> p[0] in p;
    IndexExact(hash, root);
    ProjectMembers(IndexOf(hash, root), prefix, skip);
    forall item | item in IndexOf(hash, root) ensures Projected(item, prefix, skip) == None {
      var q :| FileEntry(hash, root, q, item);
      NotClimbing(q);
      ProjectedClimbing(item, prefix, skip);
    }
  }

  lemma ProjectedClimbing(item: Entry, prefix: string, skip: string -> bool)
    requires item.path != ".." && !("../" <= item.path) && (prefix == ".." || "../" <= prefix)
    ensures Projected(item, prefix, skip) == None
  {
    assert "../" <= prefix + "/";
  }

  lemma NotClimbing(q: seq<string>)
    requires q != [] && Names(q)
    ensures Render(q) != ".." && !("../" <= Render(q))
  {
    var p := Render(q);
    if "../" <= p {
      var rest := p[3..];
      assert p == ".." + ['/'] + rest;
      SplitConcat("..", rest, '/');
      SplitWhole("..", '/');
      SplitJoin(q, '/');
    } else if p == ".." {
      SplitWhole("..", '/');
      SplitJoin(q, '/');
    }
  }

  function OutAndBack(at: seq<string>, q: seq<string>): seq<string>
    requires at != []
  {
    [".."] + ([at[|at| - 1]] + q)
  }

  lemma OutAndBackReduces(at: seq<string>, q: seq<string>)
    requires at != [] && Names(at) && Names(q)
    ensures Reduce(true, at, OutAndBack(at, q)) == at + q
  {
    var up, back := at[..|at| - 1], [at[|at| - 1]] + q;
    assert IsName(at[|at| - 1]);
    assert OutAndBack(at, q)[1..] == back && Push(true, at, "..") == up;
    assert at + q == up + back;
    NamesReduced(at + q);
    ReduceFixed(true, up, back);
  }

  lemma OutAndBackClimbs(at: seq<string>, q: seq<string>)
    requires at != [] && Names(at) && Names(q)
    ensures var p := Render(OutAndBack(at, q)); Climbs(p) && Components(p) == OutAndBack(at, q)
  {
    var cs := OutAndBack(at, q);
    assert IsName(at[|at| - 1]);
    assert cs[0] == ".." && Reduced(false, cs);
    RenderComponents(cs);
    assert !Names(cs) by { assert !IsName(cs[0]); }
  }

  /** A path that climbs out of the module root and back in by its own name is let through. */
  lemma ReentryAccepted(rootDir: string, q: seq<string>) returns (p: string)
    requires Rooted(rootDir) && Components(rootDir) != [] && Names(q) && !(".." <= Render(q))
    ensures Climbs(p) && Accepts(rootDir, p) && Inside(rootDir, p) == q
  {
    var at := Components(rootDir);
    ComponentsReduced(rootDir);
    p := Render(OutAndBack(at, q));
    OutAndBackClimbs(at, q);
    OutAndBackReduces(at, q);
    ResolvedComponents(rootDir, p);
    SplitClean(p);
    assert [] + OutAndBack(at, q) == OutAndBack(at, q);
    assert (at + q)[|at|..] == q;
  }

  /** For every path the handler lets through: the snapshot is that of the directory it looked at exactly when the path
      does not climb, or nothing would be listed there anyway. */
  lemma SnapshotFollowsSourceExactly(hash: Hash, root: Forest, rootDir: string, p: string, skip: string -> bool)
    requires ValidForest(root) && Rooted(rootDir) && Accepts(rootDir, p)
    ensures var there := Project(IndexOf(hash, root), PrefixOf(Inside(rootDir, p)), skip);
            Project(IndexOf(hash, root), SourcePrefix(p), skip) == there <==> !Climbs(p) || there == []
  {
    SourcePrefixExact(p);
    if Climbs(p) {
      ClimbingSourceIsEmpty(hash, root, SourcePrefix(p), skip);
    } else {
      AcceptsStraightExactly(rootDir, p);
    }
  }
}
