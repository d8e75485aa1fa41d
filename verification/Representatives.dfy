/** Which entry stands for a checksum: the one the direct walk meets first, and the one the index sorts first. */
module Representatives {
  import opened Options
  import opened Paths
  import opened Manifest
  import opened FileTree
  import opened Snapshot
  import opened Indexer

  /* ------------------------------------------------------------------ the order of a walk */

  /** Component by component, the order in which a walk goes through a tree. */
  predicate Before(a: seq<string>, b: seq<string>)
  {
    b != [] && (a == [] || Less(a[0], b[0]) || (a[0] == b[0] && Before(a[1..], b[1..])))
  }

  lemma {:induction false} BeforeAsymmetric(a: seq<string>, b: seq<string>)
    requires Before(a, b)
    ensures !Before(b, a) && a != b
  {
    if a != [] {
      if Less(a[0], b[0]) {
        LessIrreflexive(a[0]);
        if Less(b[0], a[0]) { LessTransitive(a[0], b[0], a[0]); }
      } else {
        LessIrreflexive(a[0]);
        BeforeAsymmetric(a[1..], b[1..]);
      }
    }
  }

  lemma {:induction false} BeforeCancel(at: seq<string>, a: seq<string>, b: seq<string>)
    ensures Before(at + a, at + b) <==> Before(a, b)
  {
    if at == [] {
      assert at + a == a && at + b == b;
    } else {
      LessIrreflexive(at[0]);
      assert (at + a)[1..] == at[1..] + a && (at + b)[1..] == at[1..] + b;
      BeforeCancel(at[1..], a, b);
    }
  }

  predicate Earlier(a: Entry, b: Entry)
  {
    Before(Components(a.path), Components(b.path))
  }

  predicate InWalkOrder(es: seq<Entry>)
  {
    forall i, j | 0 <= i < j < |es| :: Earlier(es[i], es[j])
  }

  lemma {:induction false} AheadLess(name: string, f: Forest, q: seq<string>)
    requires Ahead(name, f) && q != [] && Find(f, q).Some?
    ensures Less(name, q[0])
    decreases f
  {
    if f.Cons? && f.name != q[0] {
      AheadLess(name, f.rest, q);
    }
  }

  lemma NodeBeforeRest(hash: Hash, skip: string -> bool, f: Forest, at: seq<string>, a: Entry, b: Entry)
    requires ValidForest(f) && Names(at) && f.Cons?
    requires a in WalkNode(hash, skip, f.node, at + [f.name]) && b in Walk(hash, skip, f.rest, at)
    ensures Earlier(a, b)
  {
    var p := NodeSound(hash, skip, f.name, f.node, at, a);
    var q := WalkSound(hash, skip, f.rest, at, b);
    AheadLess(f.name, f.rest, q);
    RenderNames(at + p);
    RenderNames(at + q);
    BeforeCancel(at, p, q);
  }

  lemma OrderConcat(a: seq<Entry>, b: seq<Entry>)
    requires InWalkOrder(a) && InWalkOrder(b) && forall i, j | 0 <= i < |a| && 0 <= j < |b| :: Earlier(a[i], b[j])
    ensures InWalkOrder(a + b)
  {
  }

  /** A walk lists files in component-wise order. */
  lemma {:induction false} WalkOrdered(hash: Hash, skip: string -> bool, f: Forest, at: seq<string>)
    requires ValidForest(f) && Names(at)
    ensures InWalkOrder(Walk(hash, skip, f, at))
    decreases f
  {
    if f.Cons? {
      var first, tail := WalkNode(hash, skip, f.node, at + [f.name]), Walk(hash, skip, f.rest, at);
      WalkOrdered(hash, skip, f.rest, at);
      if f.node.Dir? {
        WalkOrdered(hash, skip, f.node.kids, at + [f.name]);
      }
      forall i, j | 0 <= i < |first| && 0 <= j < |tail| ensures Earlier(first[i], tail[j]) {
        NodeBeforeRest(hash, skip, f, at, first[i], tail[j]);
      }
      OrderConcat(first, tail);
    }
  }

  /* ------------------------------------------------------------------ the entry that is kept */

  lemma {:induction false} FirstIsKept(es: seq<Entry>, i: nat)
    requires i < |es| && forall j | 0 <= j < i :: es[j].checksum != es[i].checksum
    ensures es[i].checksum in ByChecksum(es) && ByChecksum(es)[es[i].checksum] == es[i]
  {
    var init := es[..|es| - 1];
    if i < |init| {
      FirstIsKept(init, i);
    } else {
      KeptAreListed(init);
      assert forall e :: e in init ==> e.checksum != es[i].checksum;
    }
  }

  lemma {:induction false} KeptAreListed(es: seq<Entry>)
    ensures forall c :: c in ByChecksum(es) ==> ByChecksum(es)[c] in es && ByChecksum(es)[c].checksum == c
  {
    if es != [] {
      KeptAreListed(es[..|es| - 1]);
      assert es == es[..|es| - 1] + [es[|es| - 1]];
    }
  }

  lemma {:induction false} FirstIndex(es: seq<Entry>, e: Entry) returns (i: nat)
    requires e in es
    ensures i < |es| && es[i].checksum == e.checksum && forall j | 0 <= j < i :: es[j].checksum != e.checksum
  {
    if es[0].checksum == e.checksum {
      i := 0;
    } else {
      i := FirstIndex(es[1..], e);
      i := i + 1;
    }
  }

  predicate Stands(m: map<string, Entry>, e: Entry)
  {
    e.checksum in m && m[e.checksum] == e
  }

  /** Of the files the direct walk lists with this checksum, the one that comes first component by component. */
  ghost predicate FirstMet(hash: Hash, skip: string -> bool, source: Forest, e: Entry)
  {
    && Reached(hash, skip, source, e)
    && forall x :: Reached(hash, skip, source, x) && x.checksum == e.checksum ==> x == e || Earlier(e, x)
  }

  /** Of the files the cut snapshot lists with this checksum, the one of least path. */
  ghost predicate LeastNamed(hash: Hash, skip: string -> bool, source: Forest, e: Entry)
  {
    && Visible(hash, skip, source, e)
    && forall x :: Visible(hash, skip, source, x) && x.checksum == e.checksum ==> x == e || Less(e.path, x.path)
  }

  ghost predicate First(es: seq<Entry>, e: Entry)
  {
    e in es && forall x :: x in es && x.checksum == e.checksum ==> x == e || Earlier(e, x)
  }

  lemma OrderedKeepsFirst(es: seq<Entry>, e: Entry)
    requires InWalkOrder(es)
    ensures Stands(ByChecksum(es), e) <==> First(es, e)
  {
    KeptAreListed(es);
    if e in es {
      var i := FirstIndex(es, e);
      FirstIsKept(es, i);
      var k :| 0 <= k < |es| && es[k] == e;
      if k == i {
        forall x | x in es && x.checksum == e.checksum ensures x == e || Earlier(e, x) {
          var j :| 0 <= j < |es| && es[j] == x;
        }
      } else {
        assert i < k && Earlier(es[i], es[k]) && es[i] in es;
        BeforeAsymmetric(Components(es[i].path), Components(e.path));
      }
    }
  }

  /** The direct walk keeps the file it meets first. */
  lemma DirectKeepsFirstMet(hash: Hash, skip: string -> bool, id: string, dir: string, source: Forest, e: Entry)
    requires ValidForest(source)
    ensures Stands(Direct(hash, skip, id, dir, source).byChecksum, e) <==> FirstMet(hash, skip, source, e)
  {
    var w := Walk(hash, skip, source, []);
    WalkOrdered(hash, skip, source, []);
    OrderedKeepsFirst(w, e);
    forall x ensures x in w <==> Reached(hash, skip, source, x) {
      WalkExact(hash, skip, source, x);
    }
  }

  /** The cut snapshot keeps the file of least path. */
  lemma CutKeepsLeastNamed(hash: Hash, root: Forest, s: seq<string>, source: Forest, skip: string -> bool, id: string,
                           rootDir: string, e: Entry)
    requires ValidForest(root) && Below(root, s) == Some(source)
    ensures Stands(Cut(id, rootDir, IndexOf(hash, root), PrefixOf(s), skip).byChecksum, e) <==>
              LeastNamed(hash, skip, source, e)
  {
    var cut := Cut(id, rootDir, IndexOf(hash, root), PrefixOf(s), skip);
    SnapshotConsistent(hash, root, PrefixOf(s), skip, id, rootDir);
    SnapshotExact(hash, root, s, source, skip);
    if Stands(cut.byChecksum, e) {
      forall x | Visible(hash, skip, source, x) && x.checksum == e.checksum ensures x == e || Less(e.path, x.path) {
        assert x in cut.entries && Represents(cut.byChecksum, x);
      }
    }
    if LeastNamed(hash, skip, source, e) {
      assert e in cut.entries && Represents(cut.byChecksum, e);
      var kept := cut.byChecksum[e.checksum];
      assert Visible(hash, skip, source, kept);
      if kept != e {
        LessTransitive(e.path, kept.path, e.path);
        LessIrreflexive(e.path);
      }
    }
  }

  lemma StandsDecides(a: map<string, Entry>, b: map<string, Entry>)
    requires forall c :: c in a ==> a[c].checksum == c
    requires forall c :: c in b ==> b[c].checksum == c
    ensures a == b <==> forall e :: Stands(a, e) <==> Stands(b, e)
  {
    if forall e :: Stands(a, e) <==> Stands(b, e) {
      forall c | c in a ensures c in b && b[c] == a[c] { assert Stands(a, a[c]); }
      forall c | c in b ensures c in a && a[c] == b[c] { assert Stands(b, b[c]); }
    }
  }

  /** For any tree and any excluder the two forms keep the same entries for their checksums exactly when, checksum by
      checksum, the file the walk meets first is the file of least path. */
  lemma RepresentativesAgreeExactly(hash: Hash, root: Forest, s: seq<string>, source: Forest, skip: string -> bool,
                                    id: string, rootDir: string, dir: string)
    requires ValidForest(root) && Below(root, s) == Some(source)
    ensures Direct(hash, skip, id, dir, source).byChecksum
              == Cut(id, rootDir, IndexOf(hash, root), PrefixOf(s), skip).byChecksum
       <==> forall e :: FirstMet(hash, skip, source, e) <==> LeastNamed(hash, skip, source, e)
  {
    var direct, cut := Direct(hash, skip, id, dir, source), Cut(id, rootDir, IndexOf(hash, root), PrefixOf(s), skip);
    BelowValid(root, s, source);
    KeptAreListed(Walk(hash, skip, source, []));
    KeptAreListed(Project(IndexOf(hash, root), PrefixOf(s), skip));
    StandsDecides(direct.byChecksum, cut.byChecksum);
    forall e
      ensures Stands(direct.byChecksum, e) <==> FirstMet(hash, skip, source, e)
      ensures Stands(cut.byChecksum, e) <==> LeastNamed(hash, skip, source, e)
    {
      DirectKeepsFirstMet(hash, skip, id, dir, source, e);
      CutKeepsLeastNamed(hash, root, s, source, skip, id, rootDir, e);
    }
  }

  /* ------------------------------------------------------------------ a tree on which they differ */

  function TwoCopies(info: FileInfo): Forest
  {
    Cons("a", Dir(Cons("x", File(info), Nil)), Cons("a-b", File(info), Nil))
  }

  lemma TwoCopiesWalk(hash: Hash, info: FileInfo)
    ensures ValidForest(TwoCopies(info))
    ensures Walk(hash, Nothing, TwoCopies(info), []) == [EntryOf(hash, ["a", "x"], info), EntryOf(hash, ["a-b"], info)]
  {
    var kids, tail := Cons("x", File(info), Nil), Cons("a-b", File(info), Nil);
    assert "a-b" == "a" + "-b" && "a" == "a" + "";
    LessCancel("a", "", "-b");
    assert Ahead("a", tail) && ValidForest(Nil);
    assert ValidForest(kids) && ValidForest(tail);
    assert [] + ["a"] == ["a"] && ["a"] + ["x"] == ["a", "x"] && [] + ["a-b"] == ["a-b"];
    assert Walk(hash, Nothing, kids, ["a"]) == [EntryOf(hash, ["a", "x"], info)] by {
      assert Walk(hash, Nothing, Nil, ["a"]) == [];
    }
    assert Walk(hash, Nothing, tail, []) == [EntryOf(hash, ["a-b"], info)] by {
      assert Walk(hash, Nothing, Nil, []) == [];
    }
  }

  lemma FirstKept(a: Entry, b: Entry)
    requires a.checksum == b.checksum
    ensures ByChecksum([a, b]) == map[a.checksum := a]
  {
    assert [a, b][..1] == [a] && [a][..0] == [];
    assert ByChecksum([a]) == map[a.checksum := a] by { assert ByChecksum([]) == map[]; }
  }

  lemma ProjectAll(a: Entry, b: Entry)
    requires a.path != "." && b.path != "."
    ensures Project([a, b], "", Nothing) == [a, b]
  {
    assert [a, b][..1] == [a] && [a][..0] == [];
    assert Projected(a, "", Nothing) == Some(a) && Projected(b, "", Nothing) == Some(b);
    assert Project([a], "", Nothing) == [a] by { assert Project([], "", Nothing) == []; }
  }

  lemma TwoCopiesSorted(hash: Hash, info: FileInfo)
    ensures var ax, ab := EntryOf(hash, ["a", "x"], info), EntryOf(hash, ["a-b"], info);
            ax.path == "a/x" && ab.path == "a-b" && SortByPath([ax, ab]) == [ab, ax]
  {
    var ax, ab := EntryOf(hash, ["a", "x"], info), EntryOf(hash, ["a-b"], info);
    assert ax.path == "a/x" by { assert ["a", "x"][1..] == ["x"]; }
    assert ab.path == "a-b" == "a" + "-b" && ax.path == "a" + "/x";
    LessCancel("a", "-b", "/x");
    SortIncreasing([ax, ab]);
    SameMembers([ax, ab], SortByPath([ax, ab]));
    IncreasingUnique(SortByPath([ax, ab]), [ab, ax]);
  }

  /** The representative of a checksum is not part of the refinement: the walk meets "a/x" before "a-b",
      the index sorts "a-b" before "a/x". */
  lemma RepresentativesDiffer(hash: Hash, info: FileInfo)
    ensures var ax, ab := EntryOf(hash, ["a", "x"], info), EntryOf(hash, ["a-b"], info);
            && ax != ab && ValidForest(TwoCopies(info))
            && Direct(hash, Nothing, "", "", TwoCopies(info)).byChecksum == map[hash(info.content) := ax]
            && Cut("", "", IndexOf(hash, TwoCopies(info)), "", Nothing).byChecksum == map[hash(info.content) := ab]
  {
    var ax, ab := EntryOf(hash, ["a", "x"], info), EntryOf(hash, ["a-b"], info);
    TwoCopiesWalk(hash, info);
    TwoCopiesSorted(hash, info);
    FirstKept(ax, ab);
    FirstKept(ab, ax);
    ProjectAll(ab, ax);
  }
}
