/** The direct walk of a source directory, the module index, and the snapshot cut from the index. */
module Snapshot {
  import opened Options
  import opened Paths
  import opened Manifest
  import opened FileTree

  /** No exclusion: the scan of a whole module never asks the excluder. */
  predicate Nothing(p: string)
  {
    false
  }

  /** The index of a module: everything in it, sorted by path. */
  function IndexOf(hash: Hash, root: Forest): seq<Entry>
  {
    SortByPath(Walk(hash, Nothing, root, []))
  }

  /** The specification: a pruned walk of the source directory itself. */
  function DirectEntries(hash: Hash, skip: string -> bool, source: Forest): seq<Entry>
  {
    SortByPath(Walk(hash, skip, source, []))
  }

  /** An index path seen from the source directory. */
  function RelPath(path: string, prefix: string): Option<string>
  {
    if prefix == "" then Some(path)
    else if path == prefix then Some(".")
    else if prefix + "/" <= path then Some(path[|prefix| + 1..])
    else None
  }

  function Projected(item: Entry, prefix: string, skip: string -> bool): Option<Entry>
  {
    match RelPath(item.path, prefix)
    case None => None
    case Some(rel) => if rel == "." || skip(rel) then None else Some(item.(path := rel))
  }

  /** Filtering and prefix stripping, entry by entry. */
  function Project(items: seq<Entry>, prefix: string, skip: string -> bool): seq<Entry>
  {
    if items == [] then []
    else
      var init := Project(items[..|items| - 1], prefix, skip);
      match Projected(items[|items| - 1], prefix, skip)
      case None => init
      case Some(e) => init + [e]
  }

  /** The prefix buildSnapshot makes of the requested source path. */
  function SourcePrefix(sourcePath: string): string
  {
    var clean := Clean(sourcePath);
    if clean == "." then ""
    else
      var p := if "./" <= clean then clean[2..] else clean;
      if "/" <= p then p[1..] else p
  }

  function PrefixOf(s: seq<string>): string
  {
    if s == [] then "" else Render(s)
  }

  /** The forest below a path of names: the tree itself for the empty path. */
  function Below(root: Forest, s: seq<string>): Option<Forest>
  {
    if s == [] then Some(root)
    else match Find(root, s)
      case Some(Dir(kids)) => Some(kids)
      case _ => None
  }

  lemma SourcePrefixIsLocal(s: seq<string>)
    requires Names(s)
    ensures SourcePrefix(Render(s)) == PrefixOf(s)
    ensures s != [] ==> SourcePrefix("/" + Render(s)) == PrefixOf(s)
  {
    RenderNames(s);
    CleanNonEmpty(Render(s));
    if s != [] {
      NamesReduced(s);
      RootedComponents(s);
      RenderNames([]);
      assert Render(s) != "." by { if Render(s) == "." { RenderInjective(s, []); } }
    }
  }

  /* ------------------------------------------------------------------ order */

  lemma {:induction false} ProjectMembers(items: seq<Entry>, prefix: string, skip: string -> bool)
    ensures forall e :: e in Project(items, prefix, skip) <==>
              exists i | 0 <= i < |items| :: Projected(items[i], prefix, skip) == Some(e)
  {
    if items != [] {
      var init, last := items[..|items| - 1], items[|items| - 1];
      ProjectMembers(init, prefix, skip);
      forall e ensures e in Project(items, prefix, skip) <==>
                 exists i | 0 <= i < |items| :: Projected(items[i], prefix, skip) == Some(e)
      {
        if i :| 0 <= i < |items| && Projected(items[i], prefix, skip) == Some(e) {
          if i < |init| { assert init[i] == items[i]; }
        }
        if i :| 0 <= i < |init| && Projected(init[i], prefix, skip) == Some(e) {
          assert items[i] == init[i];
        }
      }
    }
  }

  lemma ProjectedOrder(a: Entry, b: Entry, prefix: string, skip: string -> bool)
    requires Less(a.path, b.path) && Projected(a, prefix, skip).Some? && Projected(b, prefix, skip).Some?
    ensures Less(Projected(a, prefix, skip).value.path, Projected(b, prefix, skip).value.path)
  {
    if prefix != "" {
      var ra, rb := a.path[|prefix| + 1..], b.path[|prefix| + 1..];
      assert a.path == (prefix + "/") + ra && b.path == (prefix + "/") + rb;
      LessCancel(prefix + "/", ra, rb);
    }
  }

  /** Stripping a common prefix keeps the entries strictly increasing, so the final sort changes nothing. */
  lemma {:induction false} ProjectIncreasing(items: seq<Entry>, prefix: string, skip: string -> bool)
    requires Increasing(items)
    ensures Increasing(Project(items, prefix, skip))
    ensures SortByPath(Project(items, prefix, skip)) == Project(items, prefix, skip)
  {
    if items != [] {
      var init, last := items[..|items| - 1], items[|items| - 1];
      ProjectIncreasing(init, prefix, skip);
      var k := Projected(last, prefix, skip);
      if k.Some? {
        ProjectMembers(init, prefix, skip);
        var p := Project(init, prefix, skip);
        forall j | 0 <= j < |p| ensures Less(p[j].path, k.value.path) {
          assert p[j] in p;
          var i :| 0 <= i < |init| && Projected(init[i], prefix, skip) == Some(p[j]);
          assert init[i] == items[i];
          ProjectedOrder(items[i], last, prefix, skip);
        }
      }
    }
    SortFixed(Project(items, prefix, skip));
  }

  /* ------------------------------------------------- index against direct walk */

  ghost predicate FileEntry(hash: Hash, f: Forest, q: seq<string>, e: Entry)
  {
    Names(q) && HasFile(f, q) && e == EntryAt(hash, f, q)
  }

  /** `e` is a file of `f` that no exclusion on the way hides. */
  ghost predicate Reached(hash: Hash, skip: string -> bool, f: Forest, e: Entry)
  {
    exists q :: FileEntry(hash, f, q, e) && Clear(skip, [], q)
  }

  /** `e` is a file of `f` whose own path is not excluded. */
  ghost predicate Visible(hash: Hash, skip: string -> bool, f: Forest, e: Entry)
  {
    exists q :: FileEntry(hash, f, q, e) && !skip(Render(q))
  }

  lemma WalkExact(hash: Hash, skip: string -> bool, f: Forest, e: Entry)
    requires ValidForest(f)
    ensures e in Walk(hash, skip, f, []) <==> Reached(hash, skip, f, e)
  {
    if e in Walk(hash, skip, f, []) {
      var q := WalkSound(hash, skip, f, [], e);
      assert [] + q == q;
      assert FileEntry(hash, f, q, e);
    }
    if q :| FileEntry(hash, f, q, e) && Clear(skip, [], q) {
      WalkComplete(hash, skip, f, [], q);
      assert [] + q == q;
    }
  }

  /** The walk lists, in order, exactly the files that no exclusion on the way hides. */
  lemma DirectExact(hash: Hash, skip: string -> bool, source: Forest)
    requires ValidForest(source)
    ensures Increasing(DirectEntries(hash, skip, source))
    ensures forall e :: e in DirectEntries(hash, skip, source) <==> Reached(hash, skip, source, e)
  {
    var w := Walk(hash, skip, source, []);
    WalkDistinct(hash, skip, source, []);
    SortIncreasing(w);
    SameMembers(w, DirectEntries(hash, skip, source));
    forall e ensures e in w <==> Reached(hash, skip, source, e) {
      WalkExact(hash, skip, source, e);
    }
  }

  lemma IndexExact(hash: Hash, root: Forest)
    requires ValidForest(root)
    ensures Increasing(IndexOf(hash, root))
    ensures forall e :: e in IndexOf(hash, root) <==> exists q :: FileEntry(hash, root, q, e)
  {
    DirectExact(hash, Nothing, root);
    forall e ensures Reached(hash, Nothing, root, e) <==> exists q :: FileEntry(hash, root, q, e) {
      if q :| FileEntry(hash, root, q, e) {
        assert Clear(Nothing, [], q);
      }
    }
  }

  lemma BelowFinds(root: Forest, s: seq<string>, source: Forest, q: seq<string>)
    requires Below(root, s) == Some(source) && q != []
    ensures Find(root, s + q) == Find(source, q)
  {
    if s == [] {
      assert s + q == q;
    } else {
      FindBelow(root, s, q);
    }
  }

  lemma BelowValid(root: Forest, s: seq<string>, source: Forest)
    requires ValidForest(root) && Below(root, s) == Some(source)
    ensures ValidForest(source) && Names(s)
  {
    if s != [] {
      FindValid(root, s);
      FindNames(root, s);
    }
  }

  /** What buildSnapshot makes of the index entry of one file. */
  lemma ProjectedExact(hash: Hash, root: Forest, s: seq<string>, t: seq<string>, skip: string -> bool)
    requires Names(s) && Names(t) && HasFile(root, t)
    ensures Projected(EntryAt(hash, root, t), PrefixOf(s), skip)
         == if s < t && !skip(Render(t[|s|..])) then Some(EntryAt(hash, root, t).(path := Render(t[|s|..]))) else None
  {
    var e := EntryAt(hash, root, t);
    assert t != [];
    RenderNames([]);
    assert Render(t) != "." by { if Render(t) == "." { RenderInjective(t, []); } }
    if s == [] {
      assert t[0..] == t;
    } else {
      SlashPrefix(s, t);
      if Render(s) == Render(t) {
        RenderInjective(s, t);
      } else if s < t {
        var q := t[|s|..];
        assert t == s + q;
        StripPrefix(s, q);
        assert Render(q) != "." by { if Render(q) == "." { RenderInjective(q, []); } }
      }
    }
  }

  lemma ProjectSound(hash: Hash, root: Forest, s: seq<string>, source: Forest, skip: string -> bool, item: Entry,
                     e: Entry)
    requires ValidForest(root) && Below(root, s) == Some(source)
    requires item in IndexOf(hash, root) && Projected(item, PrefixOf(s), skip) == Some(e)
    ensures Visible(hash, skip, source, e)
  {
    IndexExact(hash, root);
    var t :| FileEntry(hash, root, t, item);
    BelowValid(root, s, source);
    ProjectedBelow(hash, root, s, source, t, skip);
    assert FileEntry(hash, source, t[|s|..], e);
  }

  lemma ProjectedBelow(hash: Hash, root: Forest, s: seq<string>, source: Forest, t: seq<string>, skip: string -> bool)
    requires Names(s) && Names(t) && HasFile(root, t) && Below(root, s) == Some(source)
    requires Projected(EntryAt(hash, root, t), PrefixOf(s), skip).Some?
    ensures s < t && HasFile(source, t[|s|..]) && !skip(Render(t[|s|..]))
    ensures Projected(EntryAt(hash, root, t), PrefixOf(s), skip).value == EntryAt(hash, source, t[|s|..])
  {
    ProjectedExact(hash, root, s, t, skip);
    assert t == s + t[|s|..];
    BelowFinds(root, s, source, t[|s|..]);
  }

  lemma ProjectComplete(hash: Hash, root: Forest, s: seq<string>, source: Forest, skip: string -> bool,
                        e: Entry) returns (item: Entry)
    requires ValidForest(root) && Below(root, s) == Some(source) && Visible(hash, skip, source, e)
    ensures item in IndexOf(hash, root) && Projected(item, PrefixOf(s), skip) == Some(e)
  {
    BelowValid(root, s, source);
    IndexExact(hash, root);
    var q :| FileEntry(hash, source, q, e) && !skip(Render(q));
    var t := s + q;
    BelowFinds(root, s, source, q);
    ProjectedExact(hash, root, s, t, skip);
    assert t[|s|..] == q;
    item := EntryAt(hash, root, t);
    assert FileEntry(hash, root, t, item);
  }

  /** The snapshot cut from the index lists, in order, exactly the files below the source whose own path is not
      excluded. */
  lemma SnapshotExact(hash: Hash, root: Forest, s: seq<string>, source: Forest, skip: string -> bool)
    requires ValidForest(root) && Below(root, s) == Some(source)
    ensures Increasing(Project(IndexOf(hash, root), PrefixOf(s), skip))
    ensures forall e :: e in Project(IndexOf(hash, root), PrefixOf(s), skip) <==> Visible(hash, skip, source, e)
  {
    var index, prefix := IndexOf(hash, root), PrefixOf(s);
    IndexExact(hash, root);
    ProjectIncreasing(index, prefix, skip);
    ProjectMembers(index, prefix, skip);
    forall e ensures e in Project(index, prefix, skip) <==> Visible(hash, skip, source, e) {
      if i :| 0 <= i < |index| && Projected(index[i], prefix, skip) == Some(e) {
        ProjectSound(hash, root, s, source, skip, index[i], e);
      }
      if Visible(hash, skip, source, e) {
        var item := ProjectComplete(hash, root, s, source, skip, e);
        var i :| 0 <= i < |index| && index[i] == item;
      }
    }
  }

  /** For any excluder the walk lists a part of what the index lists. */
  lemma WalkWithinIndex(hash: Hash, root: Forest, s: seq<string>, source: Forest, skip: string -> bool)
    requires ValidForest(root) && Below(root, s) == Some(source)
    ensures forall e :: e in DirectEntries(hash, skip, source) ==> e in Project(IndexOf(hash, root), PrefixOf(s), skip)
  {
    BelowValid(root, s, source);
    SnapshotExact(hash, root, s, source, skip);
    DirectExact(hash, skip, source);
    forall e | Reached(hash, skip, source, e) ensures Visible(hash, skip, source, e) {
      var q :| FileEntry(hash, source, q, e) && Clear(skip, [], q);
      assert [] + q[..|q|] == q;
    }
  }

  /** Some file is not excluded itself but lies in an excluded directory. */
  ghost predicate Shadowed(skip: string -> bool, source: Forest)
  {
    exists q :: Names(q) && HasFile(source, q) && !skip(Render(q)) && !Clear(skip, [], q)
  }

  /** Index and walk agree, for any tree and any excluder, exactly when no file is shadowed. */
  lemma IndexIsWalkExactly(hash: Hash, root: Forest, s: seq<string>, source: Forest, skip: string -> bool)
    requires ValidForest(root) && Below(root, s) == Some(source)
    ensures Project(IndexOf(hash, root), PrefixOf(s), skip) == DirectEntries(hash, skip, source) <==>
              !Shadowed(skip, source)
  {
    BelowValid(root, s, source);
    SnapshotExact(hash, root, s, source, skip);
    DirectExact(hash, skip, source);
    WalkWithinIndex(hash, root, s, source, skip);
    var p, d := Project(IndexOf(hash, root), PrefixOf(s), skip), DirectEntries(hash, skip, source);
    if q :| Names(q) && HasFile(source, q) && !skip(Render(q)) && !Clear(skip, [], q) {
      var e := EntryAt(hash, source, q);
      assert FileEntry(hash, source, q, e);
      assert e in p;
      if e in d {
        var r :| FileEntry(hash, source, r, e) && Clear(skip, [], r);
        RenderInjective(q, r);
      }
    } else {
      forall e | Visible(hash, skip, source, e) ensures Reached(hash, skip, source, e) {
        var q :| FileEntry(hash, source, q, e) && !skip(Render(q));
        assert Clear(skip, [], q);
      }
      IncreasingUnique(p, d);
    }
  }
}
