/** The module index: scanning, rebuilding, cutting snapshots, and serving objects from them. */
module Indexer {
  import opened Options
  import opened Paths
  import opened Manifest
  import opened Exclude
  import opened FileTree
  import opened Snapshot

  datatype Snap = Snap(id: string, sourceDir: string, entries: seq<Entry>, byPath: map<string, Entry>,
    byChecksum: map<string, Entry>)

  /** What a walk callback appends to, one file at a time. */
  class Collector {
    var entries: seq<Entry>
    var byPath: map<string, Entry>
    var byChecksum: map<string, Entry>

    ghost predicate Valid()
      reads this
    {
      byPath == ByPath(entries) && byChecksum == ByChecksum(entries)
    }

    constructor ()
      ensures Valid() && entries == []
    {
      entries, byPath, byChecksum := [], map[], map[];
    }

    method Add(e: Entry)
      requires Valid()
      modifies this
      ensures Valid() && entries == old(entries) + [e]
    {
      entries := entries + [e];
      byPath := byPath[e.path := e];
      if e.checksum !in byChecksum {
        byChecksum := byChecksum[e.checksum := e];
      }
      assert entries[..|entries| - 1] == old(entries);
    }

    /** WalkDir at one node: the callback, then the children unless the directory was skipped. */
    method VisitNode(hash: Hash, skip: string -> bool, node: Node, here: seq<string>)
      requires Valid()
      modifies this
      ensures Valid() && entries == old(entries) + WalkNode(hash, skip, node, here)
      decreases node
    {
      if !skip(Render(here)) {
        match node {
          case File(info) => Add(EntryOf(hash, here, info));
          case Special =>
          case Dir(kids) => Visit(hash, skip, kids, here);
        }
      }
    }

    /** WalkDir over the entries of one directory. */
    method Visit(hash: Hash, skip: string -> bool, f: Forest, at: seq<string>)
      requires Valid()
      modifies this
      ensures Valid() && entries == old(entries) + Walk(hash, skip, f, at)
      decreases f
    {
      match f {
        case Nil =>
        case Cons(n, node, rest) =>
          VisitNode(hash, skip, node, at + [n]);
          Visit(hash, skip, rest, at);
          assert Walk(hash, skip, f, at) == WalkNode(hash, skip, node, at + [n]) + Walk(hash, skip, rest, at);
      }
    }
  }

  /** BuildSnapshot: the pruned direct walk. */
  method BuildDirect(hash: Hash, skip: string -> bool, id: string, sourceDir: string,
                     source: Forest) returns (snap: Snap)
    ensures snap == Direct(hash, skip, id, sourceDir, source)
  {
    var c := new Collector();
    c.Visit(hash, skip, source, []);
    assert [] + Walk(hash, skip, source, []) == Walk(hash, skip, source, []);
    snap := Snap(id, sourceDir, SortByPath(c.entries), c.byPath, c.byChecksum);
  }

  function Direct(hash: Hash, skip: string -> bool, id: string, sourceDir: string, source: Forest): Snap
  {
    var w := Walk(hash, skip, source, []);
    Snap(id, sourceDir, SortByPath(w), ByPath(w), ByChecksum(w))
  }

  /** scanModuleSnapshot: everything, sorted by path. */
  method ScanModule(hash: Hash, root: Forest) returns (entries: seq<Entry>, byPath: map<string, Entry>)
    ensures entries == IndexOf(hash, root) && byPath == ByPath(Walk(hash, Nothing, root, []))
  {
    var c := new Collector();
    c.Visit(hash, Nothing, root, []);
    assert [] + Walk(hash, Nothing, root, []) == Walk(hash, Nothing, root, []);
    entries, byPath := SortByPath(c.entries), c.byPath;
  }

  /** buildSnapshot: the same snapshot cut from the index entries. */
  function Cut(id: string, rootDir: string, items: seq<Entry>, prefix: string, skip: string -> bool): Snap
  {
    var p := Project(items, prefix, skip);
    Snap(id, JoinPath(rootDir, prefix), SortByPath(p), ByPath(p), ByChecksum(p))
  }

  lemma AppendMaps(es: seq<Entry>, e: Entry)
    ensures ByPath(es + [e]) == ByPath(es)[e.path := e]
    ensures ByChecksum(es + [e]) == if e.checksum in ByChecksum(es) then ByChecksum(es)
              else ByChecksum(es)[e.checksum := e]
  {
    assert (es + [e])[..|es|] == es;
  }

  lemma ProjectNext(items: seq<Entry>, i: nat, prefix: string, skip: string -> bool)
    requires i < |items|
    ensures Project(items[..i + 1], prefix, skip)
         == match Projected(items[i], prefix, skip)
            case None => Project(items[..i], prefix, skip)
            case Some(e) => Project(items[..i], prefix, skip) + [e]
  {
    assert items[..i + 1][..i] == items[..i];
  }

  datatype IndexError = NotReady | ScanFailed(message: string)

  class ModuleIndex {
    const rootDir: string
    var data: Option<seq<Entry>>
    var lastErr: Option<string>

    constructor (rootDir: string)
      ensures this.rootDir == rootDir && data == None && lastErr == None
    {
      this.rootDir := rootDir;
      data, lastErr := None, None;
    }

    /** A failed scan keeps the old data and remembers the error; a good one replaces both. */
    method Rebuild(hash: Hash, tree: Result<Forest, string>)
      modifies this
      ensures tree.Ok? ==> data == Some(IndexOf(hash, tree.value)) && lastErr == None
      ensures tree.Err? ==> data == old(data) && lastErr == Some(tree.error)
    {
      match tree {
        case Err(e) =>
          lastErr := Some(e);
        case Ok(root) =>
          var entries, _ := ScanModule(hash, root);
          data, lastErr := Some(entries), None;
      }
    }

    method BuildSnapshot(id: string, sourcePath: string, m: Matcher, ex: Excluder) returns (r: Result<Snap, IndexError>)
      ensures data.None? ==> r == Err(if lastErr.Some? then ScanFailed(lastErr.value) else NotReady)
      ensures data.Some? ==> r == Ok(Cut(id, rootDir, data.value, SourcePrefix(sourcePath), Skip(m, ex)))
    {
      if data.None? {
        return Err(if lastErr.Some? then ScanFailed(lastErr.value) else NotReady);
      }
      var items := data.value;
      var prefix := SourcePrefix(sourcePath);
      var entries: seq<Entry> := [];
      var byPath: map<string, Entry> := map[];
      var byChecksum: map<string, Entry> := map[];
      for i := 0 to |items|
        invariant entries == Project(items[..i], prefix, Skip(m, ex))
        invariant byPath == ByPath(entries) && byChecksum == ByChecksum(entries)
      {
        ProjectNext(items, i, prefix, Skip(m, ex));
        var item := items[i];
        var rel := RelPath(item.path, prefix);
        if rel.Some? && rel.value != "." {
          var excluded := Match(m, ex, rel.value);
          if !excluded {
            var entry := item.(path := rel.value);
            AppendMaps(entries, entry);
            entries := entries + [entry];
            byPath := byPath[rel.value := entry];
            if entry.checksum !in byChecksum {
              byChecksum := byChecksum[entry.checksum := entry];
            }
          }
        }
      }
      assert items[..|items|] == items;
      return Ok(Snap(id, JoinPath(rootDir, prefix), SortByPath(entries), byPath, byChecksum));
    }
  }

  /* ------------------------------------------------------------------ the refinement */

  lemma ClosedNotShadowed(skip: string -> bool, source: Forest)
    requires DescendantClosed(skip)
    ensures !Shadowed(skip, source)
  {
    forall q | Names(q) && !skip(Render(q)) ensures Clear(skip, [], q) {
      forall i | 1 <= i <= |q| ensures !skip(Render([] + q[..i])) {
        assert [] + q[..i] == q[..i] && q == q[..i] + q[i..];
      }
    }
  }

  /** With a descendant-closed excluder the index gives the entries and the path map of the direct walk. */
  lemma IndexRefinesWalk(hash: Hash, root: Forest, s: seq<string>, source: Forest, skip: string -> bool, id: string,
                         rootDir: string)
    requires ValidForest(root) && Below(root, s) == Some(source) && DescendantClosed(skip)
    ensures var cut := Cut(id, rootDir, IndexOf(hash, root), PrefixOf(s), skip);
            var direct := Direct(hash, skip, id, cut.sourceDir, source);
            cut.entries == direct.entries && cut.byPath == direct.byPath
  {
    BelowValid(root, s, source);
    ClosedNotShadowed(skip, source);
    IndexIsWalkExactly(hash, root, s, source, skip);
    SnapshotExact(hash, root, s, source, skip);
    var p, w := Project(IndexOf(hash, root), PrefixOf(s), skip), Walk(hash, skip, source, []);
    SortFixed(p);
    WalkDistinct(hash, skip, source, []);
    IncreasingDistinct(p);
    SameMembers(w, p);
    SameMaps(p, w);
  }

  /** Ordered entries, a path map with exactly those entries, and for each checksum the entry of least path that has
      it. */
  ghost predicate Consistent(snap: Snap)
  {
    && Increasing(snap.entries)
    && (forall p :: p in snap.byPath ==> snap.byPath[p] in snap.entries && snap.byPath[p].path == p)
    && (forall e :: e in snap.entries ==> e.path in snap.byPath && snap.byPath[e.path] == e)
    && (forall c :: c in snap.byChecksum ==> snap.byChecksum[c] in snap.entries && snap.byChecksum[c].checksum == c)
    && (forall e :: e in snap.entries ==> Represents(snap.byChecksum, e))
  }

  lemma EntriesConsistent(id: string, dir: string, p: seq<Entry>)
    requires Increasing(p)
    ensures Consistent(Snap(id, dir, p, ByPath(p), ByChecksum(p)))
  {
    IncreasingDistinct(p);
    ByPathExact(p);
    ByChecksumLeast(p);
  }

  lemma SnapshotConsistent(hash: Hash, root: Forest, prefix: string, skip: string -> bool, id: string, rootDir: string)
    requires ValidForest(root)
    ensures Consistent(Cut(id, rootDir, IndexOf(hash, root), prefix, skip))
    ensures Cut(id, rootDir, IndexOf(hash, root), prefix, skip).entries == Project(IndexOf(hash, root), prefix, skip)
  {
    IndexExact(hash, root);
    ProjectIncreasing(IndexOf(hash, root), prefix, skip);
    EntriesConsistent(id, JoinPath(rootDir, prefix), Project(IndexOf(hash, root), prefix, skip));
  }

  /* ------------------------------------------------------------------ serving objects */

  /** handleObject: the entry found for a query and the file it opens. */
  function Lookup(snap: Snap, path: string, checksum: string): Option<(Entry, string)>
  {
    if checksum != "" then
      if checksum in snap.byChecksum
      then Some((snap.byChecksum[checksum], JoinPath(snap.sourceDir, snap.byChecksum[checksum].path))) else None
    else
      if path in snap.byPath then Some((snap.byPath[path], JoinPath(snap.sourceDir, path))) else None
  }

  /** Stripping the prefix and joining the source directory again leads to the indexed file. */
  lemma StripAndRejoin(rootDir: string, s: seq<string>, q: seq<string>)
    requires rootDir != "" && Names(s) && Names(q) && q != []
    ensures JoinPath(JoinPath(rootDir, PrefixOf(s)), Render(q)) == JoinPath(rootDir, Render(s + q))
  {
    assert Render(q) != "" && Render(s) != "";
    if s == [] {
      assert s + q == q;
      CleanNonEmpty(rootDir);
      CleanUnder(rootDir, Render(q));
    } else {
      StripPrefix(s, q);
      JoinPathAssociative(rootDir, Render(s), Render(q));
    }
  }

  lemma LookupFinds(snap: Snap, path: string, checksum: string)
    requires Consistent(snap) && Lookup(snap, path, checksum).Some?
    ensures var (e, file) := Lookup(snap, path, checksum).value;
            && e in snap.entries && file == JoinPath(snap.sourceDir, e.path)
            && (if checksum != "" then e.checksum == checksum else e.path == path)
  {
  }

  /** A file of the source that is not excluded. */
  predicate Offered(skip: string -> bool, source: Forest, q: seq<string>)
  {
    Names(q) && HasFile(source, q) && !skip(Render(q))
  }

  /** Something is found exactly when an offered file has the content, or the path, that was asked for. */
  lemma LookupFoundExactly(hash: Hash, root: Forest, s: seq<string>, source: Forest, skip: string -> bool, id: string,
                           rootDir: string, path: string, checksum: string)
    requires ValidForest(root) && Below(root, s) == Some(source)
    ensures Lookup(Cut(id, rootDir, IndexOf(hash, root), PrefixOf(s), skip), path, checksum).Some? <==>
            exists q :: Offered(skip, source, q)
                        && if checksum != "" then hash(Find(source, q).value.info.content) == checksum
                           else Render(q) == path
  {
    var cut := Cut(id, rootDir, IndexOf(hash, root), PrefixOf(s), skip);
    BelowValid(root, s, source);
    SnapshotConsistent(hash, root, PrefixOf(s), skip, id, rootDir);
    SnapshotExact(hash, root, s, source, skip);
    if Lookup(cut, path, checksum).Some? {
      LookupFinds(cut, path, checksum);
      var e := Lookup(cut, path, checksum).value.0;
      assert Visible(hash, skip, source, e);
      var q :| FileEntry(hash, source, q, e) && !skip(Render(q));
      assert Offered(skip, source, q);
    }
    if q :| Offered(skip, source, q)
            && if checksum != "" then hash(Find(source, q).value.info.content) == checksum else Render(q) == path {
      var e := EntryAt(hash, source, q);
      assert FileEntry(hash, source, q, e);
      assert Visible(hash, skip, source, e);
      assert e in cut.entries;
      assert Represents(cut.byChecksum, e);
    }
  }

  /** Whatever is served is a file of the module at the joined path, with the content that was asked for. */
  lemma LookupServesIndexedFile(hash: Hash, root: Forest, s: seq<string>, source: Forest, skip: string -> bool,
                                id: string, rootDir: string, path: string, checksum: string) returns (q: seq<string>)
    requires ValidForest(root) && Below(root, s) == Some(source) && rootDir != ""
    requires Lookup(Cut(id, rootDir, IndexOf(hash, root), PrefixOf(s), skip), path, checksum).Some?
    ensures Names(q) && HasFile(root, s + q) && !skip(Render(q))
    ensures var (e, file) := Lookup(Cut(id, rootDir, IndexOf(hash, root), PrefixOf(s), skip), path, checksum).value;
            var info := Find(root, s + q).value.info;
            && file == JoinPath(rootDir, Render(s + q))
            && e == EntryOf(hash, q, info)
            && (if checksum != "" then hash(info.content) == checksum else Render(q) == path)
  {
    var cut := Cut(id, rootDir, IndexOf(hash, root), PrefixOf(s), skip);
    BelowValid(root, s, source);
    SnapshotConsistent(hash, root, PrefixOf(s), skip, id, rootDir);
    var e := Lookup(cut, path, checksum).value.0;
    LookupFinds(cut, path, checksum);
    assert Visible(hash, skip, source, e) by {
      SnapshotExact(hash, root, s, source, skip);
    }
    q :| FileEntry(hash, source, q, e) && !skip(Render(q));
    BelowFinds(root, s, source, q);
    StripAndRejoin(rootDir, s, q);
  }
}
