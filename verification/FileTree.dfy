/** A directory tree, the walk over it, and what the walk lists. */
module FileTree {
  import opened Options
  import opened Paths
  import opened Manifest

  datatype FileInfo = FileInfo(content: Content, mode: nat, mtime: int)

  datatype Node = File(info: FileInfo) | Special | Dir(kids: Forest)

  /** The entries of one directory in the order filepath.WalkDir visits them. */
  datatype Forest = Nil | Cons(name: string, node: Node, rest: Forest)

  type Hash = Content -> string

  predicate Ahead(name: string, f: Forest)
  {
    match f
    case Nil => true
    case Cons(n, _, rest) => Less(name, n) && Ahead(name, rest)
  }

  /** Real names, each directory in increasing order. */
  predicate ValidNode(node: Node)
  {
    match node
    case Dir(kids) => ValidForest(kids)
    case _ => true
  }

  predicate ValidForest(f: Forest)
  {
    match f
    case Nil => true
    case Cons(n, node, rest) => IsName(n) && ValidNode(node) && Ahead(n, rest) && ValidForest(rest)
  }

  /** The node at a path of component names, if there is one. */
  function Find(f: Forest, q: seq<string>): Option<Node>
    decreases f
  {
    if q == [] then None
    else match f
      case Nil => None
      case Cons(n, node, rest) =>
        if n != q[0] then Find(rest, q)
        else if |q| == 1 then Some(node)
        else match node
          case Dir(kids) => Find(kids, q[1..])
          case _ => None
  }

  predicate HasFile(f: Forest, q: seq<string>)
  {
    Find(f, q).Some? && Find(f, q).value.File?
  }

  function EntryOf(hash: Hash, at: seq<string>, info: FileInfo): Entry
  {
    Entry(Render(at), |info.content|, info.mode, info.mtime, hash(info.content))
  }

  function EntryAt(hash: Hash, f: Forest, q: seq<string>): Entry
    requires HasFile(f, q)
  {
    EntryOf(hash, q, Find(f, q).value.info)
  }

  /** The entries a WalkDir over `f` collects when `skip` is asked about every node and prunes directories. */
  function Walk(hash: Hash, skip: string -> bool, f: Forest, at: seq<string>): seq<Entry>
    decreases f
  {
    match f
    case Nil => []
    case Cons(n, node, rest) =>
      WalkNode(hash, skip, node, at + [n]) + Walk(hash, skip, rest, at)
  }

  /** What it collects at one node. */
  function WalkNode(hash: Hash, skip: string -> bool, node: Node, here: seq<string>): seq<Entry>
    decreases node
  {
    if skip(Render(here)) then []
    else match node
      case File(info) => [EntryOf(hash, here, info)]
      case Special => []
      case Dir(kids) => Walk(hash, skip, kids, here)
  }

  /** Neither the file nor any directory on the way to it is skipped. */
  predicate Clear(skip: string -> bool, at: seq<string>, q: seq<string>)
  {
    forall i | 1 <= i <= |q| :: !skip(Render(at + q[..i]))
  }

  lemma {:induction false} AheadMisses(name: string, f: Forest, q: seq<string>)
    requires Ahead(name, f) && q != [] && Find(f, q).Some?
    ensures q[0] != name
    decreases f
  {
    LessIrreflexive(name);
    if f.Cons? && f.name != q[0] {
      AheadMisses(name, f.rest, q);
    }
  }

  lemma {:induction false} FindNames(f: Forest, q: seq<string>)
    requires ValidForest(f) && Find(f, q).Some?
    ensures q != [] && Names(q)
    decreases f
  {
    var Cons(n, node, rest) := f;
    if n != q[0] {
      FindNames(rest, q);
    } else if |q| > 1 {
      FindNames(node.kids, q[1..]);
      assert q == [n] + q[1..];
    }
  }

  lemma {:induction false} FindValid(f: Forest, q: seq<string>)
    requires ValidForest(f) && Find(f, q).Some?
    ensures ValidNode(Find(f, q).value)
    decreases f
  {
    var Cons(n, node, rest) := f;
    if n != q[0] {
      FindValid(rest, q);
    } else if |q| > 1 {
      FindValid(node.kids, q[1..]);
    }
  }

  /** Looking up below a directory continues the lookup of the directory. */
  lemma {:induction false} FindBelow(f: Forest, s: seq<string>, q: seq<string>)
    requires s != [] && q != []
    ensures Find(f, s + q) == match Find(f, s)
              case Some(Dir(kids)) => Find(kids, q)
              case _ => None
    decreases f
  {
    if f.Cons? {
      assert (s + q)[0] == s[0];
      if f.name != s[0] {
        FindBelow(f.rest, s, q);
      } else if |s| == 1 {
        assert (s + q)[1..] == q;
      } else if f.node.Dir? {
        assert (s + q)[1..] == s[1..] + q;
        FindBelow(f.node.kids, s[1..], q);
      }
    }
  }

  lemma {:induction false} WalkComplete(hash: Hash, skip: string -> bool, f: Forest, at: seq<string>, q: seq<string>)
    requires ValidForest(f) && HasFile(f, q) && Clear(skip, at, q)
    ensures EntryOf(hash, at + q, Find(f, q).value.info) in Walk(hash, skip, f, at)
    decreases f
  {
    var Cons(n, node, rest) := f;
    if n != q[0] {
      WalkComplete(hash, skip, rest, at, q);
    } else {
      assert q[..1] == [n];
      assert !skip(Render(at + q[..1]));
      if |q| > 1 {
        forall i | 1 <= i <= |q[1..]| ensures !skip(Render((at + [n]) + q[1..][..i])) {
          assert (at + [n]) + q[1..][..i] == at + q[..i + 1];
        }
        WalkComplete(hash, skip, node.kids, at + [n], q[1..]);
        assert (at + [n]) + q[1..] == at + q;
      } else {
        assert at + [n] == at + q;
      }
    }
  }

  lemma {:induction false} WalkSound(hash: Hash, skip: string -> bool, f: Forest, at: seq<string>,
                                     e: Entry) returns (q: seq<string>)
    requires ValidForest(f) && e in Walk(hash, skip, f, at)
    ensures HasFile(f, q) && Names(q) && q != [] && Clear(skip, at, q)
    ensures e == EntryOf(hash, at + q, Find(f, q).value.info)
    decreases f
  {
    var Cons(n, node, rest) := f;
    if e in Walk(hash, skip, rest, at) {
      q := WalkSound(hash, skip, rest, at, e);
      AheadMisses(n, rest, q);
    } else {
      q := NodeSound(hash, skip, n, node, at, e);
    }
  }

  lemma {:induction false} NodeSound(hash: Hash, skip: string -> bool, n: string, node: Node, at: seq<string>,
                                     e: Entry) returns (q: seq<string>)
    requires IsName(n) && ValidNode(node) && e in WalkNode(hash, skip, node, at + [n])
    ensures q != [] && q[0] == n && Names(q) && Clear(skip, at, q)
    ensures if |q| == 1 then node.File? else node.Dir? && HasFile(node.kids, q[1..])
    ensures e == EntryOf(hash, at + q, if |q| == 1 then node.info else Find(node.kids, q[1..]).value.info)
    decreases node
  {
    if node.File? {
      q := [n];
      assert at + q[..1] == at + [n];
    } else {
      var r := WalkSound(hash, skip, node.kids, at + [n], e);
      q := [n] + r;
      assert q[1..] == r && at + [n] + r == at + q;
      ClearBelow(skip, at, n, r);
    }
  }

  lemma ClearBelow(skip: string -> bool, at: seq<string>, n: string, r: seq<string>)
    requires !skip(Render(at + [n])) && Clear(skip, at + [n], r)
    ensures Clear(skip, at, [n] + r)
  {
    var q := [n] + r;
    forall i | 1 <= i <= |q| ensures !skip(Render(at + q[..i])) {
      if i == 1 {
        assert at + q[..1] == at + [n];
      } else {
        assert at + q[..i] == at + [n] + r[..i - 1];
      }
    }
  }

  /** A walk lists no path twice. */
  lemma {:induction false} WalkDistinct(hash: Hash, skip: string -> bool, f: Forest, at: seq<string>)
    requires ValidForest(f) && Names(at)
    ensures DistinctPaths(Walk(hash, skip, f, at))
    decreases f
  {
    if f.Cons? {
      var Cons(n, node, rest) := f;
      WalkDistinct(hash, skip, rest, at);
      if node.Dir? {
        WalkDistinct(hash, skip, node.kids, at + [n]);
      }
      WalkApart(hash, skip, f, at);
    }
  }

  lemma WalkApart(hash: Hash, skip: string -> bool, f: Forest, at: seq<string>)
    requires ValidForest(f) && Names(at) && f.Cons?
    requires DistinctPaths(WalkNode(hash, skip, f.node, at + [f.name])) && DistinctPaths(Walk(hash, skip, f.rest, at))
    ensures DistinctPaths(Walk(hash, skip, f, at))
  {
    var first, tail := WalkNode(hash, skip, f.node, at + [f.name]), Walk(hash, skip, f.rest, at);
    forall i, j | 0 <= i < |first| && 0 <= j < |tail| ensures first[i].path != tail[j].path {
      EntriesApart(hash, skip, f, at, first[i], tail[j]);
    }
    DistinctConcat(first, tail);
  }

  lemma DistinctConcat(a: seq<Entry>, b: seq<Entry>)
    requires DistinctPaths(a) && DistinctPaths(b)
    requires forall i, j | 0 <= i < |a| && 0 <= j < |b| :: a[i].path != b[j].path
    ensures DistinctPaths(a + b)
  {
  }

  lemma EntriesApart(hash: Hash, skip: string -> bool, f: Forest, at: seq<string>, a: Entry, b: Entry)
    requires ValidForest(f) && Names(at) && f.Cons?
    requires a in WalkNode(hash, skip, f.node, at + [f.name]) && b in Walk(hash, skip, f.rest, at)
    ensures a.path != b.path
  {
    var p := NodeSound(hash, skip, f.name, f.node, at, a);
    var q := WalkSound(hash, skip, f.rest, at, b);
    AheadMisses(f.name, f.rest, q);
    assert (at + p)[|at|] == p[0] && (at + q)[|at|] == q[0];
    if a.path == b.path {
      RenderInjective(at + p, at + q);
    }
  }
}
