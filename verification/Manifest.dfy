/** Manifest entries, their byte-wise path order, and sorting by path. */
module Manifest {
  newtype byte = x: int | 0 <= x < 256

  type Content = seq<byte>

  datatype Entry = Entry(path: string, size: nat, mode: nat, mtime: int, checksum: string)

  /** String order as Go's `<`. */
  predicate Less(a: string, b: string)
  {
    b != "" && (a == "" || a[0] < b[0] || (a[0] == b[0] && Less(a[1..], b[1..])))
  }

  predicate DiffersAt(a: string, b: string, k: nat)
  {
    k < |a| && k < |b| && a[..k] == b[..k] && a[k] < b[k]
  }

  /** That is: a proper prefix comes first, and otherwise the first place where the two differ decides. */
  lemma {:induction false} LessExact(a: string, b: string)
    ensures Less(a, b) <==> a < b || exists k: nat :: DiffersAt(a, b, k)
  {
    if a == "" {
      assert b != "" ==> a < b;
    } else if b != "" {
      if a[0] == b[0] {
        LessExact(a[1..], b[1..]);
        TailOrder(a, b);
      } else {
        assert a[0] < b[0] ==> DiffersAt(a, b, 0);
        assert forall k: nat :: DiffersAt(a, b, k) && k > 0 ==> a[..k][0] == a[0] && b[..k][0] == b[0];
      }
    }
  }

  lemma TailOrder(a: string, b: string)
    requires a != "" && b != "" && a[0] == b[0]
    ensures a < b <==> a[1..] < b[1..]
    ensures (exists k: nat :: DiffersAt(a, b, k)) <==> exists k: nat :: DiffersAt(a[1..], b[1..], k)
  {
    assert a == [a[0]] + a[1..] && b == [b[0]] + b[1..];
    if k: nat :| DiffersAt(a, b, k) {
      assert a[1..][..k - 1] == a[..k][1..] && b[1..][..k - 1] == b[..k][1..];
      assert DiffersAt(a[1..], b[1..], k - 1);
    }
    if k: nat :| DiffersAt(a[1..], b[1..], k) {
      assert a[..k + 1] == [a[0]] + a[1..][..k] && b[..k + 1] == [b[0]] + b[1..][..k];
      assert DiffersAt(a, b, k + 1);
    }
  }

  lemma {:induction false} LessIrreflexive(a: string)
    ensures !Less(a, a)
  {
    if a != "" { LessIrreflexive(a[1..]); }
  }

  lemma {:induction false} LessTransitive(a: string, b: string, c: string)
    requires Less(a, b) && Less(b, c)
    ensures Less(a, c)
  {
    if a != "" && a[0] == b[0] == c[0] { LessTransitive(a[1..], b[1..], c[1..]); }
  }

  lemma {:induction false} LessTotal(a: string, b: string)
    ensures a == b || Less(a, b) || Less(b, a)
  {
    if a != "" && b != "" && a[0] == b[0] {
      LessTotal(a[1..], b[1..]);
      assert a == [a[0]] + a[1..] && b == [b[0]] + b[1..];
    }
  }

  /** A common prefix does not matter to the order. */
  lemma {:induction false} LessCancel(p: string, a: string, b: string)
    ensures Less(p + a, p + b) <==> Less(a, b)
  {
    if p == "" {
      assert p + a == a && p + b == b;
    } else {
      assert (p + a)[1..] == p[1..] + a && (p + b)[1..] == p[1..] + b;
      LessCancel(p[1..], a, b);
    }
  }

  /** Strictly increasing by path: sorted and without a repeated path. */
  predicate Increasing(es: seq<Entry>)
  {
    forall i, j | 0 <= i < j < |es| :: Less(es[i].path, es[j].path)
  }

  predicate DistinctPaths(es: seq<Entry>)
  {
    forall i, j | 0 <= i < j < |es| :: es[i].path != es[j].path
  }

  lemma IncreasingDistinct(es: seq<Entry>)
    requires Increasing(es)
    ensures DistinctPaths(es)
  {
    forall i, j | 0 <= i < j < |es| ensures es[i].path != es[j].path {
      LessIrreflexive(es[i].path);
    }
  }

  function Insert(e: Entry, es: seq<Entry>): (r: seq<Entry>)
    ensures multiset(r) == multiset(es) + multiset{e}
  {
    if es == [] || !Less(es[0].path, e.path) then [e] + es
    else
      assert es == [es[0]] + es[1..];
      [es[0]] + Insert(e, es[1..])
  }

  /** sort.Slice by path. On distinct paths the result is the only increasing arrangement. */
  function SortByPath(es: seq<Entry>): (r: seq<Entry>)
    ensures multiset(r) == multiset(es)
  {
    if es == [] then []
    else
      assert es == [es[0]] + es[1..];
      Insert(es[0], SortByPath(es[1..]))
  }

  lemma SameMembers(a: seq<Entry>, b: seq<Entry>)
    requires multiset(a) == multiset(b)
    ensures |a| == |b| && forall e :: e in a <==> e in b
  {
    assert |multiset(a)| == |a| && |multiset(b)| == |b|;
    forall e ensures e in a <==> e in b {
      assert e in a <==> e in multiset(a);
      assert e in b <==> e in multiset(b);
    }
  }

  lemma {:induction false} InsertIncreasing(e: Entry, es: seq<Entry>)
    requires Increasing(es) && forall i | 0 <= i < |es| :: es[i].path != e.path
    ensures Increasing(Insert(e, es))
  {
    if es == [] {
    } else if !Less(es[0].path, e.path) {
      LessTotal(es[0].path, e.path);
      forall i | 0 <= i < |es| ensures Less(e.path, es[i].path) {
        if i > 0 { LessTransitive(e.path, es[0].path, es[i].path); }
      }
    } else {
      InsertIncreasing(e, es[1..]);
      var rest := Insert(e, es[1..]);
      SameMembers(rest, es[1..] + [e]);
      forall i | 0 <= i < |rest| ensures Less(es[0].path, rest[i].path) {
        assert rest[i] in es[1..] + [e];
      }
    }
  }

  lemma {:induction false} SortIncreasing(es: seq<Entry>)
    requires DistinctPaths(es)
    ensures Increasing(SortByPath(es))
  {
    if es != [] {
      var rest := SortByPath(es[1..]);
      SortIncreasing(es[1..]);
      SameMembers(rest, es[1..]);
      forall i | 0 <= i < |rest| ensures rest[i].path != es[0].path {
        assert rest[i] in es[1..];
      }
      InsertIncreasing(es[0], rest);
    }
  }

  /** Sorting changes nothing that is already increasing. */
  lemma {:induction false} SortFixed(es: seq<Entry>)
    requires Increasing(es)
    ensures SortByPath(es) == es
  {
    if es != [] {
      SortFixed(es[1..]);
      if |es| > 1 && Less(es[1].path, es[0].path) {
        LessTransitive(es[0].path, es[1].path, es[0].path);
        LessIrreflexive(es[0].path);
      }
    }
  }

  predicate Ascending(names: seq<string>)
  {
    forall i, j | 0 <= i < j < |names| :: Less(names[i], names[j])
  }

  function InsertName(a: string, names: seq<string>): (r: seq<string>)
    ensures forall x :: x in r <==> x == a || x in names
  {
    if names == [] || !Less(names[0], a) then [a] + names
    else
      assert names == [names[0]] + names[1..];
      [names[0]] + InsertName(a, names[1..])
  }

  /** sort.Strings. */
  function SortNames(names: seq<string>): (r: seq<string>)
    ensures forall x :: x in r <==> x in names
  {
    if names == [] then []
    else
      assert names == [names[0]] + names[1..];
      InsertName(names[0], SortNames(names[1..]))
  }

  lemma {:induction false} InsertAscending(a: string, names: seq<string>)
    requires Ascending(names) && a !in names
    ensures Ascending(InsertName(a, names))
  {
    if names == [] {
    } else if !Less(names[0], a) {
      LessTotal(names[0], a);
      forall i | 0 <= i < |names| ensures Less(a, names[i]) {
        if i > 0 { LessTransitive(a, names[0], names[i]); }
      }
    } else {
      InsertAscending(a, names[1..]);
      var rest := InsertName(a, names[1..]);
      forall i | 0 <= i < |rest| ensures Less(names[0], rest[i]) {
        assert rest[i] in rest;
      }
    }
  }

  lemma {:induction false} SortAscending(names: seq<string>)
    requires forall i, j | 0 <= i < j < |names| :: names[i] != names[j]
    ensures Ascending(SortNames(names))
  {
    if names != [] {
      SortAscending(names[1..]);
      assert names[0] !in names[1..];
      InsertAscending(names[0], SortNames(names[1..]));
    }
  }

  /** Two increasing sequences with the same members are equal. */
  lemma {:induction false} IncreasingUnique(a: seq<Entry>, b: seq<Entry>)
    requires Increasing(a) && Increasing(b) && forall e :: e in a <==> e in b
    ensures a == b
  {
    assert a != [] ==> a[0] in a;
    assert b != [] ==> b[0] in b;
    if a != [] {
      HeadLeast(a, b);
      HeadLeast(b, a);
      forall e ensures e in a[1..] <==> e in b[1..] {
        TailMembers(a, e);
        TailMembers(b, e);
      }
      IncreasingUnique(a[1..], b[1..]);
    }
  }

  lemma HeadLeast(a: seq<Entry>, b: seq<Entry>)
    requires a != [] && b != [] && Increasing(a) && Increasing(b) && forall e :: e in a <==> e in b
    ensures a[0] == b[0]
  {
    assert a[0] in b && b[0] in a;
    var i :| 0 <= i < |b| && b[i] == a[0];
    var j :| 0 <= j < |a| && a[j] == b[0];
    if i > 0 && j > 0 {
      LessTransitive(a[0].path, b[0].path, a[0].path);
      LessIrreflexive(a[0].path);
    }
  }

  lemma TailMembers(a: seq<Entry>, e: Entry)
    requires a != [] && Increasing(a)
    ensures e in a[1..] <==> e in a && e != a[0]
  {
    if a[0] in a[1..] {
      var i :| 0 <= i < |a[1..]| && a[1..][i] == a[0];
      assert a[i + 1] == a[0];
      LessIrreflexive(a[0].path);
    }
  }

  function AsEntries(names: seq<string>): seq<Entry>
  {
    seq(|names|, i requires 0 <= i < |names| => Entry(names[i], 0, 0, 0, ""))
  }

  /** So are two ascending sequences of names. */
  lemma AscendingUnique(a: seq<string>, b: seq<string>)
    requires Ascending(a) && Ascending(b) && forall x :: x in a <==> x in b
    ensures a == b
  {
    var ea, eb := AsEntries(a), AsEntries(b);
    forall e ensures e in ea <==> e in eb {
      AsEntriesMember(a, e);
      AsEntriesMember(b, e);
    }
    IncreasingUnique(ea, eb);
    forall i | 0 <= i < |a| ensures a[i] == b[i] {
      assert ea[i].path == a[i] && eb[i].path == b[i];
    }
  }

  lemma AsEntriesMember(names: seq<string>, e: Entry)
    ensures e in AsEntries(names) <==> e == Entry(e.path, 0, 0, 0, "") && e.path in names
  {
    if e == Entry(e.path, 0, 0, 0, "") && e.path in names {
      var i :| 0 <= i < |names| && names[i] == e.path;
      assert AsEntries(names)[i] == e;
    }
  }

  /** The map a loop `byPath[e.Path] = e` builds. */
  function ByPath(es: seq<Entry>): map<string, Entry>
  {
    if es == [] then map[] else ByPath(es[..|es| - 1])[es[|es| - 1].path := es[|es| - 1]]
  }

  /** The map a loop that keeps the first entry of each checksum builds. */
  function ByChecksum(es: seq<Entry>): map<string, Entry>
  {
    if es == [] then map[]
    else
      var rest, last := ByChecksum(es[..|es| - 1]), es[|es| - 1];
      if last.checksum in rest then rest else rest[last.checksum := last]
  }

  lemma {:induction false} ByPathExact(es: seq<Entry>)
    requires DistinctPaths(es)
    ensures forall p :: p in ByPath(es) ==> ByPath(es)[p] in es && ByPath(es)[p].path == p
    ensures forall e :: e in es ==> e.path in ByPath(es) && ByPath(es)[e.path] == e
  {
    if es != [] {
      var init, last := es[..|es| - 1], es[|es| - 1];
      assert es == init + [last];
      ByPathExact(init);
      forall e | e in init ensures e.path != last.path {
        var i :| 0 <= i < |init| && init[i] == e;
        assert es[i] == e;
      }
    }
  }

  predicate Represents(m: map<string, Entry>, e: Entry)
  {
    e.checksum in m && (m[e.checksum] == e || Less(m[e.checksum].path, e.path))
  }

  /** The entry kept for a checksum is the one of least path among those that have it. */
  lemma {:induction false} ByChecksumLeast(es: seq<Entry>)
    requires Increasing(es)
    ensures forall c :: c in ByChecksum(es) ==> ByChecksum(es)[c] in es && ByChecksum(es)[c].checksum == c
    ensures forall e :: e in es ==> Represents(ByChecksum(es), e)
  {
    if es != [] {
      var init, last := es[..|es| - 1], es[|es| - 1];
      assert es == init + [last];
      ByChecksumLeast(init);
      forall e | e in es ensures Represents(ByChecksum(es), e) {
        if e in init {
          assert Represents(ByChecksum(init), e);
        } else if last.checksum in ByChecksum(init) {
          var first := ByChecksum(init)[last.checksum];
          var i :| 0 <= i < |init| && init[i] == first;
          assert es[i] == first;
        }
      }
    }
  }

  lemma SameMaps(a: seq<Entry>, b: seq<Entry>)
    requires DistinctPaths(a) && DistinctPaths(b) && forall e :: e in a <==> e in b
    ensures ByPath(a) == ByPath(b)
  {
    ByPathExact(a);
    ByPathExact(b);
    assert forall p :: p in ByPath(a) ==> p in ByPath(b) && ByPath(b)[p] == ByPath(a)[p];
    assert forall p :: p in ByPath(b) ==> p in ByPath(a);
  }
}
