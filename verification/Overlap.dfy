/** Lock paths: cleaning, lock-file names, and the overlap test of the lock manager. */
module Overlap {
  import opened Text
  import opened Paths

  function TrimPrefix(s: string, prefix: string): string
  {
    if prefix <= s then s[|prefix|..] else s
  }

  function CleanPath(path: string): string
  {
    var clean := TrimPrefix(Clean(path), "./");
    if clean == "" then "." else clean
  }

  function Underscored(s: string): string
  {
    seq(|s|, i requires 0 <= i < |s| => if s[i] == '/' then '_' else s[i])
  }

  function NormalizePath(path: string): string
  {
    var clean := TrimPrefix(Clean(path), "./");
    if clean == "." then "root" else Underscored(clean)
  }

  function LockName(path: string): string
  {
    NormalizePath(path) + ".lock"
  }

  predicate Overlaps(a: string, b: string)
  {
    var ca, cb := CleanPath(a), CleanPath(b);
    ca == "." || cb == "." || ca == cb || cb + "/" <= ca || ca + "/" <= cb
  }

  /** On a Unix path the two trimming rules after filepath.Clean never apply. */
  lemma CleanPathIsClean(p: string)
    ensures CleanPath(p) == Clean(p) && CleanPath(CleanPath(p)) == CleanPath(p)
  {
    CleanNonEmpty(p);
    CleanStable(p);
    CleanNonEmpty(CleanPath(p));
  }

  lemma OverlapsReflexiveSymmetric(a: string, b: string)
    ensures Overlaps(a, a) && (Overlaps(a, b) <==> Overlaps(b, a))
    ensures Overlaps(CleanPath(a), b) == Overlaps(a, b)
  {
    CleanPathIsClean(a);
  }

  /* ------------------------------------------------------------------ all other paths */

  predicate Comparable(a: seq<string>, b: seq<string>)
  {
    a <= b || b <= a
  }

  /** What the test decides, component by component. */
  predicate ComponentTest(a: string, b: string)
  {
    var ca, cb := Components(a), Components(b);
    if Rooted(a) && Rooted(b) then Comparable(ca, cb) && (ca == [] <==> cb == [])
    else if Rooted(a) then cb == []
    else if Rooted(b) then ca == []
    else Comparable(ca, cb)
  }

  /** For every pair of paths: rooted ones overlap when one contains the other, except that "/" contains only itself;
      a rooted and a relative one only when the latter is "."; relative ones when their components compare. */
  lemma OverlapExact(a: string, b: string)
    ensures Overlaps(a, b) <==> ComponentTest(a, b)
  {
    CleanPathIsClean(a);
    CleanPathIsClean(b);
    CleanForms(a, b);
    CleanForms(b, a);
    CleanInjective(a, b);
    DotIsEmpty(a);
    DotIsEmpty(b);
    OverlapByForm(a, b);
  }

  lemma OverlapByForm(a: string, b: string)
    requires CleanPath(a) == Clean(a) && CleanPath(b) == Clean(b)
    requires Clean(a) == Clean(b) <==> Rooted(a) == Rooted(b) && Components(a) == Components(b)
    requires Clean(a) + "/" <= Clean(b) <==>
               Rooted(a) == Rooted(b) && Components(a) != [] && Components(a) < Components(b)
    requires Clean(b) + "/" <= Clean(a) <==>
               Rooted(b) == Rooted(a) && Components(b) != [] && Components(b) < Components(a)
    requires Clean(a) == "." <==> !Rooted(a) && Components(a) == []
    requires Clean(b) == "." <==> !Rooted(b) && Components(b) == []
    ensures Overlaps(a, b) <==> ComponentTest(a, b)
  {
    var ca, cb := Components(a), Components(b);
    assert Comparable(ca, cb) <==> ca == cb || ca < cb || cb < ca;
  }

  lemma DotIsEmpty(p: string)
    ensures Clean(p) == "." <==> !Rooted(p) && Components(p) == []
  {
    CleanStable(p);
    CleanStable(".");
    if Clean(p) == "." {
      SplitWhole(".", '/');
      assert Components(".") == Components(p);
      assert Split(".", '/') == ["."] && ["."][1..] == [];
      assert Reduce(false, [], ["."]) == Reduce(false, [], []);
    }
  }

  lemma CleanInjective(a: string, b: string)
    ensures Clean(a) == Clean(b) <==> Rooted(a) == Rooted(b) && Components(a) == Components(b)
  {
    CleanStable(a);
    CleanStable(b);
  }

  lemma CleanForms(a: string, b: string)
    ensures Clean(a) + "/" <= Clean(b) <==>
              Rooted(a) == Rooted(b) && Components(a) != [] && Components(a) < Components(b)
  {
    var ca, cb := Components(a), Components(b);
    ComponentsReduced(a);
    ComponentsReduced(b);
    CleanStable(a);
    CleanStable(b);
    CleanNonEmpty(a);
    CleanNonEmpty(b);
    if Clean(a) + "/" <= Clean(b) { assert Clean(a)[0] == Clean(b)[0]; }
    if Rooted(a) == Rooted(b) {
      if ca != [] && cb != [] {
        SlashPrefix(ca, cb);
        SameHead("/", Join(ca, '/') + "/", Join(cb, '/'));
        assert "/" + (Join(ca, '/') + "/") == "/" + Join(ca, '/') + "/";
      } else if ca == [] && Rooted(a) && cb != [] {
        assert Join(cb, '/')[0] == cb[0][0] && Clean(b)[1] == cb[0][0];
      }
    }
  }

  lemma SameHead(h: string, a: string, b: string)
    ensures h + a <= h + b <==> a <= b
  {
    if h + a <= h + b {
      assert a == (h + a)[|h|..] && b == (h + b)[|h|..];
    }
    if a <= b {
      assert b == a + b[|a|..];
      assert h + b == (h + a) + b[|a|..];
    }
  }

  /** Two paths that stay below their directory overlap exactly when some path lies at or below both of them. */
  lemma OverlapIsSharedSubtree(a: string, b: string)
    requires Local(a) && Local(b)
    ensures Overlaps(a, b) <==> exists q :: Names(q) && Components(a) <= q && Components(b) <= q
  {
    var ca, cb := Components(a), Components(b);
    OverlapExact(a, b);
    var longer := if |ca| <= |cb| then cb else ca;
    if Comparable(ca, cb) {
      assert Names(longer) && ca <= longer && cb <= longer;
    }
    if q :| Names(q) && ca <= q && cb <= q {
      assert ca == q[..|ca|] && cb == q[..|cb|];
      assert if |ca| <= |cb| then ca == cb[..|ca|] else cb == ca[..|cb|];
    }
  }

  /** "/" contains every rooted path, and the test sees none of them but itself. */
  lemma OverlapMissesBelowRoot(b: string)
    requires Rooted(b)
    ensures Overlaps("/", b) <==> Components(b) == []
  {
    OverlapExact("/", b);
    assert "/" == "/" + Join([], '/');
    RootedComponents([]);
  }

  /* ------------------------------------------------------------------ paths that climb */

  /** How many directories a relative path climbs before it goes down. */
  function Climb(cs: seq<string>): (k: nat)
    ensures k <= |cs|
  {
    if cs != [] && cs[0] == ".." then 1 + Climb(cs[1..]) else 0
  }

  function Down(cs: seq<string>): seq<string>
  {
    cs[Climb(cs)..]
  }

  /** Where a relative path leads from the absolute directory `at`. */
  function Lead(at: seq<string>, p: string): seq<string>
  {
    Reduce(true, at, Components(p))
  }

  lemma {:induction false} ClimbShape(cs: seq<string>)
    requires Reduced(false, cs)
    ensures Climb(cs) <= |cs| && Names(cs[Climb(cs)..]) && forall i | 0 <= i < Climb(cs) :: cs[i] == ".."
  {
    if cs != [] && cs[0] == ".." {
      assert Reduced(false, cs[1..]) by {
        forall i, j | 0 <= j < i < |cs[1..]| && cs[1..][i] == ".." ensures cs[1..][j] == ".." {
          assert cs[i + 1] == ".." && cs[j + 1] == "..";
        }
      }
      ClimbShape(cs[1..]);
      assert cs[1..][Climb(cs[1..])..] == cs[Climb(cs)..];
      forall i | 0 <= i < Climb(cs) ensures cs[i] == ".." {
        if i > 0 { assert cs[1..][i - 1] == ".."; }
      }
    } else if cs != [] {
      assert forall i | 0 <= i < |cs| :: cs[i] == ".." ==> i == 0;
    }
  }

  lemma {:induction false} LeadExact(at: seq<string>, cs: seq<string>)
    requires Names(at) && Reduced(false, cs) && Climb(cs) <= |at|
    ensures Reduce(true, at, cs) == at[..|at| - Climb(cs)] + Down(cs)
    decreases |cs|
  {
    ClimbShape(cs);
    if Climb(cs) == 0 {
      assert at[..|at|] == at && cs[0..] == cs;
      NamesReduced(at + cs);
      ReduceFixed(true, at, cs);
    } else {
      var up := at[..|at| - 1];
      assert Push(true, at, "..") == up by { assert IsName(at[|at| - 1]); }
      assert Reduced(false, cs[1..]) by {
        forall i, j | 0 <= j < i < |cs[1..]| && cs[1..][i] == ".." ensures cs[1..][j] == ".." {
          assert cs[i + 1] == ".." && cs[j + 1] == "..";
        }
      }
      LeadExact(up, cs[1..]);
      assert up[..|up| - Climb(cs[1..])] == at[..|at| - Climb(cs)];
      assert cs[1..][Climb(cs[1..])..] == cs[Climb(cs)..];
    }
  }

  lemma CommonHead(h: seq<string>, a: seq<string>, b: seq<string>)
    ensures Comparable(h + a, h + b) <==> Comparable(a, b)
  {
    assert a == (h + a)[|h|..] && b == (h + b)[|h|..];
    if a <= b { assert b == a + b[|a|..]; assert h + b == (h + a) + b[|a|..]; }
    if b <= a { assert a == b + a[|b|..]; assert h + a == (h + b) + a[|b|..]; }
  }

  lemma ClimbCompare(a: seq<string>, b: seq<string>)
    requires Reduced(false, a) && Reduced(false, b) && Climb(a) <= Climb(b)
    ensures Comparable(a, b) <==> if Climb(a) == Climb(b) then Comparable(Down(a), Down(b)) else Down(a) == []
  {
    var k := Climb(a);
    ClimbShape(a);
    ClimbShape(b);
    assert a == a[..k] + a[k..] && b == b[..k] + b[k..] && a[..k] == b[..k];
    CommonHead(a[..k], a[k..], b[k..]);
    if k < Climb(b) && |a| > k {
      assert IsName(Down(a)[0]) && b[k] == "..";
    }
  }

  /** What a path that climbs less keeps of the starting point, beyond what one that climbs more keeps. */
  function Between(at: seq<string>, less: nat, more: nat): seq<string>
    requires less <= more <= |at|
  {
    at[|at| - more..|at| - less]
  }

  lemma SplitAt(at: seq<string>, less: nat, more: nat)
    requires less <= more <= |at|
    ensures at[..|at| - less] == at[..|at| - more] + Between(at, less, more)
  {
  }

  lemma ConcatAssociative(a: seq<string>, b: seq<string>, c: seq<string>)
    ensures (a + b) + c == a + (b + c)
  {
  }

  lemma LeadSplit(at: seq<string>, a: seq<string>, l: nat)
    requires Reduced(false, a) && Names(at) && Climb(a) <= l <= |at|
    ensures Reduce(true, at, a) == at[..|at| - l] + (Between(at, Climb(a), l) + Down(a))
  {
    LeadExact(at, a);
    SplitAt(at, Climb(a), l);
    ConcatAssociative(at[..|at| - l], Between(at, Climb(a), l), Down(a));
  }

  lemma LeadCompare(at: seq<string>, a: seq<string>, b: seq<string>)
    requires Reduced(false, a) && Reduced(false, b) && Names(at) && Climb(a) <= Climb(b) <= |at|
    ensures Comparable(Reduce(true, at, a), Reduce(true, at, b)) <==>
              Comparable(Between(at, Climb(a), Climb(b)) + Down(a), Down(b))
  {
    LeadSplit(at, a, Climb(b));
    LeadExact(at, b);
    CommonHead(at[..|at| - Climb(b)], Between(at, Climb(a), Climb(b)) + Down(a), Down(b));
  }

  /** Relative paths that climb equally far are compared rightly, wherever they are taken from. */
  lemma OverlapSameClimb(at: seq<string>, a: string, b: string)
    requires !Rooted(a) && !Rooted(b) && Names(at)
    requires Climb(Components(a)) == Climb(Components(b)) <= |at|
    ensures Overlaps(a, b) <==> Comparable(Lead(at, a), Lead(at, b))
  {
    OverlapExact(a, b);
    ComponentsReduced(a);
    ComponentsReduced(b);
    ClimbCompare(Components(a), Components(b));
    LeadCompare(at, Components(a), Components(b));
    assert [] + Down(Components(a)) == Down(Components(a));
  }

  /** When b climbs further than a, the test only asks whether a goes down at all, while the truth is whether what a has
      left of its starting point, and goes down from there, compares with what b goes down. So it is right exactly when
      those two agree; wherever b only climbs they overlap, and the test misses it unless a goes nowhere. */
  lemma OverlapUnequalClimb(at: seq<string>, a: string, b: string)
    requires !Rooted(a) && !Rooted(b) && Names(at)
    requires Climb(Components(a)) < Climb(Components(b)) <= |at|
    ensures Overlaps(a, b) <==> Down(Components(a)) == []
    ensures Comparable(Lead(at, a), Lead(at, b)) <==>
              Comparable(Between(at, Climb(Components(a)), Climb(Components(b)))
                + Down(Components(a)), Down(Components(b)))
    ensures Down(Components(b)) == [] ==> Comparable(Lead(at, a), Lead(at, b))
  {
    OverlapExact(a, b);
    ComponentsReduced(a);
    ComponentsReduced(b);
    ClimbCompare(Components(a), Components(b));
    LeadCompare(at, Components(a), Components(b));
  }

  predicate SameButSlashes(a: string, b: string)
  {
    |a| == |b| && forall i | 0 <= i < |a| :: a[i] == b[i] || (a[i] in "/_" && b[i] in "/_")
  }

  predicate Collide(a: string, b: string)
  {
    if a == "." then b == "." || b == "root"
    else if b == "." then a == "root"
    else SameButSlashes(a, b)
  }

  /** Two paths share a lock file exactly when their clean forms differ only in "/" against "_", or are "." and
      "root". */
  lemma CollisionExact(a: string, b: string)
    ensures LockName(a) == LockName(b) <==> Collide(Clean(a), Clean(b))
  {
    var ca, cb := Clean(a), Clean(b);
    CleanNonEmpty(a);
    CleanNonEmpty(b);
    var na, nb := NormalizePath(a), NormalizePath(b);
    if LockName(a) == LockName(b) {
      assert na == LockName(a)[..|LockName(a)| - 5] == nb;
    }
    if ca != "." && cb != "." {
      if na == nb {
        forall i | 0 <= i < |ca| ensures ca[i] == cb[i] || (ca[i] in "/_" && cb[i] in "/_") {
          assert na[i] == nb[i];
        }
      }
      if SameButSlashes(ca, cb) {
        assert na == nb;
      }
    } else if ca == "." && cb != "." {
      RootNamed(cb);
    } else if cb == "." && ca != "." {
      RootNamed(ca);
    }
  }

  lemma RootNamed(s: string)
    ensures Underscored(s) == "root" <==> s == "root"
  {
    if Underscored(s) == "root" {
      var u := Underscored(s);
      assert |s| == 4;
      assert u[0] == 'r' && u[1] == 'o' && u[2] == 'o' && u[3] == 't';
      assert s[0] == 'r' && s[1] == 'o' && s[2] == 'o' && s[3] == 't';
      assert s == "root";
    }
    if s == "root" {
      assert Underscored(s) == "root";
    }
  }
}
