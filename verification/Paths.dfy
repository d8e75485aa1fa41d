/** Slash-separated paths: filepath.Clean, filepath.Join and the component view behind them. */
module Paths {
  import opened Text

  /** A component a directory entry can have. */
  predicate IsName(s: string)
  {
    s != "" && s != "." && s != ".." && '/' !in s
  }

  predicate Names(cs: seq<string>)
  {
    forall i | 0 <= i < |cs| :: IsName(cs[i])
  }

  function Render(cs: seq<string>): string
  {
    if cs == [] then "." else Join(cs, '/')
  }

  /** One component of the lexical reduction done by filepath.Clean. */
  function Push(rooted: bool, done: seq<string>, c: string): seq<string>
  {
    if c == "" || c == "." then done
    else if c != ".." then done + [c]
    else if done != [] && done[|done| - 1] != ".." then done[..|done| - 1]
    else if rooted then done
    else done + [".."]
  }

  function Reduce(rooted: bool, done: seq<string>, todo: seq<string>): seq<string>
    decreases |todo|
  {
    if todo == [] then done else Reduce(rooted, Push(rooted, done, todo[0]), todo[1..])
  }

  predicate Rooted(p: string)
  {
    p != "" && p[0] == '/'
  }

  function Components(p: string): seq<string>
  {
    Reduce(Rooted(p), [], Split(p, '/'))
  }

  function Clean(p: string): string
  {
    if Rooted(p) then "/" + Join(Components(p), '/') else Render(Components(p))
  }

  function JoinPath(a: string, b: string): string
  {
    if a == "" then (if b == "" then "" else Clean(b))
    else if b == "" then Clean(a)
    else Clean(a + "/" + b)
  }

  /** A reduced component list: real names, after a run of ".." that only a relative path may have. */
  predicate Reduced(rooted: bool, cs: seq<string>)
  {
    && (forall i | 0 <= i < |cs| :: cs[i] != "" && cs[i] != "." && '/' !in cs[i])
    && (forall i | 0 <= i < |cs| :: cs[i] == ".." ==> !rooted && forall j | 0 <= j < i :: cs[j] == "..")
  }

  /** A path that stays below the directory it is relative to. */
  predicate Local(p: string)
  {
    !Rooted(p) && Names(Components(p))
  }

  lemma {:induction false} ReduceReduced(rooted: bool, done: seq<string>, todo: seq<string>)
    requires Reduced(rooted, done) && Free(todo, '/')
    ensures Reduced(rooted, Reduce(rooted, done, todo))
    decreases |todo|
  {
    if todo != [] {
      PushReduced(rooted, done, todo[0]);
      ReduceReduced(rooted, Push(rooted, done, todo[0]), todo[1..]);
    }
  }

  lemma PushReduced(rooted: bool, done: seq<string>, c: string)
    requires Reduced(rooted, done) && '/' !in c
    ensures Reduced(rooted, Push(rooted, done, c))
  {
    var r := Push(rooted, done, c);
    if c == ".." && (done == [] || done[|done| - 1] == "..") && !rooted {
      assert forall j | 0 <= j < |done| :: done[j] == "..";
    }
  }

  lemma {:induction false} ReduceConcat(rooted: bool, done: seq<string>, a: seq<string>, b: seq<string>)
    ensures Reduce(rooted, done, a + b) == Reduce(rooted, Reduce(rooted, done, a), b)
    decreases |a|
  {
    if a == [] {
      assert a + b == b;
    } else {
      assert (a + b)[1..] == a[1..] + b;
      ReduceConcat(rooted, Push(rooted, done, a[0]), a[1..], b);
    }
  }

  lemma {:induction false} ReduceFixed(rooted: bool, done: seq<string>, todo: seq<string>)
    requires Reduced(rooted, done + todo)
    ensures Reduce(rooted, done, todo) == done + todo
    decreases |todo|
  {
    if todo == [] {
      assert done + todo == done;
    } else {
      assert (done + todo)[|done|] == todo[0];
      if todo[0] == ".." {
        assert forall j | 0 <= j < |done| :: (done + todo)[j] == "..";
        if done != [] {
          assert (done + todo)[|done| - 1] == "..";
        }
      }
      assert Push(rooted, done, todo[0]) == done + [todo[0]];
      assert (done + [todo[0]]) + todo[1..] == done + todo;
      ReduceFixed(rooted, done + [todo[0]], todo[1..]);
    }
  }

  lemma ComponentsReduced(p: string)
    ensures Reduced(Rooted(p), Components(p))
  {
    SplitFree(p, '/');
    ReduceReduced(Rooted(p), [], Split(p, '/'));
  }

  /** A relative reduced component list is the component list of its own rendering. */
  lemma RenderComponents(cs: seq<string>)
    requires Reduced(false, cs)
    ensures !Rooted(Render(cs)) && Components(Render(cs)) == cs
  {
    if cs == [] {
      assert Split(".", '/') == ["."] by { SplitWhole(".", '/'); }
      assert Push(false, [], ".") == [];
      assert Reduce(false, [], ["."]) == Reduce(false, [], []) by { assert ["."][1..] == []; }
    } else {
      assert Render(cs)[0] == cs[0][0];
      SplitJoin(cs, '/');
      assert [] + cs == cs;
      ReduceFixed(false, [], cs);
    }
  }

  lemma RootedComponents(cs: seq<string>)
    requires Reduced(true, cs)
    ensures Components("/" + Join(cs, '/')) == cs
  {
    var p := "/" + Join(cs, '/');
    assert p == "" + ['/'] + Join(cs, '/');
    SplitConcat("", Join(cs, '/'), '/');
    var tail := Split(Join(cs, '/'), '/');
    assert Split(p, '/') == [""] + tail;
    ReduceConcat(true, [], [""], tail);
    assert Reduce(true, [], [""]) == [] by { assert [""][1..] == []; }
    if cs != [] {
      SplitJoin(cs, '/');
      assert [] + cs == cs;
      ReduceFixed(true, [], cs);
    } else {
      assert tail == [""];
    }
  }

  /** Cleaning keeps rootedness and components, so cleaning twice is cleaning once. */
  lemma CleanStable(p: string)
    ensures Rooted(Clean(p)) == Rooted(p)
    ensures Components(Clean(p)) == Components(p)
    ensures Clean(Clean(p)) == Clean(p)
  {
    ComponentsReduced(p);
    if Rooted(p) {
      RootedComponents(Components(p));
    } else {
      RenderComponents(Components(p));
    }
  }

  lemma NotDotSlash(a: string, p: string)
    requires a <= p && a != "" && a != "." && '/' !in a
    ensures !("./" <= p)
  {
    assert a[0] == p[0];
    assert |a| == 1 ==> a == [a[0]];
    assert |a| > 1 ==> a[1] == p[1] && a[1] in a;
  }

  lemma CleanNonEmpty(p: string)
    ensures Clean(p) != "" && !("./" <= Clean(p))
  {
    ComponentsReduced(p);
    var cs := Components(p);
    if !Rooted(p) && cs != [] {
      assert Clean(p)[..|cs[0]|] == cs[0];
      NotDotSlash(cs[0], Clean(p));
    }
  }

  lemma NamesReduced(cs: seq<string>)
    requires Names(cs)
    ensures Reduced(false, cs) && Reduced(true, cs) && Free(cs, '/')
  {
  }

  /** Names survive rendering and cleaning. */
  lemma RenderNames(cs: seq<string>)
    requires Names(cs)
    ensures Local(Render(cs)) && Components(Render(cs)) == cs && Clean(Render(cs)) == Render(cs)
  {
    NamesReduced(cs);
    RenderComponents(cs);
  }

  lemma RenderInjective(a: seq<string>, b: seq<string>)
    requires Names(a) && Names(b) && Render(a) == Render(b)
    ensures a == b
  {
    RenderNames(a);
    RenderNames(b);
  }

  /** The string-prefix test with a slash is the proper-ancestor test on components. */
  lemma SlashPrefix(a: seq<string>, b: seq<string>)
    requires Free(a, '/') && Free(b, '/') && a != [] && b != []
    ensures Render(a) + "/" <= Render(b) <==> a < b
  {
    if Render(a) + "/" <= Render(b) {
      var rest := Render(b)[|Render(a)| + 1..];
      assert Render(b) == Render(a) + ['/'] + rest;
      SplitConcat(Render(a), rest, '/');
      SplitJoin(a, '/');
      SplitJoin(b, '/');
      assert b == a + Split(rest, '/');
    }
    if a < b {
      var tail := b[|a|..];
      assert b == a + tail;
      JoinConcat(a, tail, '/');
    }
  }

  /** Stripping the rendered ancestor and its slash leaves the rendered remainder. */
  lemma StripPrefix(a: seq<string>, b: seq<string>)
    requires Names(a) && Names(b) && a != [] && b != []
    ensures Render(a + b) == Render(a) + "/" + Render(b)
  {
    JoinConcat(a, b, '/');
  }

  /** Cleaning the left operand first does not change where a joined path leads. */
  lemma CleanUnder(a: string, b: string)
    requires a != ""
    ensures Clean(Clean(a) + "/" + b) == Clean(a + "/" + b)
  {
    CleanStable(a);
    CleanNonEmpty(a);
    JoinedComponents(a, b);
    JoinedComponents(Clean(a), b);
  }

  lemma JoinedComponents(a: string, b: string)
    requires a != ""
    ensures Rooted(a + "/" + b) == Rooted(a)
    ensures Components(a + "/" + b) == Reduce(Rooted(a), Components(a), Split(b, '/'))
  {
    assert a + "/" + b == a + ['/'] + b;
    SplitConcat(a, b, '/');
    ReduceConcat(Rooted(a), [], Split(a, '/'), Split(b, '/'));
  }

  /** Joining in two steps or in one leads to the same cleaned path. */
  lemma JoinPathAssociative(root: string, mid: string, leaf: string)
    requires root != "" && mid != "" && leaf != ""
    ensures JoinPath(JoinPath(root, mid), leaf) == JoinPath(root, mid + "/" + leaf)
  {
    CleanNonEmpty(root + "/" + mid);
    CleanUnder(root + "/" + mid, leaf);
    assert root + "/" + mid + "/" + leaf == root + "/" + (mid + "/" + leaf);
  }
}
