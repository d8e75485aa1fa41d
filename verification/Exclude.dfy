/** Exclusion by globs and regular expressions. */
module Exclude {
  import opened Options
  import opened Text
  import opened Paths

  /** filepath.Match: None stands for a malformed pattern. */
  type Matcher = (string, string) -> Option<bool>

  datatype Excluder = Excluder(globs: seq<string>, rexes: seq<string -> bool>)

  predicate IsDirGlob(g: string)
  {
    |g| >= 3 && g[|g| - 3..] == "/**"
  }

  predicate GlobHits(m: Matcher, g: string, clean: string)
  {
    m(g, clean) == Some(true) || (IsDirGlob(g) && g[..|g| - 3] <= clean)
  }

  predicate Excluded(m: Matcher, e: Excluder, path: string)
  {
    || (exists i | 0 <= i < |e.globs| :: GlobHits(m, e.globs[i], Clean(path)))
    || (exists i | 0 <= i < |e.rexes| :: e.rexes[i](Clean(path)))
  }

  method Match(m: Matcher, e: Excluder, path: string) returns (ok: bool)
    ensures ok <==> Excluded(m, e, path)
  {
    var clean := Clean(path);
    for i := 0 to |e.globs|
      invariant forall j | 0 <= j < i :: !GlobHits(m, e.globs[j], clean)
    {
      var g := e.globs[i];
      if m(g, clean) == Some(true) {
        return true;
      }
      if IsDirGlob(g) {
        var prefix := g[..|g| - 2];
        if prefix[..|prefix| - 1] <= clean {
          assert GlobHits(m, e.globs[i], clean);
          return true;
        }
      }
    }
    for i := 0 to |e.rexes|
      invariant forall j | 0 <= j < i :: !e.rexes[j](clean)
    {
      if e.rexes[i](clean) {
        return true;
      }
    }
    return false;
  }

  predicate Blank(s: string)
  {
    TrimSpace(s) == ""
  }

  function CleanedGlobs(globs: seq<string>): seq<string>
  {
    if globs == [] then []
    else
      var init, g := CleanedGlobs(globs[..|globs| - 1]), globs[|globs| - 1];
      if Blank(g) then init else init + [Clean(g)]
  }

  /** The compiled expressions, or the first one that does not compile. */
  function Compiled(compile: string -> Option<string -> bool>,
                    regexes: seq<string>): Result<seq<string -> bool>, string>
  {
    if regexes == [] then Ok([])
    else
      var r := regexes[|regexes| - 1];
      match Compiled(compile, regexes[..|regexes| - 1])
      case Err(bad) => Err(bad)
      case Ok(init) =>
        if Blank(r) then Ok(init)
        else match compile(r)
          case None => Err(r)
          case Some(rx) => Ok(init + [rx])
  }

  method KeepGlobs(globs: seq<string>) returns (kept: seq<string>)
    ensures kept == CleanedGlobs(globs)
  {
    kept := [];
    for i := 0 to |globs|
      invariant kept == CleanedGlobs(globs[..i])
    {
      assert globs[..i + 1][..i] == globs[..i];
      if !Blank(globs[i]) {
        kept := kept + [Clean(globs[i])];
      }
    }
    assert globs[..|globs|] == globs;
  }

  predicate Bad(compile: string -> Option<string -> bool>, r: string)
  {
    !Blank(r) && compile(r).None?
  }

  method CompileAll(compile: string -> Option<string -> bool>,
                    regexes: seq<string>) returns (r: Result<seq<string -> bool>, string>)
    ensures r.Ok? <==> forall i | 0 <= i < |regexes| :: !Bad(compile, regexes[i])
    ensures r.Ok? ==> Compiled(compile, regexes) == r
    ensures r.Err? ==> exists i | 0 <= i < |regexes| :: r.error == regexes[i] && Bad(compile, regexes[i])
  {
    var rexes: seq<string -> bool> := [];
    for i := 0 to |regexes|
      invariant Compiled(compile, regexes[..i]) == Ok(rexes)
      invariant forall j | 0 <= j < i :: !Bad(compile, regexes[j])
    {
      assert regexes[..i + 1][..i] == regexes[..i];
      if !Blank(regexes[i]) {
        var rx := compile(regexes[i]);
        if rx.None? {
          return Err(regexes[i]);
        }
        rexes := rexes + [rx.value];
      }
    }
    assert regexes[..|regexes|] == regexes;
    return Ok(rexes);
  }

  /** Blank patterns are passed over; the first regular expression that does not compile is the error. */
  method NewExcluder(compile: string -> Option<string -> bool>, globs: seq<string>, regexes: seq<string>)
      returns (r: Result<Excluder, string>)
    ensures r.Ok? <==> forall i | 0 <= i < |regexes| :: !Bad(compile, regexes[i])
    ensures r.Ok? ==> r.value.globs == CleanedGlobs(globs) && Compiled(compile, regexes) == Ok(r.value.rexes)
    ensures r.Err? ==> exists i | 0 <= i < |regexes| :: r.error == regexes[i] && Bad(compile, regexes[i])
  {
    var kept := KeepGlobs(globs);
    var rexes := CompileAll(compile, regexes);
    match rexes {
      case Err(bad) => return Err(bad);
      case Ok(all) => return Ok(Excluder(kept, all));
    }
  }

  /** A pattern takes a cleaned path by filepath.Match, or as a directory glob by plain string prefix. */
  ghost predicate Takes(m: Matcher, pattern: string, clean: string)
  {
    m(pattern, clean) == Some(true) || exists dir :: pattern == dir + "/**" && dir <= clean
  }

  lemma TakesExact(m: Matcher, pattern: string, clean: string)
    ensures GlobHits(m, pattern, clean) <==> Takes(m, pattern, clean)
  {
    if IsDirGlob(pattern) { assert pattern == pattern[..|pattern| - 3] + "/**"; }
    if dir :| pattern == dir + "/**" && dir <= clean { assert pattern[..|pattern| - 3] == dir; }
  }

  ghost predicate GlobTakes(m: Matcher, g: string, clean: string)
  {
    TrimSpace(g) != "" && Takes(m, Clean(g), clean)
  }

  predicate RegexTakes(compile: string -> Option<string -> bool>, r: string, clean: string)
  {
    TrimSpace(r) != "" && compile(r).Some? && compile(r).value(clean)
  }

  lemma {:induction false} GlobKept(globs: seq<string>, i: nat)
    requires i < |globs| && TrimSpace(globs[i]) != ""
    ensures Clean(globs[i]) in CleanedGlobs(globs)
  {
    var init := globs[..|globs| - 1];
    if i < |init| {
      assert init[i] == globs[i];
      GlobKept(init, i);
    }
  }

  lemma {:induction false} GlobOrigin(globs: seq<string>, g: string) returns (i: nat)
    requires g in CleanedGlobs(globs)
    ensures i < |globs| && TrimSpace(globs[i]) != "" && g == Clean(globs[i])
  {
    var init := globs[..|globs| - 1];
    i := |init|;
    if g in CleanedGlobs(init) {
      i := GlobOrigin(init, g);
      assert init[i] == globs[i];
    }
  }

  lemma {:induction false} RegexKept(compile: string -> Option<string -> bool>, regexes: seq<string>, i: nat)
      returns (j: nat)
    requires Compiled(compile, regexes).Ok? && i < |regexes| && TrimSpace(regexes[i]) != ""
    ensures compile(regexes[i]).Some?
    ensures j < |Compiled(compile, regexes).value|
            && Compiled(compile, regexes).value[j] == compile(regexes[i]).value
  {
    var init := regexes[..|regexes| - 1];
    j := |Compiled(compile, init).value|;
    if i < |init| {
      assert init[i] == regexes[i];
      j := RegexKept(compile, init, i);
    }
  }

  lemma {:induction false} RegexOrigin(compile: string -> Option<string -> bool>, regexes: seq<string>, j: nat)
      returns (i: nat)
    requires Compiled(compile, regexes).Ok? && j < |Compiled(compile, regexes).value|
    ensures i < |regexes| && TrimSpace(regexes[i]) != "" && compile(regexes[i]).Some?
            && Compiled(compile, regexes).value[j] == compile(regexes[i]).value
  {
    var init := regexes[..|regexes| - 1];
    i := |init|;
    if j < |Compiled(compile, init).value| {
      i := RegexOrigin(compile, init, j);
      assert init[i] == regexes[i];
    }
  }

  lemma GlobsExact(m: Matcher, globs: seq<string>, clean: string)
    ensures var kept := CleanedGlobs(globs);
            (exists i | 0 <= i < |kept| :: GlobHits(m, kept[i], clean)) <==>
            (exists i | 0 <= i < |globs| :: GlobTakes(m, globs[i], clean))
  {
    var kept := CleanedGlobs(globs);
    if k :| 0 <= k < |kept| && GlobHits(m, kept[k], clean) {
      var i := GlobOrigin(globs, kept[k]);
      TakesExact(m, kept[k], clean);
      assert GlobTakes(m, globs[i], clean);
    }
    if i :| 0 <= i < |globs| && GlobTakes(m, globs[i], clean) {
      GlobKept(globs, i);
      var k :| 0 <= k < |kept| && kept[k] == Clean(globs[i]);
      TakesExact(m, kept[k], clean);
    }
  }

  lemma RegexesExact(compile: string -> Option<string -> bool>, regexes: seq<string>, clean: string)
    requires Compiled(compile, regexes).Ok?
    ensures var rexes := Compiled(compile, regexes).value;
            (exists i | 0 <= i < |rexes| :: rexes[i](clean)) <==>
            (exists i | 0 <= i < |regexes| :: RegexTakes(compile, regexes[i], clean))
  {
    var rexes := Compiled(compile, regexes).value;
    if k :| 0 <= k < |rexes| && rexes[k](clean) {
      var i := RegexOrigin(compile, regexes, k);
      assert RegexTakes(compile, regexes[i], clean);
    }
    if i :| 0 <= i < |regexes| && RegexTakes(compile, regexes[i], clean) {
      var k := RegexKept(compile, regexes, i);
      assert rexes[k](clean);
    }
  }

  /** What an excluder made of the given patterns excludes: what a glob that is not blank takes once it is cleaned,
      and what an expression that is not blank matches. */
  lemma ExcludesExactly(m: Matcher, compile: string -> Option<string -> bool>, globs: seq<string>,
                        regexes: seq<string>, e: Excluder, path: string)
    requires e.globs == CleanedGlobs(globs) && Compiled(compile, regexes) == Ok(e.rexes)
    ensures Excluded(m, e, path) <==>
            || (exists i | 0 <= i < |globs| :: GlobTakes(m, globs[i], Clean(path)))
            || (exists i | 0 <= i < |regexes| :: RegexTakes(compile, regexes[i], Clean(path)))
  {
    GlobsExact(m, globs, Clean(path));
    RegexesExact(compile, regexes, Clean(path));
  }

  predicate LiteralText(s: string)
  {
    forall i | 0 <= i < |s| :: s[i] !in "*?[\\"
  }

  /** Only globs that end in a slash and two stars, whose directory part has no pattern character. */
  predicate LiteralDirs(e: Excluder)
  {
    && |e.rexes| == 0
    && forall i | 0 <= i < |e.globs| :: IsDirGlob(e.globs[i]) && LiteralText(e.globs[i][..|e.globs[i]| - 3])
  }

  /** All that is assumed of filepath.Match: a match of such a glob begins with its literal directory part. */
  ghost predicate LiteralPrefixSound(m: Matcher)
  {
    forall d, c :: LiteralText(d) && m(d + "/**", c) == Some(true) ==> d <= c
  }

  /** A match on a directory is a match on everything below it. */
  ghost predicate DescendantClosed(skip: string -> bool)
  {
    forall cs, ds :: cs != [] && Names(cs) && Names(ds) && skip(Render(cs)) ==> skip(Render(cs + ds))
  }

  /** With literal directory globs, a path is excluded exactly when it begins with one of the directories. */
  lemma LiteralDirsExact(m: Matcher, e: Excluder, path: string)
    requires LiteralDirs(e) && LiteralPrefixSound(m)
    ensures Excluded(m, e, path) <==>
            exists i | 0 <= i < |e.globs| :: e.globs[i][..|e.globs[i]| - 3] <= Clean(path)
  {
    var clean := Clean(path);
    forall i | 0 <= i < |e.globs| ensures GlobHits(m, e.globs[i], clean) <==> e.globs[i][..|e.globs[i]| - 3] <= clean {
      var g := e.globs[i];
      assert g == g[..|g| - 3] + "/**";
    }
  }

  lemma RenderPrefix(cs: seq<string>, ds: seq<string>)
    requires cs != []
    ensures Render(cs) <= Render(cs + ds)
  {
    if ds == [] {
      assert cs + ds == cs;
    } else {
      JoinConcat(cs, ds, '/');
    }
  }

  function Skip(m: Matcher, e: Excluder): string -> bool
  {
    p => Excluded(m, e, p)
  }

  /** Excluders built only from literal directory globs are closed under descendants. */
  lemma LiteralDirsClosed(m: Matcher, e: Excluder)
    requires LiteralDirs(e) && LiteralPrefixSound(m)
    ensures DescendantClosed(Skip(m, e))
  {
    var skip := Skip(m, e);
    forall cs, ds | cs != [] && Names(cs) && Names(ds) && skip(Render(cs)) ensures skip(Render(cs + ds)) {
      RenderNames(cs);
      RenderNames(cs + ds);
      RenderPrefix(cs, ds);
      LiteralDirsExact(m, e, Render(cs));
      LiteralDirsExact(m, e, Render(cs + ds));
    }
  }

  /** A directory glob is a plain string prefix: it also takes the siblings whose names begin with the directory's. */
  lemma DirGlobTakesSiblings(m: Matcher, dir: string, tail: string)
    requires IsName(dir) && IsName(dir + tail)
    ensures Excluded(m, Excluder([dir + "/**"], []), dir + tail)
  {
    RenderNames([dir + tail]);
    assert Render([dir + tail]) == dir + tail;
    var g := dir + "/**";
    assert g[..|g| - 3] == dir && g[|g| - 3..] == "/**";
    assert GlobHits(m, Excluder([g], []).globs[0], dir + tail);
  }

  lemma FirstSlash(a: string, rest: string, b: string, tail: string)
    requires '/' !in a && '/' !in b
    ensures a + ['/'] + rest <= b + ['/'] + tail <==> a == b && rest <= tail
    ensures !(a + ['/'] + rest <= b)
    ensures a <= b + ['/'] + tail <==> a <= b
  {
    var x, y := a + ['/'] + rest, b + ['/'] + tail;
    assert x[|a|] == '/' && y[|b|] == '/';
    if x <= y {
      assert a == x[..|a|] && b == y[..|b|];
      assert rest == x[|a| + 1..] && tail == y[|b| + 1..];
    }
    if a == b && rest <= tail {
      assert tail == rest + tail[|rest|..];
      assert y == x + tail[|rest|..];
    }
  }

  /** The last name of the one begins the name at that level of the other, below the same parent. */
  predicate NamePrefix(ds: seq<string>, cs: seq<string>)
    requires ds != []
  {
    |ds| <= |cs| && ds[..|ds| - 1] == cs[..|ds| - 1] && ds[|ds| - 1] <= cs[|ds| - 1]
  }

  lemma {:induction false} JoinPrefixExact(ds: seq<string>, cs: seq<string>)
    requires ds != [] && cs != [] && Free(ds, '/') && Free(cs, '/')
    ensures Join(ds, '/') <= Join(cs, '/') <==> NamePrefix(ds, cs)
  {
    FirstSlash(ds[0], Join(ds[1..], '/'), cs[0], Join(cs[1..], '/'));
    if |ds| > 1 && |cs| > 1 {
      JoinPrefixExact(ds[1..], cs[1..]);
      NamePrefixTail(ds, cs);
      assert Join(ds, '/') == ds[0] + ['/'] + Join(ds[1..], '/');
      assert Join(cs, '/') == cs[0] + ['/'] + Join(cs[1..], '/');
    }
  }

  lemma NamePrefixTail(ds: seq<string>, cs: seq<string>)
    requires |ds| > 1 && |cs| > 1
    ensures NamePrefix(ds, cs) <==> ds[0] == cs[0] && NamePrefix(ds[1..], cs[1..])
  {
    var n := |ds| - 1;
    assert ds[..n] == [ds[0]] + ds[1..][..n - 1];
    if |ds| <= |cs| {
      assert cs[..n] == [cs[0]] + cs[1..][..n - 1];
      assert ds[..n] == cs[..n] ==> ds[..n][0] == cs[..n][0] && ds[..n][1..] == cs[..n][1..];
    }
  }

  lemma WholePrefix(ds: seq<string>, cs: seq<string>)
    requires ds != []
    ensures ds <= cs <==> NamePrefix(ds, cs) && ds[|ds| - 1] == cs[|ds| - 1]
  {
    var n := |ds| - 1;
    assert ds == ds[..n] + [ds[n]];
    if |ds| <= |cs| {
      assert cs[..n + 1] == cs[..n] + [cs[n]];
      if ds <= cs {
        assert ds == cs[..n + 1];
      }
      if ds[..n] == cs[..n] && ds[n] == cs[n] {
        assert ds == cs[..n + 1];
      }
    }
  }

  /** A literal directory glob takes what is at or below its directory, and beside that exactly what is at or below a
      sibling whose name properly begins with the directory's. */
  lemma DirGlobExactly(m: Matcher, ds: seq<string>, cs: seq<string>)
    requires ds != [] && cs != [] && Names(ds) && Names(cs) && LiteralText(Render(ds)) && LiteralPrefixSound(m)
    ensures Excluded(m, Excluder([Render(ds) + "/**"], []), Render(cs)) <==>
              ds <= cs || (NamePrefix(ds, cs) && ds[|ds| - 1] != cs[|ds| - 1])
  {
    var g := Render(ds) + "/**";
    var e := Excluder([g], []);
    assert g[..|g| - 3] == Render(ds) && g[|g| - 3..] == "/**";
    assert e.globs[0] == g;
    LiteralDirsExact(m, e, Render(cs));
    RenderNames(cs);
    JoinPrefixExact(ds, cs);
    WholePrefix(ds, cs);
  }
}
