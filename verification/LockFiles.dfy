/** What a lock file says when it is read back, exactly. */
module LockFiles {
  import opened Text
  import opened Paths
  import opened Overlap
  import opened LockManager

  /** The fields a lock file can carry: no separator in either, and no blank at the end of the path. */
  predicate FileSafe(owner: string, path: string)
  {
    '|' !in owner && '|' !in path && !(path != "" && IsSpace(path[|path| - 1]))
  }

  predicate ReadsBack(codec: TimeCodec, e: DirEntry, exp: int, path: string)
  {
    var p := ParseLock(codec, e);
    p.Parsed? && p.expiresAt == exp && p.path == path
  }

  lemma {:induction false} TrimLeftStops(a: string, b: string)
    ensures TrimLeft(a + ['|'] + b) == TrimLeft(a) + ['|'] + b
    ensures '|' in TrimLeft(a) <==> '|' in a
  {
    var s := a + ['|'] + b;
    if a != "" && IsSpace(a[0]) {
      TrimLeftStops(a[1..], b);
      assert s[1..] == a[1..] + ['|'] + b;
      assert a == [a[0]] + a[1..];
    }
  }

  lemma {:induction false} TrimRightStops(a: string, b: string)
    ensures TrimRight(a + ['|'] + b) == a + ['|'] + TrimRight(b)
    ensures '|' in TrimRight(b) <==> '|' in b
    ensures TrimRight(b) <= b
    ensures TrimRight(b) == b <==> !(b != "" && IsSpace(b[|b| - 1]))
    decreases |b|
  {
    var s := a + ['|'] + b;
    if b != "" && IsSpace(b[|b| - 1]) {
      TrimRightStops(a, b[..|b| - 1]);
      assert s[..|s| - 1] == a + ['|'] + b[..|b| - 1];
      assert b == b[..|b| - 1] + [b[|b| - 1]];
    }
  }

  function Weight(parts: seq<string>): nat
  {
    if parts == [] then 0 else |parts[0]| + 1 + Weight(parts[1..])
  }

  lemma {:induction false} WeightConcat(a: seq<string>, b: seq<string>)
    ensures Weight(a + b) == Weight(a) + Weight(b)
  {
    if a == [] {
      assert a + b == b;
    } else {
      assert (a + b)[1..] == a[1..] + b;
      WeightConcat(a[1..], b);
    }
  }

  lemma {:induction false} SplitWeight(s: string, sep: char)
    ensures Weight(Split(s, sep)) == |s| + 1
  {
    if s != "" {
      SplitWeight(s[1..], sep);
      var rest := Split(s[1..], sep);
      assert ([""] + rest)[1..] == rest;
      assert ([[s[0]] + rest[0]] + rest[1..])[1..] == rest[1..];
    }
  }

  lemma {:induction false} JoinWeight(parts: seq<string>, sep: char)
    requires parts != []
    ensures |Join(parts, sep)| + 1 == Weight(parts)
  {
    if |parts| > 1 {
      JoinWeight(parts[1..], sep);
    } else {
      assert parts[1..] == [];
    }
  }

  lemma {:induction false} ReduceWeight(rooted: bool, done: seq<string>, todo: seq<string>)
    ensures Weight(Reduce(rooted, done, todo)) <= Weight(done) + Weight(todo)
    decreases |todo|
  {
    if todo != [] {
      var c := todo[0];
      WeightConcat(done, [c]);
      assert Weight([c]) == |c| + 1 by { assert [c][1..] == []; }
      if done != [] {
        WeightConcat(done[..|done| - 1], [done[|done| - 1]]);
        assert done == done[..|done| - 1] + [done[|done| - 1]];
      }
      ReduceWeight(rooted, Push(rooted, done, c), todo[1..]);
    }
  }

  /** Cleaning never lengthens a path, except the empty one. */
  lemma CleanShortens(p: string)
    ensures |Clean(p)| <= if p == "" then 1 else |p|
  {
    var cs := Components(p);
    SplitWeight(p, '/');
    if Rooted(p) {
      var rest := Split(p[1..], '/');
      assert p == "" + ['/'] + p[1..];
      SplitConcat("", p[1..], '/');
      SplitWeight(p[1..], '/');
      assert ([""] + rest)[1..] == rest;
      ReduceWeight(true, [], rest);
    } else {
      ReduceWeight(false, [], Split(p, '/'));
    }
    if cs != [] {
      JoinWeight(cs, '/');
    }
  }

  lemma LockTextParts(codec: TimeCodec, owner: string, exp: int, path: string)
    requires GoodCodec(codec)
    ensures Split(TrimSpace(LockText(codec, owner, exp, path)), '|')
         == Split(TrimLeft(owner), '|') + [codec.format(exp)] + Split(TrimRight(path), '|')
  {
    var ts := codec.format(exp);
    var o, t := TrimLeft(owner), TrimRight(path);
    assert LockText(codec, owner, exp, path) == owner + ['|'] + (ts + "|" + path);
    TrimLeftStops(owner, ts + "|" + path);
    var head := o + "|" + ts;
    assert o + ['|'] + (ts + "|" + path) == head + ['|'] + path;
    TrimRightStops(head, path);
    SplitConcat(head, t, '|');
    assert head == o + ['|'] + ts;
    SplitConcat(o, ts, '|');
    SplitWhole(ts, '|');
  }

  /** What a written lock file is parsed as. */
  lemma ParsedText(codec: TimeCodec, owner: string, exp: int, path: string)
    requires GoodCodec(codec)
    ensures ParseLock(codec, File(LockText(codec, owner, exp, path)))
         == if '|' in owner || '|' in path then Bad else Parsed(TrimLeft(owner), exp, CleanPath(TrimRight(path)))
  {
    var o, t := TrimLeft(owner), TrimRight(path);
    LockTextParts(codec, owner, exp, path);
    TrimLeftStops(owner, "");
    TrimRightStops("", path);
    SplitSingle(o);
    SplitSingle(t);
    if '|' !in o && '|' !in t {
      assert Split(TrimSpace(LockText(codec, owner, exp, path)), '|') == [o, codec.format(exp), t];
    }
  }

  /** A lock file gives back the expiry and the path it was written with exactly when its fields are safe. */
  lemma ReadsBackExactly(codec: TimeCodec, owner: string, exp: int, path: string)
    requires GoodCodec(codec) && CleanPath(path) == path
    ensures ReadsBack(codec, File(LockText(codec, owner, exp, path)), exp, path) <==> FileSafe(owner, path)
  {
    var t := TrimRight(path);
    ParsedText(codec, owner, exp, path);
    TrimRightStops("", path);
    CleanPathIsClean(t);
    CleanShortens(t);
  }

  /** The owner comes back too, but for blanks in front of it. */
  lemma OwnerReadsBack(codec: TimeCodec, owner: string, exp: int, path: string)
    requires GoodCodec(codec) && CleanPath(path) == path && FileSafe(owner, path)
    ensures ParseLock(codec, File(LockText(codec, owner, exp, path))) == Parsed(TrimLeft(owner), exp, path)
    ensures TrimLeft(owner) == owner <==> !(owner != "" && IsSpace(owner[0]))
  {
    ParsedText(codec, owner, exp, path);
    TrimRightStops("", path);
    TrimLeftShorter(owner);
  }

  lemma {:induction false} TrimLeftShorter(s: string)
    ensures |TrimLeft(s)| <= |s| && (s != "" && IsSpace(s[0]) ==> |TrimLeft(s)| < |s|)
  {
    if s != "" && IsSpace(s[0]) { TrimLeftShorter(s[1..]); }
  }

  /** Whatever path a lock file reads back as, it is the written one or a strictly shorter one. */
  lemma ReadsBackShorter(codec: TimeCodec, owner: string, exp: int, path: string, exp': int, q: string)
    requires GoodCodec(codec) && CleanPath(path) == path
    requires ReadsBack(codec, File(LockText(codec, owner, exp, path)), exp', q)
    ensures q == path || (path != "" && IsSpace(path[|path| - 1]) && (|q| < |path| || q == "."))
  {
    var t := TrimRight(path);
    ParsedText(codec, owner, exp, path);
    TrimRightStops("", path);
    CleanPathIsClean(t);
    CleanShortens(t);
  }

  lemma SplitSingle(s: string)
    ensures |Split(s, '|')| == 1 <==> '|' !in s
    ensures '|' !in s ==> Split(s, '|') == [s]
  {
    if '|' !in s {
      SplitWhole(s, '|');
    } else if |Split(s, '|')| == 1 {
      SplitFree(s, '|');
      JoinSplit(s, '|');
    }
  }
}
