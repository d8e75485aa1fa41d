/** What one run of the client decides: the scan of its target, the plan, the delete guard and the groups. */
module Plan {
  import opened Paths
  import opened Manifest
  import opened FileTree
  import opened Store
  import opened Parallel

  /* ------------------------------------------------------------------ scanning the target */

  predicate Reserved(p: string)
  {
    STAGING <= p || OBJECTS <= p
  }

  function Hiding(skip: string -> bool): string -> bool
  {
    p => Reserved(p) || skip(p)
  }

  /** The walk of the target does not get to the path: it or a directory above it is reserved or excluded. */
  predicate Hidden(skip: string -> bool, p: string)
  {
    !Clear(Hiding(skip), [], Components(p))
  }

  function LocalEntry(p: string, info: FileInfo): Entry
  {
    Entry(p, |info.content|, info.mode, info.mtime, "")
  }

  predicate Stops(d: Disk, skip: string -> bool, p: string)
  {
    !Hidden(skip, p) && Stat(d, p).None?
  }

  /** How far the walk gets: up to the first dangling link it looks at. */
  function Reach(d: Disk, skip: string -> bool, order: seq<string>): (n: nat)
    ensures n <= |order|
  {
    if order == [] || Stops(d, skip, order[0]) then 0 else 1 + Reach(d, skip, order[1..])
  }

  predicate ClearUpTo(d: Disk, skip: string -> bool, order: seq<string>, n: nat)
    requires n <= |order|
  {
    forall i | 0 <= i < n :: !Stops(d, skip, order[i])
  }

  lemma {:induction false} ReachExact(d: Disk, skip: string -> bool, order: seq<string>, n: nat)
    requires n <= |order| && ClearUpTo(d, skip, order, n) && (n < |order| ==> Stops(d, skip, order[n]))
    ensures Reach(d, skip, order) == n
  {
    if n > 0 {
      assert !Stops(d, skip, order[0]);
      forall i | 0 <= i < n - 1 ensures !Stops(d, skip, order[1..][i]) {
        assert order[1..][i] == order[i + 1];
      }
      ReachExact(d, skip, order[1..], n - 1);
    }
  }

  function Members(order: seq<string>): set<string>
  {
    set p | p in order
  }

  function Listing(d: Disk, skip: string -> bool, paths: set<string>): map<string, Entry>
  {
    map p | p in paths && !Hidden(skip, p) && Stat(d, p).Some? :: LocalEntry(p, Stat(d, p).value)
  }

  function ScanOf(d: Disk, skip: string -> bool, order: seq<string>): map<string, Entry>
  {
    Listing(d, skip, Members(order[..Reach(d, skip, order)]))
  }

  function FullScan(d: Disk, skip: string -> bool): map<string, Entry>
  {
    Listing(d, skip, d.target.Keys)
  }

  lemma ListingStep(d: Disk, skip: string -> bool, order: seq<string>, i: nat)
    requires i < |order|
    ensures var before, after := Listing(d, skip, Members(order[..i])), Listing(d, skip, Members(order[..i + 1]));
            var p := order[i];
            after == if Hidden(skip, p) || Stat(d, p).None? then before
                else before[p := LocalEntry(p, Stat(d, p).value)]
  {
    assert order[..i + 1] == order[..i] + [order[i]];
    assert Members(order[..i + 1]) == Members(order[..i]) + {order[i]};
    ListingAdd(d, skip, Members(order[..i]), order[i]);
  }

  lemma ListingAdd(d: Disk, skip: string -> bool, paths: set<string>, p: string)
    ensures Listing(d, skip, paths + {p})
         == if Hidden(skip, p) || Stat(d, p).None? then Listing(d, skip, paths)
            else Listing(d, skip, paths)[p := LocalEntry(p, Stat(d, p).value)]
  {
  }

  /** scanLocal: a dangling link ends the walk with a not-exist error, which is taken for a missing root and dropped. */
  method ScanLocal(d: Disk, skip: string -> bool, order: seq<string>) returns (res: map<string, Entry>)
    ensures res == ScanOf(d, skip, order)
  {
    res := map[];
    for i := 0 to |order|
      invariant ClearUpTo(d, skip, order, i)
      invariant res == Listing(d, skip, Members(order[..i]))
    {
      var p := order[i];
      if !Hidden(skip, p) {
        var info := Stat(d, p);
        if info.None? {
          ReachExact(d, skip, order, i);
          return;
        }
        ListingStep(d, skip, order, i);
        res := res[p := LocalEntry(p, info.value)];
      } else {
        ListingStep(d, skip, order, i);
      }
    }
    ReachExact(d, skip, order, |order|);
  }

  /** Any order in which the walk may meet the paths of the target. */
  ghost predicate WalkOrder(d: Disk, order: seq<string>)
  {
    forall p :: p in order <==> p in d.target
  }

  predicate NoDangling(d: Disk, skip: string -> bool)
  {
    forall p | p in d.target :: !Stops(d, skip, p)
  }

  /** Without a dangling link in sight the scan sees every file, in whatever order it walks. */
  lemma ScanSeesAll(d: Disk, skip: string -> bool, order: seq<string>)
    requires WalkOrder(d, order) && NoDangling(d, skip)
    ensures ScanOf(d, skip, order) == FullScan(d, skip)
  {
    ReachExact(d, skip, order, |order|);
    assert order[..|order|] == order;
    assert Members(order) == d.target.Keys;
  }

  /** With one, exactly what the walk meets before it is seen. */
  lemma DanglingEndsScan(d: Disk, skip: string -> bool, order: seq<string>, k: nat)
    requires WalkOrder(d, order) && k < |order| && Stops(d, skip, order[k])
    requires forall i | 0 <= i < k :: !Stops(d, skip, order[i])
    ensures forall p :: p in ScanOf(d, skip, order) <==> p in order[..k] && !Hidden(skip, p)
  {
    ReachExact(d, skip, order, k);
    forall p | p in order[..k] && !Hidden(skip, p) ensures Stat(d, p).Some? {
      var i :| 0 <= i < k && order[i] == p;
      assert !Stops(d, skip, order[i]);
    }
  }

  /* ------------------------------------------------------------------ the plan */

  predicate SameMeta(a: Entry, b: Entry)
  {
    a.size == b.size && a.mtime == b.mtime && a.mode == b.mode
  }

  /** The quick check leaves the path alone. */
  predicate Kept(remote: map<string, Entry>, local: map<string, Entry>, p: string)
  {
    p in remote && p in local && SameMeta(local[p], remote[p])
  }

  predicate Keyed(m: map<string, Entry>)
  {
    forall p | p in m :: m[p].path == p
  }

  ghost predicate IsPlan(remote: map<string, Entry>, local: map<string, Entry>, down: seq<Entry>, del: seq<string>)
  {
    && Increasing(down) && Ascending(del)
    && (forall e :: e in down <==> e.path in remote && remote[e.path] == e && !Kept(remote, local, e.path))
    && (forall p :: p in del <==> p in local && p !in remote)
  }

  method PlanDownloads(remote: map<string, Entry>, local: map<string, Entry>) returns (down: seq<Entry>)
    requires Keyed(remote)
    ensures Increasing(down)
    ensures forall e :: e in down <==> e.path in remote && remote[e.path] == e && !Kept(remote, local, e.path)
  {
    var some: seq<Entry> := [];
    var rest := remote.Keys;
    while rest != {}
      invariant rest <= remote.Keys && DistinctPaths(some)
      invariant forall e :: e in some <==>
                  e.path in remote && e.path !in rest && remote[e.path] == e && !Kept(remote, local, e.path)
    {
      var p :| p in rest;
      var re := remote[p];
      if !(p in local && SameMeta(local[p], re)) {
        forall i | 0 <= i < |some| ensures some[i].path != p {
          assert some[i] in some;
        }
        some := some + [re];
      }
      rest := rest - {p};
    }
    SortIncreasing(some);
    SameMembers(some, SortByPath(some));
    return SortByPath(some);
  }

  method PlanDeletes(remote: map<string, Entry>, local: map<string, Entry>) returns (del: seq<string>)
    ensures Ascending(del)
    ensures forall p :: p in del <==> p in local && p !in remote
  {
    var some: seq<string> := [];
    var rest := local.Keys;
    while rest != {}
      invariant rest <= local.Keys && (forall i, j | 0 <= i < j < |some| :: some[i] != some[j])
      invariant forall p :: p in some <==> p in local && p !in rest && p !in remote
    {
      var p :| p in rest;
      if p !in remote {
        some := some + [p];
      }
      rest := rest - {p};
    }
    SortAscending(some);
    return SortNames(some);
  }

  /** There is one plan only. */
  lemma PlanUnique(remote: map<string, Entry>, local: map<string, Entry>, down: seq<Entry>, del: seq<string>,
                   down1: seq<Entry>, del1: seq<string>)
    requires IsPlan(remote, local, down, del) && IsPlan(remote, local, down1, del1)
    ensures down == down1 && del == del1
  {
    IncreasingUnique(down, down1);
    AscendingUnique(del, del1);
  }

  predicate InPlan(down: seq<Entry>, p: string)
  {
    exists i | 0 <= i < |down| :: down[i].path == p
  }

  /** The local paths split into kept, replaced and deleted; deletes and the remote have nothing in common; and what is
      downloaded is all of the remote but what is kept. */
  lemma PlanConserves(remote: map<string, Entry>, local: map<string, Entry>, down: seq<Entry>, del: seq<string>)
    requires Keyed(remote) && IsPlan(remote, local, down, del)
    ensures forall p :: p in del ==> p !in remote
    ensures forall p :: p in local <==> Kept(remote, local, p) || (p in local && InPlan(down, p)) || p in del
    ensures forall p :: !(Kept(remote, local, p) && InPlan(down, p))
    ensures forall p :: p in del ==> !Kept(remote, local, p) && !InPlan(down, p)
    ensures forall p :: p in remote <==> Kept(remote, local, p) || InPlan(down, p)
  {
    forall p ensures InPlan(down, p) <==> p in remote && !Kept(remote, local, p) {
      if i :| 0 <= i < |down| && down[i].path == p { assert down[i] in down; }
      if p in remote && !Kept(remote, local, p) {
        assert remote[p] in down;
      }
    }
  }

  /* ------------------------------------------------------------------ the delete guard */

  datatype Config = Config(force: bool, minFiles: int, ratio: real, dryRun: bool, concurrency: int)

  const DEFAULT_CONCURRENCY := 8

  function Limit(cfg: Config): nat
  {
    if cfg.concurrency <= 0 then DEFAULT_CONCURRENCY else cfg.concurrency
  }

  lemma RatioBound(deletes: real, total: real, ratio: real)
    requires total > 0.0
    ensures deletes / total > ratio <==> deletes > ratio * total
  {
    var q := deletes / total;
    assert q * total == deletes;
    if q > ratio {
      assert (q - ratio) * total > 0.0;
    } else {
      assert (ratio - q) * total >= 0.0;
    }
  }

  predicate GuardPasses(cfg: Config, total: nat, deletes: nat)
  {
    cfg.force || deletes == 0 || total < cfg.minFiles || (total > 0 && deletes as real <= cfg.ratio * total as real)
  }

  /** enforceDeleteGuard. An empty target with deletes planned would divide by zero, which gives +Inf and trips the
      guard. */
  method EnforceDeleteGuard(cfg: Config, total: nat, deletes: nat) returns (ok: bool)
    ensures ok <==> GuardPasses(cfg, total, deletes)
    ensures ok && !cfg.force && cfg.minFiles <= total && cfg.ratio >= 0.0 ==>
              deletes as real <= cfg.ratio * total as real
    ensures !ok <==>
            !cfg.force && deletes > 0 && cfg.minFiles <= total
              && (total == 0 || deletes as real > cfg.ratio * total as real)
  {
    if cfg.force || deletes == 0 {
      return true;
    }
    if total < cfg.minFiles {
      return true;
    }
    if total == 0 {
      return false;
    }
    RatioBound(deletes as real, total as real, cfg.ratio);
    var ratio := deletes as real / total as real;
    return !(ratio > cfg.ratio);
  }

  /* ------------------------------------------------------------------ the groups */

  function GroupsOf(es: seq<Entry>): map<string, seq<Entry>>
  {
    if es == [] then map[]
    else
      var init, last := GroupsOf(es[..|es| - 1]), es[|es| - 1];
      init[last.checksum := (if last.checksum in init then init[last.checksum] else []) + [last]]
  }

  /** The grouping at the head of downloadAll. */
  method GroupByChecksum(es: seq<Entry>) returns (groups: map<string, seq<Entry>>, checksums: seq<string>)
    ensures groups == GroupsOf(es)
    ensures Ascending(checksums) && forall c :: c in checksums <==> c in groups
  {
    groups := map[];
    for i := 0 to |es|
      invariant groups == GroupsOf(es[..i])
    {
      assert es[..i + 1][..i] == es[..i];
      var c := es[i].checksum;
      groups := groups[c := (if c in groups then groups[c] else []) + [es[i]]];
    }
    assert es[..|es|] == es;
    var some: seq<string> := [];
    var rest := groups.Keys;
    while rest != {}
      invariant rest <= groups.Keys && (forall i, j | 0 <= i < j < |some| :: some[i] != some[j])
      invariant forall c :: c in some <==> c in groups && c !in rest
    {
      var c :| c in rest;
      some := some + [c];
      rest := rest - {c};
    }
    SortAscending(some);
    checksums := SortNames(some);
  }

  function OfChecksum(es: seq<Entry>, c: string): seq<Entry>
  {
    if es == [] then []
    else OfChecksum(es[..|es| - 1], c) + (if es[|es| - 1].checksum == c then [es[|es| - 1]] else [])
  }

  lemma {:induction false} GroupIs(es: seq<Entry>, c: string)
    ensures c in GroupsOf(es) <==> OfChecksum(es, c) != []
    ensures c in GroupsOf(es) ==> GroupsOf(es)[c] == OfChecksum(es, c)
  {
    if es != [] { GroupIs(es[..|es| - 1], c); }
  }

  lemma {:induction false} OfChecksumExact(es: seq<Entry>, c: string)
    requires Increasing(es)
    ensures Increasing(OfChecksum(es, c))
    ensures forall e :: e in OfChecksum(es, c) <==> e in es && e.checksum == c
  {
    if es != [] {
      var init, last := es[..|es| - 1], es[|es| - 1];
      assert es == init + [last];
      OfChecksumExact(init, c);
      var g := OfChecksum(init, c);
      forall i | 0 <= i < |g| ensures Less(g[i].path, last.path) {
        assert g[i] in init;
      }
    }
  }

  /** Each group holds, in order, exactly the entries of its checksum; so a worker's sort of its group changes
      nothing. */
  lemma GroupExact(es: seq<Entry>, c: string)
    requires Increasing(es)
    ensures c in GroupsOf(es) <==> exists e :: e in es && e.checksum == c
    ensures c in GroupsOf(es) ==>
              var g := GroupsOf(es)[c];
              g != [] && Increasing(g) && SortByPath(g) == g && forall e :: e in g <==> e in es && e.checksum == c
  {
    GroupIs(es, c);
    OfChecksumExact(es, c);
    SortFixed(OfChecksum(es, c));
    if OfChecksum(es, c) != [] {
      assert OfChecksum(es, c)[0] in OfChecksum(es, c);
    }
  }

  function SizesOf(groups: map<string, seq<Entry>>): map<string, nat>
  {
    map c | c in groups :: |groups[c]|
  }

  /** The groups together have as many entries as were planned. */
  lemma {:induction false} GroupsTotal(es: seq<Entry>, cs: seq<string>)
    requires Distinct(cs) && forall e :: e in es ==> e.checksum in cs
    ensures Sum(cs, SizesOf(GroupsOf(es))) == |es|
  {
    if es == [] {
      SumZero(cs, SizesOf(GroupsOf(es)));
    } else {
      var init, last := es[..|es| - 1], es[|es| - 1];
      assert es == init + [last];
      GroupsTotal(init, cs);
      SumUpdate(cs, SizesOf(GroupsOf(init)), SizesOf(GroupsOf(es)), last.checksum);
    }
  }
}
