/** From the tree of a module to the client's disk: index, snapshot, pages, plan, downloads, deletes. */
module EndToEnd {
  import opened Options
  import opened Paths
  import opened Manifest
  import opened Exclude
  import opened FileTree
  import opened Snapshot
  import opened Indexer
  import opened Paging
  import opened Store
  import opened OwnStore
  import opened Sources
  import opened Parallel
  import opened Plan
  import opened Mirror
  import opened Converge

  ghost function Preimage(hash: Hash, c: string): Content
  {
    if exists x :: hash(x) == c then
      var x :| hash(x) == c;
      x
    else []
  }

  ghost function TruthOf(hash: Hash, remote: map<string, Entry>): map<string, Content>
  {
    map c | c in (set p | p in remote :: remote[p].checksum) :: Preimage(hash, c)
  }

  /** The manifest of a source directory, as the client gets it. */
  function ManifestOf(hash: Hash, root: Forest, s: seq<string>, skip: string -> bool): map<string, Entry>
  {
    ByPath(Cut("", "", IndexOf(hash, root), PrefixOf(s), skip).entries)
  }

  /** The entries of the snapshot a session cuts for a source path. */
  function Listed(hash: Hash, root: Forest, sourcePath: string, skip: string -> bool): seq<Entry>
  {
    Cut("", "", IndexOf(hash, root), SourcePrefix(sourcePath), skip).entries
  }

  lemma ListedExact(hash: Hash, root: Forest, sourcePath: string, skip: string -> bool)
    requires ValidForest(root)
    ensures ByPath(Listed(hash, root, sourcePath, skip))
         == if Climbs(sourcePath) then map[] else ManifestOf(hash, root, Components(sourcePath), skip)
  {
    SourcePrefixExact(sourcePath);
    if Climbs(sourcePath) {
      ClimbingSourceIsEmpty(hash, root, SourcePrefix(sourcePath), skip);
      SnapshotConsistent(hash, root, SourcePrefix(sourcePath), skip, "", "");
    }
  }

  ghost function UpstreamOf(hash: Hash, root: Forest, s: seq<string>, skip: string -> bool): Upstream
  {
    var remote := ManifestOf(hash, root, s, skip);
    Upstream(hash, skip, remote, TruthOf(hash, remote))
  }

  function InfoAt(source: Forest, q: seq<string>): FileInfo
    requires HasFile(source, q)
  {
    Find(source, q).value.info
  }

  /* ------------------------------------------------------------------ what the caller has to see to */

  predicate CopiesAgree(a: FileInfo, b: FileInfo)
  {
    a.content == b.content ==> a == b
  }

  /** No two contents of the tree collide; no offered path looks like the client's own directories; equal contents have
      equal mode and time. */
  ghost predicate GoodTree(hash: Hash, skip: string -> bool, source: Forest)
  {
    && (forall q :: Offered(skip, source, q) ==> CollisionFree(hash, InfoAt(source, q).content) && !Reserved(Render(q)))
    && (forall q, r ::
          Offered(skip, source, q) && Offered(skip, source, r) ==> CopiesAgree(InfoAt(source, q), InfoAt(source, r)))
  }

  predicate Alike(a: FileInfo, b: FileInfo)
  {
    |a.content| == |b.content| && a.mode == b.mode && a.mtime == b.mtime
  }

  /** The quick check is right about the files it finds: same size, mode and time means same content. */
  ghost predicate QuickCheckSound(skip: string -> bool, source: Forest, d: Disk)
  {
    forall q ::
      (Offered(skip, source, q) && Stat(d, Render(q)).Some? && Alike(Stat(d, Render(q)).value, InfoAt(source, q))) ==>
                  Stat(d, Render(q)).value.content == InfoAt(source, q).content
  }

  /** The target lists exactly the offered files of the source, each with its content, mode and time. */
  ghost predicate TreeMirrored(skip: string -> bool, source: Forest, d: Disk)
  {
    && (forall q :: Offered(skip, source, q) ==> Stat(d, Render(q)) == Some(InfoAt(source, q)))
    && (forall p :: p in d.target && !Hidden(skip, p) ==> exists q :: Offered(skip, source, q) && Render(q) == p)
  }

  /* ------------------------------------------------------------------ the manifest */

  lemma ManifestAt(hash: Hash, root: Forest, s: seq<string>, source: Forest, skip: string -> bool, q: seq<string>)
    requires ValidForest(root) && Below(root, s) == Some(source) && Offered(skip, source, q)
    ensures var remote := ManifestOf(hash, root, s, skip);
            Render(q) in remote && remote[Render(q)] == EntryAt(hash, source, q)
  {
    SnapshotConsistent(hash, root, PrefixOf(s), skip, "", "");
    SnapshotExact(hash, root, s, source, skip);
    assert FileEntry(hash, source, q, EntryAt(hash, source, q));
    assert Visible(hash, skip, source, EntryAt(hash, source, q));
  }

  lemma ManifestFrom(hash: Hash, root: Forest, s: seq<string>, source: Forest, skip: string -> bool,
                     p: string) returns (q: seq<string>)
    requires ValidForest(root) && Below(root, s) == Some(source) && p in ManifestOf(hash, root, s, skip)
    ensures Offered(skip, source, q) && Render(q) == p && ManifestOf(hash, root, s, skip)[p] == EntryAt(hash, source, q)
  {
    SnapshotConsistent(hash, root, PrefixOf(s), skip, "", "");
    SnapshotExact(hash, root, s, source, skip);
    var e := ManifestOf(hash, root, s, skip)[p];
    assert Visible(hash, skip, source, e);
    q :| FileEntry(hash, source, q, e) && !skip(Render(q));
  }

  lemma OwnReserved(p: string)
    requires Own(p)
    ensures Reserved(p)
  {
    assert STAGING + "/" <= p ==> p[..|STAGING|] == (STAGING + "/")[..|STAGING|];
    assert OBJECTS + "/" <= p ==> p[..|OBJECTS|] == (OBJECTS + "/")[..|OBJECTS|];
  }

  lemma OfferedProper(skip: string -> bool, source: Forest, q: seq<string>)
    requires Offered(skip, source, q)
    ensures Proper(Render(q)) <==> !Own(Render(q))
  {
    if !Own(Render(q)) { NamesProper(q); }
  }

  /** The paths of a manifest are all proper exactly when the source offers no file in a directory of the client's
      own. It does when the module is itself the target of a client. */
  lemma ManifestProperExactly(hash: Hash, root: Forest, s: seq<string>, source: Forest, skip: string -> bool)
    requires ValidForest(root) && Below(root, s) == Some(source)
    ensures ProperRemote(ManifestOf(hash, root, s, skip)) <==> forall q :: Offered(skip, source, q) ==> !Own(Render(q))
  {
    var remote := ManifestOf(hash, root, s, skip);
    forall q | Offered(skip, source, q) ensures Render(q) in remote && (Proper(Render(q)) <==> !Own(Render(q))) {
      ManifestAt(hash, root, s, source, skip, q);
      OfferedProper(skip, source, q);
    }
    forall p | p in remote ensures exists q :: Offered(skip, source, q) && Render(q) == p && remote[p].path == p {
      var q := ManifestFrom(hash, root, s, source, skip, p);
    }
  }

  /** An object of such a target is listed under its own path with its own checksum: the entry no client can promote. */
  lemma OwnStoreListed(hash: Hash, root: Forest, s: seq<string>, source: Forest, skip: string -> bool, c: string)
    requires ValidForest(root) && Below(root, s) == Some(source) && Offered(skip, source, [OBJECTS, c])
    requires hash(InfoAt(source, [OBJECTS, c]).content) == c
    ensures var remote := ManifestOf(hash, root, s, skip);
            ObjectPath(c) in remote && remote[ObjectPath(c)].path == ObjectPath(c)
              && remote[ObjectPath(c)].checksum == c
  {
    ManifestAt(hash, root, s, source, skip, [OBJECTS, c]);
    StripPrefix([OBJECTS], [c]);
    assert [OBJECTS, c] == [OBJECTS] + [c];
    assert [OBJECTS, c][0] == OBJECTS && IsName(c) by { assert Names([OBJECTS, c]); }
  }

  lemma TreeTruthful(hash: Hash, root: Forest, s: seq<string>, source: Forest, skip: string -> bool)
    requires ValidForest(root) && Below(root, s) == Some(source) && GoodTree(hash, skip, source)
    ensures Truthful(UpstreamOf(hash, root, s, skip))
  {
    var up := UpstreamOf(hash, root, s, skip);
    forall p | p in up.remote ensures up.remote[p].path == p && TrueEntry(up, up.remote[p]) && Proper(p) {
      var q := ManifestFrom(hash, root, s, source, skip, p);
      TrueAt(hash, skip, source, up, p, q);
      if Own(p) { OwnReserved(p); }
      NamesProper(q);
    }
  }

  lemma TreeAgreeing(hash: Hash, root: Forest, s: seq<string>, source: Forest, skip: string -> bool,
                     p: string, p': string)
    requires ValidForest(root) && Below(root, s) == Some(source) && GoodTree(hash, skip, source)
    requires p in ManifestOf(hash, root, s, skip) && p' in ManifestOf(hash, root, s, skip)
    ensures var remote := ManifestOf(hash, root, s, skip);
            remote[p].checksum == remote[p'].checksum ==>
              remote[p].mode == remote[p'].mode && remote[p].mtime == remote[p'].mtime
  {
    var q := ManifestFrom(hash, root, s, source, skip, p);
    var r := ManifestFrom(hash, root, s, source, skip, p');
    assert CollisionFree(hash, InfoAt(source, q).content);
    assert CopiesAgree(InfoAt(source, q), InfoAt(source, r));
  }

  /** The manifest of a good tree is a truthful remote whose copies agree, all of it in the client's sight. */
  lemma TreeUpstream(hash: Hash, root: Forest, s: seq<string>, source: Forest, skip: string -> bool)
    requires ValidForest(root) && Below(root, s) == Some(source) && GoodTree(hash, skip, source)
    ensures var up := UpstreamOf(hash, root, s, skip); Truthful(up) && Agreeing(up.remote)
    ensures DescendantClosed(skip) ==> InSight(UpstreamOf(hash, root, s, skip))
  {
    var up := UpstreamOf(hash, root, s, skip);
    TreeTruthful(hash, root, s, source, skip);
    forall p, p' | p in up.remote && p' in up.remote && up.remote[p].checksum == up.remote[p'].checksum
      ensures up.remote[p].mode == up.remote[p'].mode && up.remote[p].mtime == up.remote[p'].mtime
    {
      TreeAgreeing(hash, root, s, source, skip, p, p');
    }
    if DescendantClosed(skip) {
      forall p | p in up.remote ensures !Hidden(skip, p) {
        var q := ManifestFrom(hash, root, s, source, skip, p);
        OfferedInSight(skip, q);
      }
    }
  }

  lemma TrueAt(hash: Hash, skip: string -> bool, source: Forest, up: Upstream, p: string, q: seq<string>)
    requires GoodTree(hash, skip, source) && Offered(skip, source, q) && p in up.remote
    requires up.remote[p] == EntryAt(hash, source, q)
    requires up.hash == hash && up.truth == TruthOf(hash, up.remote)
    ensures TrueEntry(up, up.remote[p]) && up.truth[up.remote[p].checksum] == InfoAt(source, q).content
  {
    var content := InfoAt(source, q).content;
    assert CollisionFree(hash, content);
    assert hash(content) == up.remote[p].checksum;
    assert hash(Preimage(hash, hash(content))) == hash(content);
  }

  lemma AncestorInSight(skip: string -> bool, a: seq<string>, b: seq<string>)
    requires DescendantClosed(skip) && a != [] && Names(a) && Names(b) && !skip(Render(a + b))
    requires !Reserved(Render(a + b))
    ensures !Hiding(skip)(Render(a))
  {
    RenderPrefix(a, b);
  }

  /** Neither reserved nor excluded on the way, so the scan of the target gets there. */
  lemma OfferedInSight(skip: string -> bool, q: seq<string>)
    requires DescendantClosed(skip) && Names(q) && !skip(Render(q)) && !Reserved(Render(q))
    ensures !Hidden(skip, Render(q))
  {
    RenderNames(q);
    forall i | 1 <= i <= |q| ensures !Hiding(skip)(Render([] + q[..i])) {
      assert [] + q[..i] == q[..i] && q == q[..i] + q[i..];
      AncestorInSight(skip, q[..i], q[i..]);
    }
  }

  /** The scan passes over a path exactly when it begins with one of the two reserved names, siblings of the client's
      own directories included, or it or a directory above it is excluded. */
  lemma HiddenExactly(skip: string -> bool, p: string)
    requires Tidy(p)
    ensures Hidden(skip, p) <==>
            ".sync-http-staging" <= p || ".sync-http-objects" <= p
            || exists i | 1 <= i <= |Components(p)| :: skip(Render(Components(p)[..i]))
  {
    var cs := Components(p);
    assert cs[..|cs|] == cs;
    forall i | 1 <= i <= |cs| ensures Render([] + cs[..i]) == Render(cs[..i]) <= p {
      assert [] + cs[..i] == cs[..i] && cs == cs[..i] + cs[i..];
      RenderPrefix(cs[..i], cs[i..]);
    }
  }

  /* ------------------------------------------------------------------ the whole way */

  lemma QuickCheckKeeps(hash: Hash, root: Forest, s: seq<string>, source: Forest, skip: string -> bool, before: Disk,
                        ev: Events)
    requires ValidForest(root) && Below(root, s) == Some(source) && GoodTree(hash, skip, source)
    requires QuickCheckSound(skip, source, before)
    ensures var up := UpstreamOf(hash, root, s, skip); KeptTrue(up, before, LocalOf(up, before, ev))
  {
    var up := UpstreamOf(hash, root, s, skip);
    forall p | Kept(up.remote, LocalOf(up, before, ev), p) && up.remote[p].checksum in up.truth
      ensures Stat(before, p).Some? && Stat(before, p).value.content == up.truth[up.remote[p].checksum]
    {
      var q := ManifestFrom(hash, root, s, source, skip, p);
      TrueAt(hash, skip, source, up, p, q);
      assert Alike(Stat(before, p).value, InfoAt(source, q));
    }
  }

  lemma MirroredFile(hash: Hash, root: Forest, s: seq<string>, source: Forest, skip: string -> bool, after: Disk,
                     q: seq<string>)
    requires ValidForest(root) && Below(root, s) == Some(source) && GoodTree(hash, skip, source)
    requires Offered(skip, source, q)
    requires var up := UpstreamOf(hash, root, s, skip);
             && Settled(up.remote, FullScan(after, skip))
             && (forall p :: p in up.remote ==> up.remote[p].checksum in up.truth && Stat(after, p).Some?
                                                && Stat(after, p).value.content == up.truth[up.remote[p].checksum])
    ensures Stat(after, Render(q)) == Some(InfoAt(source, q))
  {
    var up := UpstreamOf(hash, root, s, skip);
    ManifestAt(hash, root, s, source, skip, q);
    TrueAt(hash, skip, source, up, Render(q), q);
    assert Kept(up.remote, FullScan(after, skip), Render(q));
  }

  lemma ExcludedOutside(hash: Hash, root: Forest, s: seq<string>, source: Forest, skip: string -> bool, d: Disk,
                        order: seq<string>, at: seq<string>)
    requires ValidForest(root) && Below(root, s) == Some(source) && Names(at) && at != [] && skip(Render(at))
    ensures Render(at) !in ManifestOf(hash, root, s, skip) && Render(at) !in ScanOf(d, skip, order)
  {
    var p := Render(at);
    if p in ManifestOf(hash, root, s, skip) {
      var q := ManifestFrom(hash, root, s, source, skip, p);
    }
    RenderNames(at);
    assert [] + at[..|at|] == at;
    assert Hidden(skip, p) by { assert Hiding(skip)(Render([] + at[..|at|])); }
  }

  /** A path the shared excluder matches is never downloaded or deleted, however the run ends; its spot stays, and so
      does the content read there, and all that is read there unless it leads to an object of the plan. */
  lemma ExcludedUntouched(hash: Hash, root: Forest, s: seq<string>, source: Forest, skip: string -> bool, limit: nat,
                          before: Disk, ev: Events, dec: Decision, after: Disk, r: Result<Report, RunError>,
                            at: seq<string>)
    requires ValidForest(root) && Below(root, s) == Some(source) && Names(at) && at != [] && skip(Render(at))
    requires forall q :: Offered(skip, source, q) ==> !Own(Render(q))
    requires Decides(hash, skip, limit, ManifestOf(hash, root, s, skip), before, ev, dec)
    requires Applied(Exec(dec.job, ev.choices), dec.del, ev, after, r)
    requires Named(hash, before.objects)
    requires Stat(before, Render(at)).Some? ==> CollisionFree(hash, Stat(before, Render(at)).value.content)
    ensures Render(at) !in ManifestOf(hash, root, s, skip) && !InPlan(dec.down, Render(at)) && Render(at) !in dec.del
    ensures SameSpot(after.target, before.target, Render(at))
    ensures Stat(before, Render(at)).Some? ==>
              Stat(after, Render(at)).Some?
                && Stat(after, Render(at)).value.content == Stat(before, Render(at)).value.content
    ensures !LinksPlanned(dec, before, Render(at)) ==> Stat(after, Render(at)) == Stat(before, Render(at))
  {
    var remote, p := ManifestOf(hash, root, s, skip), Render(at);
    ExcludedOutside(hash, root, s, source, skip, before, ev.order, at);
    ManifestProperExactly(hash, root, s, source, skip);
    OutsideUntouched(hash, skip, limit, remote, before, ev, dec, after, r, p);
    PlanConserves(remote, ScanOf(before, skip, ev.order), dec.down, dec.del);
  }

  /** After a successful run of a good tree what is read at an excluded path has changed exactly when it leads to an
      object that the run stamped with another mode or time, or made appear. */
  lemma ExcludedChangesExactly(hash: Hash, root: Forest, s: seq<string>, source: Forest, skip: string -> bool,
                               limit: nat,
                               before: Disk, ev: Events, dec: Decision, after: Disk, at: seq<string>)
    requires ValidForest(root) && Below(root, s) == Some(source) && Names(at) && at != [] && skip(Render(at))
    requires GoodTree(hash, skip, source) && limit > 0 && Named(hash, before.objects)
    requires Succeeded(UpstreamOf(hash, root, s, skip), limit, before, ev, dec, after)
    ensures Stat(after, Render(at)) == Stat(before, Render(at)) <==> !Restamps(dec, before, Render(at))
  {
    ExcludedOutside(hash, root, s, source, skip, before, ev.order, at);
    TreeUpstream(hash, root, s, source, skip);
    OutsideChangesExactly(UpstreamOf(hash, root, s, skip), limit, before, ev, dec, after, Render(at));
  }

  /* ------------------------------------------------------------------ server and client together */

  lemma {:induction false} ByPathKeyed(es: seq<Entry>)
    ensures Keyed(ByPath(es))
  {
    if es != [] { ByPathKeyed(es[..|es| - 1]); }
  }

  /** All a caller has to see to for one synchronisation to mirror the tree. */
  ghost predicate Favourable(hash: Hash, root: Forest, s: seq<string>, source: Forest, skip: string -> bool,
                             before: Disk, ev: Events)
  {
    && ValidForest(root) && Below(root, s) == Some(source) && GoodTree(hash, skip, source) && DescendantClosed(skip)
    && Named(hash, before.objects) && QuickCheckSound(skip, source, before) && NoDangling(before, skip)
    && WalkOrder(before, ev.order) && before.target.Keys <= ev.removable && Cancel !in ev.choices
  }

  /** Whatever order the next scan walks in, its plan is empty. */
  ghost predicate NothingLeft(remote: map<string, Entry>, skip: string -> bool, d: Disk)
  {
    forall order, down, del :: WalkOrder(d, order) && IsPlan(remote, ScanOf(d, skip, order), down, del) ==>
        down == [] && del == []
  }

  /** A converging run makes the target a mirror of the tree, and every next plan empty. */
  lemma ConvergingMirrors(hash: Hash, root: Forest, s: seq<string>, source: Forest, skip: string -> bool, limit: nat,
                          before: Disk, ev: Events, dec: Decision, after: Disk)
    requires ValidForest(root) && Below(root, s) == Some(source) && GoodTree(hash, skip, source)
    requires Converging(UpstreamOf(hash, root, s, skip), limit, before, ev, dec, after)
    ensures TreeMirrored(skip, source, after)
    ensures NothingLeft(ManifestOf(hash, root, s, skip), skip, after)
  {
    var up := UpstreamOf(hash, root, s, skip);
    TreeUpstream(hash, root, s, source, skip);
    AgreeingUniform(up, limit, before, ev, dec);
    ContentConverges(up, limit, before, ev, dec, after);
    ConvergesExactly(up, limit, before, ev, dec, after);
    forall order, down, del | WalkOrder(after, order) && IsPlan(up.remote, ScanOf(after, skip, order), down, del)
      ensures down == [] && del == []
    {
      Converges(up, limit, before, ev, dec, after, order, down, del);
    }
    forall q | Offered(skip, source, q) ensures Stat(after, Render(q)) == Some(InfoAt(source, q)) {
      MirroredFile(hash, root, s, source, skip, after, q);
    }
    forall p | p in after.target && !Hidden(skip, p) ensures exists q :: Offered(skip, source, q) && Render(q) == p {
      assert p in FullScan(after, skip) by { assert !Stops(after, skip, p); }
      var q := ManifestFrom(hash, root, s, source, skip, p);
    }
  }

  /** So does every run that succeeds in favourable circumstances. */
  lemma AppliedMirrors(hash: Hash, root: Forest, s: seq<string>, source: Forest, skip: string -> bool, limit: nat,
                       before: Disk, ev: Events, dec: Decision, after: Disk, r: Result<Report, RunError>)
    requires Favourable(hash, root, s, source, skip, before, ev) && limit > 0
    requires Decides(hash, skip, limit, ManifestOf(hash, root, s, skip), before, ev, dec)
    requires Applied(Exec(dec.job, ev.choices), dec.del, ev, after, r) && r.Ok?
    ensures TreeMirrored(skip, source, after)
    ensures NothingLeft(ManifestOf(hash, root, s, skip), skip, after)
  {
    var up := UpstreamOf(hash, root, s, skip);
    UncancelledExec(dec.job, ev.choices);
    assert Succeeded(up, limit, before, ev, dec, after);
    assert AllRemoved(ev, dec) by {
      forall p | p in dec.del ensures p in ev.removable { assert p in before.target; }
    }
    TreeUpstream(hash, root, s, source, skip);
    QuickCheckKeeps(hash, root, s, source, skip, before, ev);
    ConvergingMirrors(hash, root, s, source, skip, limit, before, ev, dec, after);
  }

  /** A run for a source path that climbs finds nothing to download and plans to delete every file the scan found. */
  lemma ClimbingPlansDeletes(hash: Hash, root: Forest, sourcePath: string, skip: string -> bool, limit: nat, d: Disk,
                             ev: Events, dec: Decision)
    requires ValidForest(root) && Climbs(sourcePath)
    requires Decides(hash, skip, limit, ByPath(Listed(hash, root, sourcePath, skip)), d, ev, dec)
    ensures dec.down == [] && forall p :: p in dec.del <==> p in ScanOf(d, skip, ev.order)
  {
    assert dec.down != [] ==> dec.down[0] in dec.down;
    ListedExact(hash, root, sourcePath, skip);
  }

  lemma SuccessMirrors(hash: Hash, root: Forest, sourcePath: string, skip: string -> bool, limit: nat, before: Disk,
                       ev: Events, dec: Decision, after: Disk, run: Result<Report, RunError>)
    requires !Climbs(sourcePath) && limit > 0 && run.Ok?
    requires Decides(hash, skip, limit, ByPath(Listed(hash, root, sourcePath, skip)), before, ev, dec)
    requires Applied(Exec(dec.job, ev.choices), dec.del, ev, after, run)
    ensures forall source :: Favourable(hash, root, Components(sourcePath), source, skip, before, ev) ==>
                               TreeMirrored(skip, source, after)
  {
    SourcePrefixExact(sourcePath);
    forall source | Favourable(hash, root, Components(sourcePath), source, skip, before, ev)
      ensures TreeMirrored(skip, source, after)
    {
      AppliedMirrors(hash, root, Components(sourcePath), source, skip, limit, before, ev, dec, after, run);
    }
  }

  datatype SyncError = Refused | FetchFailed | RunFailed(error: RunError)

  function Answer(run: Result<Report, RunError>): Result<Report, SyncError>
  {
    match run
    case Ok(report) => Ok(report)
    case Err(e) => Err(RunFailed(e))
  }

  /** The handler and the pager let a synchronisation get to the run. */
  predicate Reaches(rootDir: string, root: Forest, sourcePath: string, requests: nat, served: nat -> bool)
  {
    Admitted(rootDir, root, sourcePath) && forall k | 0 <= k < requests :: served(k)
  }

  /** The index scans the tree, a session cuts its snapshot, the client pages it in and runs. Only a source path that is
      not admitted is refused, only a request that is not served makes the fetch fail, and otherwise the answer is that
      of the run on exactly this manifest. */
  method Synchronise(hash: Hash, root: Forest, index: ModuleIndex, client: Client, sourcePath: string, m: Matcher,
                     ex: Excluder, configured: nat, ask: nat -> Param, served: nat -> bool, cfg: Config, ev: Events)
      returns (r: Result<Report, SyncError>, ghost dec: Decision, ghost total: nat, ghost go: bool,
               ghost run: Result<Report, RunError>)
    requires configured > 0
    modifies index, client
    ensures r == Err(Refused) <==> !Admitted(index.rootDir, root, sourcePath)
    ensures var requests := Requests(|Listed(hash, root, sourcePath, Skip(m, ex))|, configured, ask, 0, 0);
            r == Err(Refused) || r == Err(FetchFailed) <==> !Reaches(index.rootDir, root, sourcePath, requests, served)
    ensures r == Err(Refused) || r == Err(FetchFailed) ==> client.disk == old(client.disk)
    ensures r == Err(Refused) || r == Err(FetchFailed) || r == Answer(run)
    ensures r == Answer(run) ==>
              Decides(hash, Skip(m, ex), Limit(cfg), ByPath(Listed(hash, root, sourcePath, Skip(m, ex))),
                      old(client.disk), ev, dec)
    ensures r == Answer(run) ==>
              total == |ScanOf(old(client.disk), Skip(m, ex), ev.order)| && go == GuardPasses(cfg, total, |dec.del|)
    ensures r == Answer(run) && !go ==> run == Err(GuardTripped) && client.disk == old(client.disk)
    ensures r == Answer(run) && go && cfg.dryRun ==> run == Ok(Report(0, 0, 0)) && client.disk == old(client.disk)
    ensures r == Answer(run) && go && !cfg.dryRun ==>
              Applied(Exec(dec.job, ev.choices), dec.del, ev, client.disk, run)
    ensures r.Ok? && !cfg.dryRun && !Climbs(sourcePath) ==>
              var s, skip, before := Components(sourcePath), Skip(m, ex), old(client.disk);
              forall source :: Favourable(hash, root, s, source, skip, before, ev) ==>
                                 TreeMirrored(skip, source, client.disk)
  {
    index.Rebuild(hash, Ok(root));
    if !Admitted(index.rootDir, root, sourcePath) {
      return Err(Refused), *, *, *, *;
    }
    var snap := index.BuildSnapshot("", sourcePath, m, ex);
    assert snap.value.entries == Listed(hash, root, sourcePath, Skip(m, ex));
    var manifest, requests, _ := FetchManifest(snap.value.entries, configured, ask, served);
    ghost var before := client.disk;
    if manifest.Err? {
      assert !served(manifest.error);
      return Err(FetchFailed), *, *, *, *;
    }
    ByPathKeyed(snap.value.entries);
    var result, plan, found, passed := client.Run(hash, Skip(m, ex), cfg, manifest.value, ev);
    dec, total, go, run := plan, found, passed, result;
    r := Answer(result);
    if result.Ok? && !cfg.dryRun && !Climbs(sourcePath) {
      SuccessMirrors(hash, root, sourcePath, Skip(m, ex), Limit(cfg), before, ev, dec, client.disk, result);
    }
  }
}
