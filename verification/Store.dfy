/** The client's disk: target tree, content-addressed objects, partial downloads; and the resumable, verified
    download. */
module Store {
  import opened Options
  import opened Paths
  import opened Manifest
  import opened FileTree

  datatype Obj = Obj(content: Content, mode: nat, mtime: int)

  /** A path of the target: a file of its own, or a symlink into the object store. */
  datatype Spot = Regular(content: Content, mode: nat, mtime: int) | Link(checksum: string)

  /** The files of the target by their paths below it, the objects and part files by checksum, and the directories of
      the target. The client's own two directories are not part of `target` and `dirs`. */
  datatype Disk = Disk(target: map<string, Spot>, objects: map<string, Obj>, parts: map<string, Content>,
    dirs: set<string>)

  const STAGING := ".sync-http-staging"
  const OBJECTS := ".sync-http-objects"

  /** In one of the client's own directories. */
  predicate Own(p: string)
  {
    p == STAGING || STAGING + "/" <= p || p == OBJECTS || OBJECTS + "/" <= p
  }

  /** The one spelling of a path below the target. */
  predicate Tidy(p: string)
  {
    Local(p) && Components(p) != [] && Render(Components(p)) == p
  }

  /** One outside the client's own directories. */
  predicate Proper(p: string)
  {
    Tidy(p) && !Own(p)
  }

  /** No file of the target is at or below one of the client's own directories. */
  predicate Apart(d: Disk)
  {
    forall p | p in d.target :: !Own(p)
  }

  lemma NamesProper(cs: seq<string>)
    requires Names(cs) && cs != [] && !Own(Render(cs))
    ensures Proper(Render(cs))
  {
    RenderNames(cs);
  }

  /** What the network and the process do to one download: no answer at all, or a status and the delivered
      bytes, after which the copy may break off or the process may stop before the rename. */
  datatype Fault = NoFault | CutBody | BeforeRename
  datatype Exchange = NoReply | Reply(status: int, body: Content, fault: Fault, stamp: int)

  /** os.Stat, which follows links; None when the path or the object it leads to is missing. */
  function Stat(d: Disk, p: string): Option<FileInfo>
  {
    if p !in d.target then None
    else match d.target[p]
      case Regular(content, mode, mtime) => Some(FileInfo(content, mode, mtime))
      case Link(c) =>
        if c in d.objects then Some(FileInfo(d.objects[c].content, d.objects[c].mode, d.objects[c].mtime)) else None
  }

  const PARTIAL_CONTENT := 206
  const NEW_FILE_MODE := 420

  predicate Cached(objects: map<string, Obj>, e: Entry)
  {
    e.checksum in objects && |objects[e.checksum].content| == e.size
  }

  function Part(d: Disk, checksum: string): Content
  {
    if checksum in d.parts then d.parts[checksum] else []
  }

  /** The bytes the part file is extended from: the resumed prefix, or nothing after a truncation. */
  function ResumeBase(part: Content, x: Exchange): Content
    requires x.Reply?
  {
    if |part| > 0 && x.status == PARTIAL_CONTENT then part else []
  }

  /** downloadObject as a function of the disk and the exchange. */
  function Fetch(hash: Hash, d: Disk, e: Entry, x: Exchange): (Disk, Option<nat>)
  {
    if Cached(d.objects, e) then (d, Some(0))
    else if x.NoReply? || x.status >= 300 then (d, None)
    else
      var base := ResumeBase(Part(d, e.checksum), x);
      var now := base + x.body;
      var kept := d.(parts := d.parts[e.checksum := now]);
      if x.fault != NoFault || hash(now) != e.checksum then (kept, None)
      else (d.(objects := d.objects[e.checksum := Obj(now, NEW_FILE_MODE, x.stamp)], parts := d.parts - {e.checksum}),
            Some(|x.body| + |base|))
  }

  /** Every object has the content it is named by. */
  ghost predicate Named(hash: Hash, objects: map<string, Obj>)
  {
    forall c :: c in objects ==> hash(objects[c].content) == c
  }

  class ObjectStore {
    var target: map<string, Spot>
    var objects: map<string, Obj>
    var parts: map<string, Content>
    var dirs: set<string>

    ghost function State(): Disk
      reads this
    {
      Disk(target, objects, parts, dirs)
    }

    constructor (d: Disk)
      ensures State() == d
    {
      target, objects, parts, dirs := d.target, d.objects, d.parts, d.dirs;
    }

    method DownloadObject(hash: Hash, e: Entry, x: Exchange) returns (r: Option<nat>)
      modifies this`objects, this`parts
      ensures (State(), r) == Fetch(hash, old(State()), e, x)
      ensures old(Named(hash, objects)) ==> Named(hash, objects)
    {
      if e.checksum in objects && |objects[e.checksum].content| == e.size {
        return Some(0);
      }
      var offset := 0;
      if e.checksum in parts {
        offset := |parts[e.checksum]|;
      }
      if x.NoReply? || x.status >= 300 {
        return None;
      }
      if !(offset > 0 && x.status == PARTIAL_CONTENT) {
        parts := parts[e.checksum := []];
        offset := 0;
      }
      var written := |x.body|;
      parts := parts[e.checksum := (if e.checksum in parts then parts[e.checksum] else []) + x.body];
      assert parts == old(parts)[e.checksum := ResumeBase(old(Part(State(), e.checksum)), x) + x.body];
      if x.fault == CutBody || hash(parts[e.checksum]) != e.checksum || x.fault == BeforeRename {
        return None;
      }
      objects := objects[e.checksum := Obj(parts[e.checksum], NEW_FILE_MODE, x.stamp)];
      parts := parts - {e.checksum};
      assert parts == old(parts) - {e.checksum};
      return Some(written + offset);
    }

    /** One turn of promoteObjectToEntries' loop: make the directories, remove what is there, link. */
    method Relink(path: string, checksum: string, io: RelinkFault) returns (ok: bool)
      modifies this`target, this`dirs
      ensures ok <==> CanPlace(old(State()), path) && io == NoRelinkFault
      ensures ok ==> State() == Relinked(old(State()), path, checksum)
      ensures !ok ==> State() == GivenUp(old(State()), path, io)
    {
      var depth := if io.MkdirFails? then io.depth else |path|;
      ghost var before := State();
      MakingKeepsPlace(before, path, depth);
      dirs := dirs + Makeable(target, path, depth);
      if !CanPlace(Disk(target, objects, parts, dirs), path) || io.MkdirFails? || io.RemoveFails? {
        assert State() == Attempted(before, path, depth, false);
        return false;
      }
      AllMakeable(before, path);
      target, dirs := target - {path}, dirs - {path};
      if io.LinkFails? {
        assert State() == Attempted(before, path, depth, true);
        return false;
      }
      target := target[path := Link(checksum)];
      return true;
    }

    /** The whole loop. */
    method RelinkAll(checksum: string, group: seq<Entry>, io: PromoteFault) returns (ok: bool)
      modifies this`target, this`dirs
      ensures ok <==> SmoothUpTo(old(State()), group, checksum, io, |group|)
      ensures ok ==> State() == Placed(old(State()), group, checksum)
      ensures !ok ==> exists k | 0 <= k < |group| ::
                SmoothUpTo(old(State()), group, checksum, io, k)
                && FailedAt(old(State()), group, checksum, io, k, State())
    {
      assert group[..0] == [];
      ghost var start := State();
      for i := 0 to |group|
        invariant State() == Placed(start, group[..i], checksum) && SmoothUpTo(start, group, checksum, io, i)
      {
        assert group[..i + 1][..i] == group[..i];
        ghost var before := State();
        var linked := Relink(group[i].path, checksum, FaultAt(io, i));
        if !linked {
          assert FailedAt(start, group, checksum, io, i, State());
          assert !SmoothAt(start, group, checksum, io, i);
          return false;
        }
        assert SmoothAt(start, group, checksum, io, i);
      }
      assert group[..|group|] == group;
      return true;
    }

    /** promoteObjectToEntries: relink every path of the group, then stamp the shared object with the first entry's
        mode and time. A failing step leaves what was done before it. */
    method PromoteObject(checksum: string, group: seq<Entry>, io: PromoteFault) returns (ok: bool)
      requires checksum in objects
      modifies this`objects, this`target, this`dirs
      ensures ok <==>
                (SmoothUpTo(old(State()), group, checksum, io, |group|)
                 && !(group != [] && (io.ChmodFails? || io.ChtimesFails?)))
      ensures ok ==> State() == Promoted(old(State()), group, checksum)
      ensures !ok ==> PartlyPromoted(old(State()), group, checksum, io, State())
    {
      PlacedExact(State(), group, checksum);
      var linked := RelinkAll(checksum, group, io);
      if !linked {
        return false;
      }
      if group == [] {
        return true;
      }
      if io.ChmodFails? {
        return false;
      }
      objects := objects[checksum := objects[checksum].(mode := group[0].mode)];
      if io.ChtimesFails? {
        return false;
      }
      objects := objects[checksum := objects[checksum].(mtime := group[0].mtime)];
      return true;
    }
  }

  datatype RelinkFault = NoRelinkFault | MkdirFails(depth: nat) | RemoveFails | LinkFails

  datatype PromoteFault = NoPromoteFault | RelinkFails(i: nat, fault: RelinkFault) | ChmodFails | ChtimesFails

  function FaultAt(io: PromoteFault, i: nat): RelinkFault
  {
    if io.RelinkFails? && io.i == i then io.fault else NoRelinkFault
  }

  /* ------------------------------------------------------------------ one relinking */

  /** The directories above a path. */
  function Ancestors(path: string): set<string>
  {
    set i | 0 < i < |path| && path[i] == '/' :: path[..i]
  }

  lemma AncestorExact(a: string, path: string)
    ensures a in Ancestors(path) <==> a != "" && a + "/" <= path
  {
    if a in Ancestors(path) {
      var i :| 0 < i < |path| && path[i] == '/' && a == path[..i];
      assert path[..i + 1] == a + "/";
    }
    if a != "" && a + "/" <= path {
      assert path[|a|] == (a + "/")[|a|] && path[..|a|] == a;
    }
  }

  /** The directories os.MkdirAll makes on the way to a path, up to a depth, before a file is in its way. */
  function Makeable(target: map<string, Spot>, path: string, depth: nat): set<string>
  {
    set a | a in Ancestors(path) && |a| <= depth && forall p | p in target :: p != a && !(p + "/" <= a)
  }

  /** A link can be made at `path`: nothing above it is a file, and neither a file nor a directory lies below it. */
  predicate CanPlace(d: Disk, path: string)
  {
    && (forall p | p in d.target :: !(p + "/" <= path) && !(path + "/" <= p))
    && (forall a | a in d.dirs :: !(path + "/" <= a))
  }

  /** The path, a file, an empty directory or nothing before, has become a link to the object. */
  function Relinked(d: Disk, path: string, checksum: string): Disk
  {
    d.(target := d.target[path := Link(checksum)], dirs := d.dirs - {path} + Ancestors(path))
  }

  /** What a failed relinking leaves: some directories made, or all of them and the path gone. */
  function Attempted(d: Disk, path: string, depth: nat, removed: bool): Disk
  {
    if removed then d.(target := d.target - {path}, dirs := d.dirs - {path} + Ancestors(path))
    else d.(dirs := d.dirs + Makeable(d.target, path, depth))
  }

  /** That is, by the way it failed: a link that cannot be made leaves the path gone, everything else leaves it. */
  function GivenUp(d: Disk, path: string, io: RelinkFault): Disk
  {
    Attempted(d, path, if io.MkdirFails? then io.depth else |path|, io.LinkFails? && CanPlace(d, path))
  }

  lemma MakingKeepsPlace(d: Disk, path: string, depth: nat)
    ensures CanPlace(d.(dirs := d.dirs + Makeable(d.target, path, depth)), path) <==> CanPlace(d, path)
  {
  }

  lemma AllMakeable(d: Disk, path: string)
    requires CanPlace(d, path)
    ensures Makeable(d.target, path, |path|) == Ancestors(path) && path !in Ancestors(path)
  {
    forall a | a in Ancestors(path) ensures a in Makeable(d.target, path, |path|) {
      AncestorExact(a, path);
    }
  }

  /** The disk after the links of a group have been made. */
  function Placed(d: Disk, group: seq<Entry>, checksum: string): Disk
  {
    if group == [] then d
    else Relinked(Placed(d, group[..|group| - 1], checksum), group[|group| - 1].path, checksum)
  }

  predicate SmoothAt(d: Disk, group: seq<Entry>, checksum: string, io: PromoteFault, i: nat)
    requires i < |group|
  {
    CanPlace(Placed(d, group[..i], checksum), group[i].path) && FaultAt(io, i) == NoRelinkFault
  }

  /** Each of the first n paths can be placed once those before it are, and nothing fails there. */
  predicate SmoothUpTo(d: Disk, group: seq<Entry>, checksum: string, io: PromoteFault, n: nat)
    requires n <= |group|
  {
    forall i | 0 <= i < n :: SmoothAt(d, group, checksum, io, i)
  }

  function Promoted(d: Disk, group: seq<Entry>, checksum: string): Disk
    requires checksum in d.objects
  {
    if group == [] then d
    else Placed(d, group, checksum).(objects := d.objects[checksum := Stamped(d.objects[checksum], group[0])])
  }

  /** The relinking stopped at entry k. */
  predicate FailedAt(d: Disk, group: seq<Entry>, checksum: string, io: PromoteFault, k: nat, e: Disk)
  {
    && k < |group| && !SmoothAt(d, group, checksum, io, k)
    && e == GivenUp(Placed(d, group[..k], checksum), group[k].path, FaultAt(io, k))
  }

  /** A promotion that stopped at the first entry that gave trouble, or at one of the two stamps. */
  ghost predicate PartlyPromoted(d: Disk, group: seq<Entry>, checksum: string, io: PromoteFault, e: Disk)
    requires checksum in d.objects
  {
    if SmoothUpTo(d, group, checksum, io, |group|) then
      group != []
      && var linked := Placed(d, group, checksum);
         e == if io.ChmodFails? then linked
              else linked.(objects := d.objects[checksum := d.objects[checksum].(mode := group[0].mode)])
    else exists k | 0 <= k < |group| :: SmoothUpTo(d, group, checksum, io, k) && FailedAt(d, group, checksum, io, k, e)
  }

  function Stamped(o: Obj, e: Entry): Obj
  {
    o.(mode := e.mode, mtime := e.mtime)
  }

  /* ------------------------------------------------------------------ integrity and resumption */

  /** Whatever the server sends, only verified content is stored, and nothing else changes. */
  lemma FetchKeepsNamed(hash: Hash, d: Disk, e: Entry, x: Exchange)
    requires Named(hash, d.objects)
    ensures var (d1, r) := Fetch(hash, d, e, x);
            && Named(hash, d1.objects) && d1.target == d.target && d1.dirs == d.dirs
            && (forall c :: c != e.checksum ==>
                  (c in d1.objects <==> c in d.objects) && (c in d1.parts <==> c in d.parts)
                  && (c in d.objects ==> d1.objects[c] == d.objects[c]) && (c in d.parts ==> d1.parts[c] == d.parts[c]))
            && (r.Some? ==> e.checksum in d1.objects)
            && (r.Some? ==> if Cached(d.objects, e) then r.value == 0 && d1 == d
                  else r.value == |d1.objects[e.checksum].content|)
            && (r.None? ==> d1.objects == d.objects)
  {
  }

  /** net/http's ServeContent, sections 14.2, 15.3.7 and 15.5.17 of RFC 9110: a range that starts inside the content
      is answered with 206, one that starts at or after its end with 416; an empty file is always sent whole. */
  function Serve(content: Content, offset: nat): (int, Content)
  {
    if offset == 0 || content == [] then (200, content)
    else if offset < |content| then (PARTIAL_CONTENT, content[offset..])
    else (416, [])
  }

  /** The server answers for `content`; the transfer may break off anywhere. */
  predicate Honest(content: Content, offset: nat, x: Exchange)
  {
    x.NoReply? ||
      var (status, body) := Serve(content, offset);
      x.status == status && x.body <= body && (x.fault == CutBody || x.body == body)
  }

  ghost predicate CollisionFree(hash: Hash, content: Content)
  {
    forall other :: hash(other) == hash(content) ==> other == content
  }

  predicate ObjectEntry(hash: Hash, e: Entry, content: Content)
  {
    e.checksum == hash(content) && e.size == |content|
  }

  /** An uninterrupted attempt succeeds exactly when there is nothing to resume or a strict prefix of the content,
      or the content is empty; it then stores exactly the content and reports its full size. */
  lemma ResumeExact(hash: Hash, d: Disk, e: Entry, content: Content, x: Exchange)
    requires ObjectEntry(hash, e, content) && CollisionFree(hash, content) && !Cached(d.objects, e)
    requires x.Reply? && x.fault == NoFault && Honest(content, |Part(d, e.checksum)|, x)
    ensures var (d1, r) := Fetch(hash, d, e, x);
            && (r.Some? <==> content == [] || Part(d, e.checksum) < content)
            && (r.Some? ==> r.value == |content| && e.checksum !in d1.parts)
            && (r.Some? ==> d1.objects == d.objects[e.checksum := Obj(content, NEW_FILE_MODE, x.stamp)])
  {
    var part := Part(d, e.checksum);
    assert (part + x.body)[..|part|] == part;
    assert [] + x.body == x.body;
    if part < content {
      assert part + content[|part|..] == content;
    }
  }

  function Attempts(hash: Hash, d: Disk, e: Entry, xs: seq<Exchange>): Disk
  {
    if xs == [] then d else Fetch(hash, Attempts(hash, d, e, xs[..|xs| - 1]), e, xs[|xs| - 1]).0
  }

  ghost predicate AllHonest(hash: Hash, d: Disk, e: Entry, content: Content, xs: seq<Exchange>)
  {
    forall i | 0 <= i < |xs| :: Honest(content, |Part(Attempts(hash, d, e, xs[..i]), e.checksum)|, xs[i])
  }

  /** Over any sequence of attempts, interrupted or crashed anywhere, the part file stays a prefix of the content,
      and an object that appears is exactly the content. */
  lemma {:induction false} PartStaysPrefix(hash: Hash, d: Disk, e: Entry, content: Content, xs: seq<Exchange>)
    requires ObjectEntry(hash, e, content) && CollisionFree(hash, content) && AllHonest(hash, d, e, content, xs)
    requires Part(d, e.checksum) <= content && Named(hash, d.objects)
    ensures var end := Attempts(hash, d, e, xs);
            && Part(end, e.checksum) <= content && Named(hash, end.objects)
            && (e.checksum in end.objects ==> end.objects[e.checksum].content == content)
  {
    if xs != [] {
      var init, x := xs[..|xs| - 1], xs[|xs| - 1];
      forall i | 0 <= i < |init| ensures Honest(content, |Part(Attempts(hash, d, e, init[..i]), e.checksum)|, init[i]) {
        assert xs[..i] == init[..i] && xs[i] == init[i];
      }
      PartStaysPrefix(hash, d, e, content, init);
      assert xs[..|xs| - 1] == init;
      StepKeepsPrefix(hash, Attempts(hash, d, e, init), e, content, x);
    }
  }

  lemma StepKeepsPrefix(hash: Hash, d: Disk, e: Entry, content: Content, x: Exchange)
    requires ObjectEntry(hash, e, content) && CollisionFree(hash, content)
    requires Part(d, e.checksum) <= content && Named(hash, d.objects) && Honest(content, |Part(d, e.checksum)|, x)
    ensures var d1 := Fetch(hash, d, e, x).0;
            && Part(d1, e.checksum) <= content && Named(hash, d1.objects)
            && (e.checksum in d1.objects ==> d1.objects[e.checksum].content == content)
  {
    var part := Part(d, e.checksum);
    FetchKeepsNamed(hash, d, e, x);
    if x.Reply? && x.status < 300 {
      var base := ResumeBase(part, x);
      assert base + x.body <= content by {
        if base != [] {
          assert x.body <= content[|part|..];
          assert content == part + content[|part|..];
        } else {
          assert [] + x.body == x.body;
        }
      }
    }
  }

  /** A part at least as long as a non-empty content is never repaired: every honest attempt is refused and changes
      nothing. */
  lemma {:induction false} FullPartIsStuck(hash: Hash, d: Disk, e: Entry, content: Content, xs: seq<Exchange>)
    requires !Cached(d.objects, e) && content != [] && |Part(d, e.checksum)| >= |content|
    requires AllHonest(hash, d, e, content, xs)
    ensures Attempts(hash, d, e, xs) == d
  {
    if xs != [] {
      var init := xs[..|xs| - 1];
      forall i | 0 <= i < |init| ensures Honest(content, |Part(Attempts(hash, d, e, init[..i]), e.checksum)|, init[i]) {
        assert xs[..i] == init[..i] && xs[i] == init[i];
      }
      FullPartIsStuck(hash, d, e, content, init);
      assert xs[..|xs| - 1] == init;
    }
  }

  /** A crash between the last byte and the rename leaves such a part, even from an honest server and a fresh start. */
  lemma CrashBeforeRenameSticks(hash: Hash, d: Disk, e: Entry, content: Content, xs: seq<Exchange>)
    requires ObjectEntry(hash, e, content) && !Cached(d.objects, e) && content != [] && e.checksum !in d.parts
    requires var crashed := Fetch(hash, d, e, Reply(200, content, BeforeRename, 0)).0;
             AllHonest(hash, crashed, e, content, xs)
    ensures Honest(content, 0, Reply(200, content, BeforeRename, 0))
    ensures var crashed := Fetch(hash, d, e, Reply(200, content, BeforeRename, 0)).0;
            Attempts(hash, crashed, e, xs) == crashed && !Cached(crashed.objects, e)
  {
    var crashed := Fetch(hash, d, e, Reply(200, content, BeforeRename, 0)).0;
    assert [] + content == content;
    FullPartIsStuck(hash, crashed, e, content, xs);
  }

  predicate InGroup(group: seq<Entry>, p: string)
  {
    exists i | 0 <= i < |group| :: group[i].path == p
  }

  lemma InGroupSnoc(group: seq<Entry>, p: string)
    requires group != []
    ensures InGroup(group, p) <==> InGroup(group[..|group| - 1], p) || group[|group| - 1].path == p
  {
    var init := group[..|group| - 1];
    if i :| 0 <= i < |group| && group[i].path == p {
      if i < |init| { assert init[i] == group[i]; }
    }
    if i :| 0 <= i < |init| && init[i].path == p {
      assert group[i] == init[i];
    }
  }

  /** Promotion turns exactly the group's paths into links and touches nothing else. */
  lemma {:induction false} PlacedExact(d: Disk, group: seq<Entry>, checksum: string)
    ensures var t := Placed(d, group, checksum);
            && t.objects == d.objects && t.parts == d.parts
            && (forall p :: p in t.target <==> p in d.target || InGroup(group, p))
            && (forall p :: p in t.target ==> t.target[p] == if InGroup(group, p) then Link(checksum) else d.target[p])
  {
    if group != [] {
      PlacedExact(d, group[..|group| - 1], checksum);
      var t := Placed(d, group, checksum);
      forall p | p in t.target || p in d.target || InGroup(group, p)
        ensures p in t.target <==> p in d.target || InGroup(group, p)
        ensures t.target[p] == if InGroup(group, p) then Link(checksum) else d.target[p]
      {
        InGroupSnoc(group, p);
      }
    }
  }
}
