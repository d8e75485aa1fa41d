/** The file system under the model of the disk: why planned paths have to stay out of the client's object store. */
module OwnStore {
  import opened Options
  import opened Manifest
  import opened FileTree
  import opened Store

  /** A file, or a symbolic link with the path below the target that it leads to. */
  datatype Inode = Bytes(info: FileInfo) | Symlink(to: string)

  type Files = map<string, Inode>

  const MAX_LINKS: nat := 40

  /** Reading a path follows at most so many links; a loop ends in an error. */
  function Read(files: Files, p: string, hops: nat): Option<FileInfo>
    decreases hops
  {
    if p !in files then None
    else match files[p]
      case Bytes(info) => Some(info)
      case Symlink(to) => if hops == 0 then None else Read(files, to, hops - 1)
  }

  function ObjectPath(c: string): string
  {
    OBJECTS + "/" + c
  }

  function ObjectPaths(objects: map<string, Obj>): set<string>
  {
    set c | c in objects :: ObjectPath(c)
  }

  const PARTS := OBJECTS + "/.staging/"
  const SUFFIX := ".part"

  function PartPath(e: string): string
  {
    PARTS + e + SUFFIX
  }

  function PartPaths(parts: map<string, Content>): set<string>
  {
    set e | e in parts :: PartPath(e)
  }

  function NameOf(p: string): string
  {
    if |p| > |OBJECTS| then p[|OBJECTS| + 1..] else ""
  }

  function PartNameOf(p: string): string
  {
    if |p| >= |PARTS| + |SUFFIX| then p[|PARTS|..|p| - |SUFFIX|] else ""
  }

  function PhysicalPaths(d: Disk): set<string>
  {
    d.target.Keys + ObjectPaths(d.objects) + PartPaths(d.parts)
  }

  function InodeAt(d: Disk, p: string): Inode
  {
    if p in d.target then
      match d.target[p]
      case Regular(content, mode, mtime) => Bytes(FileInfo(content, mode, mtime))
      case Link(c) => Symlink(ObjectPath(c))
    else if NameOf(p) in d.objects then Bytes(InfoOf(d.objects[NameOf(p)]))
    else if PartNameOf(p) in d.parts then Bytes(FileInfo(d.parts[PartNameOf(p)], NEW_FILE_MODE, 0))
    else Symlink(p)
  }

  /** The files the disk stands for: the target's paths, and the objects and part files in their directories. */
  function Physical(d: Disk): Files
  {
    map p | p in PhysicalPaths(d) :: InodeAt(d, p)
  }

  function InfoOf(o: Obj): FileInfo
  {
    FileInfo(o.content, o.mode, o.mtime)
  }

  /** Checksums are names of files. */
  predicate FlatNames(d: Disk)
  {
    (forall c | c in d.objects :: '/' !in c) && (forall e | e in d.parts :: '/' !in e)
  }

  lemma ObjectPathExact(c: string)
    ensures NameOf(ObjectPath(c)) == c && Own(ObjectPath(c))
  {
    assert ObjectPath(c)[..|OBJECTS| + 1] == OBJECTS + "/";
  }

  lemma PartPathExact(e: string)
    ensures PartNameOf(PartPath(e)) == e && Own(PartPath(e)) && '/' in NameOf(PartPath(e))
  {
    var p := PartPath(e);
    assert p[..|OBJECTS| + 1] == OBJECTS + "/";
    assert p[|OBJECTS| + 9] == '/' && NameOf(p)[8] == p[|OBJECTS| + 9];
  }

  lemma PhysicalObject(d: Disk, c: string)
    requires Apart(d) && FlatNames(d) && '/' !in c
    ensures ObjectPath(c) in Physical(d) <==> c in d.objects
    ensures c in d.objects ==> Physical(d)[ObjectPath(c)] == Bytes(InfoOf(d.objects[c]))
  {
    ObjectPathExact(c);
    if ObjectPath(c) in ObjectPaths(d.objects) {
      var e :| e in d.objects && ObjectPath(e) == ObjectPath(c);
      ObjectPathExact(e);
    }
    if ObjectPath(c) in PartPaths(d.parts) {
      var e :| e in d.parts && PartPath(e) == ObjectPath(c);
      PartPathExact(e);
    }
  }

  lemma PhysicalPart(d: Disk, e: string)
    requires Apart(d) && FlatNames(d)
    ensures PartPath(e) in Physical(d) <==> e in d.parts
    ensures e in d.parts ==> Physical(d)[PartPath(e)] == Bytes(FileInfo(d.parts[e], NEW_FILE_MODE, 0))
  {
    PartPathExact(e);
    forall c | c in d.objects ensures ObjectPath(c) != PartPath(e) {
      ObjectPathExact(c);
    }
    if PartPath(e) in PartPaths(d.parts) {
      var c :| c in d.parts && PartPath(c) == PartPath(e);
      PartPathExact(c);
    }
  }

  /** As long as they do not, the disk says what the file system says. */
  lemma StatIsRead(d: Disk, p: string)
    requires Apart(d) && FlatNames(d) && p in d.target
    requires d.target[p].Link? ==> '/' !in d.target[p].checksum
    ensures Read(Physical(d), p, MAX_LINKS) == Stat(d, p)
  {
    if d.target[p].Link? {
      PhysicalObject(d, d.target[p].checksum);
    }
  }

  lemma RelinkedInode(d: Disk, p: string, c: string, q: string)
    ensures InodeAt(Relinked(d, p, c), q) == if q == p then Symlink(ObjectPath(c)) else InodeAt(d, q)
  {
  }

  /** And relinking a path outside the own directories does to the files what it does to the disk. */
  lemma RelinkIsPhysical(d: Disk, p: string, c: string)
    requires Apart(d) && !Own(p)
    ensures Apart(Relinked(d, p, c)) && Physical(Relinked(d, p, c)) == Physical(d)[p := Symlink(ObjectPath(c))]
  {
    assert PhysicalPaths(Relinked(d, p, c)) == PhysicalPaths(d) + {p};
    forall q | q in PhysicalPaths(d) + {p}
      ensures Physical(Relinked(d, p, c))[q] == Physical(d)[p := Symlink(ObjectPath(c))][q]
    {
      RelinkedInode(d, p, c, q);
    }
  }

  /* ------------------------------------------------------------------ links inside the object store */

  lemma {:induction false} SelfLoop(files: Files, p: string, hops: nat)
    requires p in files && files[p] == Symlink(p)
    ensures Read(files, p, hops) == None
  {
    if hops > 0 { SelfLoop(files, p, hops - 1); }
  }

  /** Writing to a path, like reading it, follows links; a missing file is created. */
  function WriteTo(files: Files, p: string, info: FileInfo, hops: nat): Files
    decreases hops
  {
    if p in files && files[p].Symlink? then
      if hops == 0 then files else WriteTo(files, files[p].to, info, hops - 1)
    else files[p := Bytes(info)]
  }

  /** What downloads go on doing in the store: bytes are written to a part file; a part file that is read with the right
      checksum is renamed to the object; an object's mode and time are set. */
  datatype StoreOp = WritePart(e: string, now: FileInfo) | Commit(e: string) | Restamp(e: string, mode: nat, mtime: int)

  function Do(hash: Hash, files: Files, op: StoreOp): Files
  {
    match op
    case WritePart(e, now) => WriteTo(files, PartPath(e), now, MAX_LINKS)
    case Commit(e) =>
      var part := Read(files, PartPath(e), MAX_LINKS);
      if PartPath(e) in files && part.Some? && hash(part.value.content) == e
      then (files - {PartPath(e)})[ObjectPath(e) := files[PartPath(e)]] else files
    case Restamp(e, mode, mtime) =>
      match Read(files, ObjectPath(e), MAX_LINKS)
      case None => files
      case Some(info) => WriteTo(files, ObjectPath(e), info.(mode := mode, mtime := mtime), MAX_LINKS)
  }

  function DoAll(hash: Hash, files: Files, ops: seq<StoreOp>): Files
  {
    if ops == [] then files else Do(hash, DoAll(hash, files, ops[..|ops| - 1]), ops[|ops| - 1])
  }

  predicate FlatOps(ops: seq<StoreOp>)
  {
    forall i | 0 <= i < |ops| :: '/' !in ops[i].e
  }

  /** The object that was just fetched can be read, and whatever is read under a checksum has it. */
  ghost predicate StoreIntact(hash: Hash, files: Files, c: string)
  {
    && Read(files, ObjectPath(c), MAX_LINKS).Some?
    && forall e :: '/' !in e && Read(files, ObjectPath(e), MAX_LINKS).Some? ==>
                     hash(Read(files, ObjectPath(e), MAX_LINKS).value.content) == e
  }

  /** And that stays so, whatever downloads do afterwards. */
  ghost predicate StoreSurvives(hash: Hash, files: Files, c: string)
  {
    forall ops :: FlatOps(ops) ==> StoreIntact(hash, DoAll(hash, files, ops), c)
  }

  /** No object and no part file is a link, and the objects have their checksums. */
  ghost predicate Solid(hash: Hash, files: Files, c: string)
  {
    && (forall e :: '/' !in e && ObjectPath(e) in files ==>
          files[ObjectPath(e)].Bytes? && hash(files[ObjectPath(e)].info.content) == e)
    && (forall e :: '/' !in e && PartPath(e) in files ==> files[PartPath(e)].Bytes?)
    && ObjectPath(c) in files
  }

  lemma PathsDiffer(c: string, e: string)
    requires '/' !in c
    ensures ObjectPath(c) != PartPath(e)
    ensures c != e ==> ObjectPath(c) != ObjectPath(e) && PartPath(c) != PartPath(e)
  {
    ObjectPathExact(c);
    ObjectPathExact(e);
    PartPathExact(e);
    PartPathExact(c);
  }

  lemma SolidStep(hash: Hash, files: Files, c: string, op: StoreOp)
    requires Solid(hash, files, c) && '/' !in c && '/' !in op.e
    ensures Solid(hash, Do(hash, files, op), c)
  {
    var f := Do(hash, files, op);
    forall e | '/' !in e && ObjectPath(e) in f
      ensures f[ObjectPath(e)].Bytes? && hash(f[ObjectPath(e)].info.content) == e
    {
      PathsDiffer(e, op.e);
    }
    forall e | '/' !in e && PartPath(e) in f ensures f[PartPath(e)].Bytes? {
      PathsDiffer(e, op.e);
      PathsDiffer(op.e, e);
    }
    PathsDiffer(c, op.e);
  }

  lemma {:induction false} SolidSurvives(hash: Hash, files: Files, c: string, ops: seq<StoreOp>)
    requires Solid(hash, files, c) && '/' !in c && FlatOps(ops)
    ensures Solid(hash, DoAll(hash, files, ops), c)
  {
    if ops != [] {
      SolidSurvives(hash, files, c, ops[..|ops| - 1]);
      SolidStep(hash, DoAll(hash, files, ops[..|ops| - 1]), c, ops[|ops| - 1]);
    }
  }

  lemma PhysicalSolid(hash: Hash, d: Disk, p: string, c: string)
    requires Apart(d) && FlatNames(d) && Named(hash, d.objects) && c in d.objects
    requires forall e :: '/' !in e ==> p != ObjectPath(e) && p != PartPath(e)
    ensures Solid(hash, Physical(d)[p := Symlink(ObjectPath(c))], c)
  {
    var f := Physical(d)[p := Symlink(ObjectPath(c))];
    PhysicalObject(d, c);
    forall e | '/' !in e
      ensures ObjectPath(e) in f ==> f[ObjectPath(e)].Bytes? && hash(f[ObjectPath(e)].info.content) == e
      ensures PartPath(e) in f ==> f[PartPath(e)].Bytes?
    {
      PhysicalObject(d, e);
      PhysicalPart(d, e);
    }
  }

  /** A link at the path of an object breaks the store at once. */
  lemma ObjectLinkBreaks(hash: Hash, d: Disk, e: string, c: string)
    requires Apart(d) && FlatNames(d) && Named(hash, d.objects) && c in d.objects && '/' !in e
    ensures !StoreIntact(hash, Physical(d)[ObjectPath(e) := Symlink(ObjectPath(c))], c)
  {
    var p, f := ObjectPath(e), Physical(d)[ObjectPath(e) := Symlink(ObjectPath(c))];
    PhysicalObject(d, c);
    if e == c {
      SelfLoop(f, p, MAX_LINKS);
    } else {
      PathsDiffer(c, e);
      assert Read(f, p, MAX_LINKS) == Read(f, ObjectPath(c), MAX_LINKS - 1);
    }
  }

  /** One at the path of a part file breaks it with the next bytes that are written there: they end up in the object. */
  lemma PartLinkBreaks(hash: Hash, d: Disk, e: string, c: string, wrong: FileInfo)
    requires Apart(d) && FlatNames(d) && Named(hash, d.objects) && c in d.objects && '/' !in e
    requires hash(wrong.content) != c
    ensures var f := Physical(d)[PartPath(e) := Symlink(ObjectPath(c))];
            !StoreIntact(hash, Do(hash, f, WritePart(e, wrong)), c)
  {
    var f := Physical(d)[PartPath(e) := Symlink(ObjectPath(c))];
    PhysicalObject(d, c);
    PathsDiffer(c, e);
    assert WriteTo(f, PartPath(e), wrong, MAX_LINKS) == WriteTo(f, ObjectPath(c), wrong, MAX_LINKS - 1);
  }

  /** Making the link p -> object c leaves the store intact for good exactly when p is neither the path of an object
      nor that of a part file. */
  lemma StoreSurvivesExactly(hash: Hash, d: Disk, p: string, c: string, wrong: FileInfo)
    requires Apart(d) && FlatNames(d) && Named(hash, d.objects) && c in d.objects && hash(wrong.content) != c
    ensures StoreSurvives(hash, Physical(d)[p := Symlink(ObjectPath(c))], c) <==>
              forall e :: '/' !in e ==> p != ObjectPath(e) && p != PartPath(e)
  {
    var f := Physical(d)[p := Symlink(ObjectPath(c))];
    if e :| '/' !in e && (p == ObjectPath(e) || p == PartPath(e)) {
      if p == ObjectPath(e) {
        ObjectLinkBreaks(hash, d, e, c);
        assert FlatOps([]) && !StoreIntact(hash, DoAll(hash, f, []), c);
      } else {
        PartLinkBreaks(hash, d, e, c, wrong);
        var ops := [WritePart(e, wrong)];
        assert ops[..0] == [] && DoAll(hash, f, ops) == Do(hash, f, WritePart(e, wrong));
        assert FlatOps(ops) && !StoreIntact(hash, DoAll(hash, f, ops), c);
      }
    } else {
      PhysicalSolid(hash, d, p, c);
      forall ops | FlatOps(ops) ensures StoreIntact(hash, DoAll(hash, f, ops), c) {
        SolidSurvives(hash, f, c, ops);
      }
    }
  }

  /** The links of a whole group, one after the other. */
  function LinkedAll(files: Files, group: seq<Entry>, c: string): Files
  {
    if group == [] then files
    else LinkedAll(files, group[..|group| - 1], c)[group[|group| - 1].path := Symlink(ObjectPath(c))]
  }

  lemma {:induction false} LinkedAllAt(files: Files, group: seq<Entry>, c: string, p: string)
    ensures InGroup(group, p) ==>
              p in LinkedAll(files, group, c) && LinkedAll(files, group, c)[p] == Symlink(ObjectPath(c))
    ensures !InGroup(group, p) ==>
              (p in LinkedAll(files, group, c) <==>
                  p in files) && (p in files ==> LinkedAll(files, group, c)[p] == files[p])
  {
    if group != [] {
      InGroupSnoc(group, p);
      LinkedAllAt(files, group[..|group| - 1], c, p);
    }
  }

  /** The chmod and chtimes that end a promotion find the object exactly when its own path is not in the group. So a
      plan with that path under that checksum fails in every run, and the next run fetches the object only to lose it
      again. */
  lemma StampFindsObjectExactly(files: Files, group: seq<Entry>, c: string)
    requires ObjectPath(c) in files && files[ObjectPath(c)].Bytes?
    ensures Read(LinkedAll(files, group, c), ObjectPath(c), MAX_LINKS).Some? <==> !InGroup(group, ObjectPath(c))
  {
    LinkedAllAt(files, group, c, ObjectPath(c));
    if InGroup(group, ObjectPath(c)) {
      SelfLoop(LinkedAll(files, group, c), ObjectPath(c), MAX_LINKS);
    }
  }

  /** When the path of object e is to become a link to object c while e is being fetched, the order of the two
      decides what is read under e. */
  lemma OrderDecides(files: Files, e: string, fetched: FileInfo, c: string, other: FileInfo)
    requires e != c && ObjectPath(c) in files && files[ObjectPath(c)] == Bytes(other)
    ensures var p, link, bytes := ObjectPath(e), Symlink(ObjectPath(c)), Bytes(fetched);
            && Read(files[p := link][p := bytes], p, MAX_LINKS) == Some(fetched)
            && Read(files[p := bytes][p := link], p, MAX_LINKS) == Some(other)
  {
    ObjectPathExact(e);
    ObjectPathExact(c);
    var linked := files[ObjectPath(e) := Bytes(fetched)][ObjectPath(e) := Symlink(ObjectPath(c))];
    assert Read(linked, ObjectPath(e), MAX_LINKS) == Read(linked, ObjectPath(c), MAX_LINKS - 1);
  }
}
