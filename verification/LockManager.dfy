/** The lock manager: a memory table and a directory of lock files, both with expiry. */
module LockManager {
  import opened Options
  import opened Text
  import opened Overlap

  datatype Record = Record(path: string, owner: string, expiresAt: int)

  datatype DirEntry = Folder | Unreadable | File(text: string)

  /** RFC 3339 section 5.6 timestamps, as a pair of functions over instants. */
  datatype TimeCodec = TimeCodec(format: int -> string, parse: string -> Option<int>)

  /** What the codec owes the lock file: it round-trips, and its text is not split or trimmed. */
  ghost predicate GoodCodec(codec: TimeCodec)
  {
    forall t :: codec.parse(codec.format(t)) == Some(t) && '|' !in codec.format(t)
  }

  datatype Parsed = Bad | Parsed(owner: string, expiresAt: int, path: string)

  function ParseLock(codec: TimeCodec, e: DirEntry): Parsed
  {
    if !e.File? then Bad
    else
      var parts := Split(TrimSpace(e.text), '|');
      if |parts| != 3 then Bad
      else match codec.parse(parts[1])
        case None => Bad
        case Some(exp) => Parsed(parts[0], exp, CleanPath(parts[2]))
  }

  function LockText(codec: TimeCodec, owner: string, exp: int, path: string): string
  {
    owner + "|" + codec.format(exp) + "|" + path
  }

  predicate IsLockFile(name: string, e: DirEntry)
  {
    !e.Folder? && |name| >= 5 && name[|name| - 5..] == ".lock"
  }

  /** Lock files that a scan at `now` deletes: malformed or expired. */
  predicate Dead(codec: TimeCodec, name: string, e: DirEntry, now: int)
  {
    IsLockFile(name, e) && match ParseLock(codec, e)
      case Bad => true
      case Parsed(_, exp, _) => exp < now
  }

  predicate FileHolds(codec: TimeCodec, name: string, e: DirEntry, path: string, now: int)
  {
    IsLockFile(name, e) && match ParseLock(codec, e)
      case Bad => false
      case Parsed(_, exp, held) => now <= exp && Overlaps(path, held)
  }

  predicate RecordHolds(rec: Record, path: string, now: int)
  {
    now <= rec.expiresAt && Overlaps(path, rec.path)
  }

  datatype LockState = LockState(mem: map<string, Record>, files: map<string, DirEntry>)

  /** What one call finds outside the manager: the clock, whether the directory can be listed,
      which files cannot be removed, and how writing the lock file ends. */
  datatype Env = Env(now: int, readable: bool, stuck: set<string>, write: WriteEnd)
  datatype WriteEnd = WriteOk | WriteError(left: Option<DirEntry>)

  datatype Outcome = Granted | Locked(owner: string) | Failed

  ghost predicate HeldBy(codec: TimeCodec, st: LockState, readable: bool, path: string, now: int, owner: string)
  {
    || (exists p :: p in st.mem && RecordHolds(st.mem[p], path, now) && st.mem[p].owner == owner)
    || (readable && exists n :: n in st.files && FileHolds(codec, n, st.files[n], path, now)
                                && ParseLock(codec, st.files[n]).owner == owner)
  }

  ghost predicate Blocked(codec: TimeCodec, st: LockState, readable: bool, path: string, now: int)
  {
    || (exists p :: p in st.mem && RecordHolds(st.mem[p], path, now))
    || (readable && exists n :: n in st.files && FileHolds(codec, n, st.files[n], path, now))
  }

  function LiveMem(mem: map<string, Record>, now: int): map<string, Record>
  {
    map p | p in mem && now <= mem[p].expiresAt :: mem[p]
  }

  function SweptFiles(codec: TimeCodec, files: map<string, DirEntry>, env: Env): map<string, DirEntry>
  {
    if !env.readable then files
    else map n | n in files && (!Dead(codec, n, files[n], env.now) || n in env.stuck) :: files[n]
  }

  /** `m1` is `m0` without some of its expired records. */
  ghost predicate PurgedMem(m0: map<string, Record>, m1: map<string, Record>, now: int)
  {
    && (forall p :: p in m1 ==> p in m0 && m1[p] == m0[p])
    && (forall p :: p in m0 && p !in m1 ==> m0[p].expiresAt < now)
  }

  ghost predicate PurgedFiles(codec: TimeCodec, f0: map<string, DirEntry>, f1: map<string, DirEntry>, now: int)
  {
    && (forall n :: n in f1 ==> n in f0 && f1[n] == f0[n])
    && (forall n :: n in f0 && n !in f1 ==> Dead(codec, n, f0[n], now))
  }

  ghost predicate Purged(codec: TimeCodec, s0: LockState, s1: LockState, now: int)
  {
    PurgedMem(s0.mem, s1.mem, now) && PurgedFiles(codec, s0.files, s1.files, now)
  }

  predicate WriteSucceeds(files: map<string, DirEntry>, name: string, env: Env)
  {
    env.write.WriteOk? && !(name in files && files[name].Folder?)
  }

  function AfterWriteError(files: map<string, DirEntry>, name: string, env: Env): map<string, DirEntry>
  {
    if env.write.WriteOk? then files
    else match env.write.left
      case None => files - {name}
      case Some(e) => files[name := e]
  }

  ghost predicate AcquireStep(codec: TimeCodec, s0: LockState, env: Env, path: string, owner: string, exp: int,
                              s1: LockState, r: Outcome)
  {
    var swept := SweptFiles(codec, s0.files, env);
    var name := LockName(path);
    match r
    case Locked(holder) =>
      HeldBy(codec, s0, env.readable, path, env.now, holder) && Purged(codec, s0, s1, env.now)
    case Granted =>
      && !Blocked(codec, s0, env.readable, path, env.now)
      && WriteSucceeds(swept, name, env)
      && s1.mem == LiveMem(s0.mem, env.now)[path := Record(path, owner, exp)]
      && s1.files == swept[name := File(LockText(codec, owner, exp, path))]
    case Failed =>
      && !Blocked(codec, s0, env.readable, path, env.now)
      && !WriteSucceeds(swept, name, env)
      && s1.mem == LiveMem(s0.mem, env.now)
      && s1.files == AfterWriteError(swept, name, env)
  }

  ghost predicate ProbeStep(codec: TimeCodec, s0: LockState, env: Env, path: string, s1: LockState, locked: bool,
                            owner: string)
  {
    && Purged(codec, s0, s1, env.now)
    && (if locked then HeldBy(codec, s0, env.readable, path, env.now, owner)
        else owner == "" && !Blocked(codec, s0, env.readable, path, env.now))
  }

  function AfterRelease(s: LockState, path: string, owner: string, stuck: set<string>): LockState
  {
    LockState(
      if path in s.mem && (owner == "" || s.mem[path].owner == owner) then s.mem - {path} else s.mem,
      if LockName(path) in stuck then s.files else s.files - {LockName(path)})
  }

  /** Every record sits under its own clean path, and no two records overlap. */
  ghost predicate Exclusive(mem: map<string, Record>)
  {
    && (forall p :: p in mem ==> mem[p].path == p && CleanPath(p) == p)
    && (forall p, q :: p in mem && q in mem && p != q ==> !Overlaps(p, q))
  }

  lemma StillExclusive(mem: map<string, Record>, path: string, rec: Record)
    requires Exclusive(mem) && rec.path == path == CleanPath(path)
    requires forall p :: p in mem ==> !Overlaps(path, p)
    ensures Exclusive(mem[path := rec])
  {
    forall p | p in mem ensures !Overlaps(p, path) {
      OverlapsReflexiveSymmetric(p, path);
    }
  }

  class Manager {
    const codec: TimeCodec
    var mem: map<string, Record>
    var files: map<string, DirEntry>

    ghost function State(): LockState
      reads this
    {
      LockState(mem, files)
    }

    ghost predicate Valid()
      reads this
    {
      Exclusive(mem)
    }

    constructor (codec: TimeCodec, files: map<string, DirEntry>)
      ensures Valid() && this.codec == codec && mem == map[] && this.files == files
    {
      this.codec := codec;
      this.mem := map[];
      this.files := files;
    }

    method PurgeMem(path: string, now: int) returns (held: Option<string>)
      modifies this`mem
      ensures PurgedMem(old(mem), mem, now)
      ensures held.Some? ==>
                exists p :: p in old(mem) && RecordHolds(old(mem)[p], path, now) && old(mem)[p].owner == held.value
      ensures held.None? ==> mem == LiveMem(old(mem), now)
      ensures held.None? ==> forall p :: p in mem ==> !Overlaps(path, mem[p].path)
    {
      var rest := mem.Keys;
      while rest != {}
        invariant rest <= mem.Keys
        invariant PurgedMem(old(mem), mem, now)
        invariant forall p :: p in mem && p !in rest ==> now <= mem[p].expiresAt && !Overlaps(path, mem[p].path)
        decreases |rest|
      {
        var p :| p in rest;
        rest := rest - {p};
        if mem[p].expiresAt < now {
          mem := mem - {p};
        } else if Overlaps(path, mem[p].path) {
          return Some(mem[p].owner);
        }
      }
      return None;
    }

    method SweepFiles(path: string, env: Env) returns (held: Option<string>)
      modifies this`files
      ensures PurgedFiles(codec, old(files), files, env.now)
      ensures held.Some? ==> env.readable
      ensures held.Some? ==> exists n :: n in old(files) && FileHolds(codec, n, old(files)[n], path, env.now)
                                         && ParseLock(codec, old(files)[n]).owner == held.value
      ensures held.None? ==> files == SweptFiles(codec, old(files), env)
      ensures held.None? && env.readable ==>
                forall n :: n in old(files) ==> !FileHolds(codec, n, old(files)[n], path, env.now)
    {
      if !env.readable {
        return None;
      }
      var rest := files.Keys;
      while rest != {}
        invariant rest <= files.Keys <= old(files).Keys
        invariant forall n :: n in files ==> files[n] == old(files)[n]
        invariant forall n :: n in old(files) && n !in files ==>
                    Dead(codec, n, old(files)[n], env.now) && n !in env.stuck
        invariant forall n :: n in files && n !in rest ==> !Dead(codec, n, files[n], env.now) || n in env.stuck
        invariant forall n :: n in old(files) && n !in rest ==> !FileHolds(codec, n, old(files)[n], path, env.now)
        decreases |rest|
      {
        var n :| n in rest;
        rest := rest - {n};
        var e := files[n];
        if IsLockFile(n, e) {
          var lock := ParseLock(codec, e);
          if lock.Bad? || lock.expiresAt < env.now {
            if n !in env.stuck {
              files := files - {n};
            }
          } else if Overlaps(path, lock.path) {
            return Some(lock.owner);
          }
        }
      }
      return None;
    }

    /** Records the lock in memory, then on disk; a failed write takes the record back. */
    method Store(path: string, owner: string, exp: int, env: Env) returns (ok: bool)
      requires path !in mem
      modifies this
      ensures ok == WriteSucceeds(old(files), LockName(path), env)
      ensures ok ==> mem == old(mem)[path := Record(path, owner, exp)]
                     && files == old(files)[LockName(path) := File(LockText(codec, owner, exp, path))]
      ensures !ok ==> mem == old(mem)
      ensures !ok ==> files == AfterWriteError(old(files), LockName(path), env)
    {
      mem := mem[path := Record(path, owner, exp)];
      var name := LockName(path);
      if name in files && files[name].Folder? && env.write.WriteOk? {
        mem := mem - {path};
        return false;
      }
      match env.write {
        case WriteOk =>
          files := files[name := File(LockText(codec, owner, exp, path))];
          return true;
        case WriteError(left) =>
          files := if left.Some? then files[name := left.value] else files - {name};
          mem := mem - {path};
          return false;
      }
    }

    /** The check that TryAcquire and IsLocked share: memory first, then the lock files. */
    method FindHolder(path: string, env: Env) returns (held: Option<string>)
      requires Valid()
      modifies this
      ensures Valid()
      ensures held.Some? ==> HeldBy(codec, old(State()), env.readable, path, env.now, held.value)
                             && Purged(codec, old(State()), State(), env.now)
      ensures held.None? ==> !Blocked(codec, old(State()), env.readable, path, env.now)
                             && mem == LiveMem(old(mem), env.now) && files == SweptFiles(codec, old(files), env)
                             && forall p :: p in mem ==> !Overlaps(path, p)
    {
      held := PurgeMem(path, env.now);
      if held.None? {
        held := SweepFiles(path, env);
      }
    }

    method TryAcquire(path0: string, owner: string, ttl: int, env: Env) returns (r: Outcome)
      requires Valid()
      modifies this
      ensures Valid()
      ensures AcquireStep(codec, old(State()), env, CleanPath(path0), owner, env.now + ttl, State(), r)
    {
      var path := CleanPath(path0);
      var held := FindHolder(path, env);
      if held.Some? {
        return Locked(held.value);
      }
      CleanPathIsClean(path0);
      OverlapsReflexiveSymmetric(path, path);
      StillExclusive(mem, path, Record(path, owner, env.now + ttl));
      var ok := Store(path, owner, env.now + ttl, env);
      r := if ok then Granted else Failed;
    }

    method Release(path0: string, owner: string, stuck: set<string>)
      requires Valid()
      modifies this
      ensures Valid() && State() == AfterRelease(old(State()), CleanPath(path0), owner, stuck)
      ensures CleanPath(path0) in old(mem) && owner in {"", old(mem)[CleanPath(path0)].owner} ==>
                forall p :: p in mem ==> !Overlaps(CleanPath(path0), mem[p].path)
      ensures LockName(CleanPath(path0)) in files ==> LockName(CleanPath(path0)) in stuck
    {
      var path := CleanPath(path0);
      if path in mem {
        if owner == "" || mem[path].owner == owner {
          mem := mem - {path};
        }
      }
      if LockName(path) !in stuck {
        files := files - {LockName(path)};
      }
    }

    method IsLocked(path0: string, env: Env) returns (locked: bool, owner: string)
      requires Valid()
      modifies this
      ensures Valid()
      ensures ProbeStep(codec, old(State()), env, CleanPath(path0), State(), locked, owner)
    {
      var held := FindHolder(CleanPath(path0), env);
      return held.Some?, if held.Some? then held.value else "";
    }
  }
}
