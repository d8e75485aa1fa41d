/** The session and snapshot tables of the service. */
module Sessions {
  import opened Options
  import opened Indexer

  datatype Status = Active | Committed

  datatype Session = Session(id: string, snapshotID: string, module_: string, sourcePath: string, createdAt: int,
    clientID: string, status: Status)

  function SnapshotID(sid: string): string
  {
    "snap_" + sid
  }

  /** `origin` records, beside the two tables, which module's index each snapshot was cut from. */
  datatype Tables = Tables(sessions: map<string, Session>, snapshots: map<string, Snap>, origin: map<string, string>)

  predicate Expired(s: Session, now: int, ttl: int)
  {
    now - s.createdAt > ttl
  }

  predicate Own(t: Tables, sid: string)
    requires sid in t.sessions
  {
    && t.sessions[sid].id == sid
    && t.sessions[sid].snapshotID in t.origin && t.origin[t.sessions[sid].snapshotID] == t.sessions[sid].module_
  }

  function IDs(sessions: map<string, Session>): set<string>
  {
    set sid | sid in sessions :: sessions[sid].snapshotID
  }

  /** The snapshot keys are exactly the sessions' snapshot ids, no two sessions share one, and each
      snapshot was cut from the index of its session's module. */
  ghost predicate Matched(t: Tables)
  {
    && (forall sid :: sid in t.sessions ==> Own(t, sid))
    && t.snapshots.Keys == IDs(t.sessions)
    && (forall a, b :: a in t.sessions && b in t.sessions && t.sessions[a].snapshotID == t.sessions[b].snapshotID ==>
           a == b)
  }

  /** Ids as the handler makes them. */
  ghost predicate Named(t: Tables)
  {
    forall sid :: sid in t.sessions ==> t.sessions[sid].snapshotID == SnapshotID(sid)
  }

  function AfterCleanup(t: Tables, now: int, ttl: int): Tables
  {
    t.(sessions := map sid | sid in t.sessions && !Expired(t.sessions[sid], now, ttl) :: t.sessions[sid],
       snapshots := t.snapshots - set sid | sid in t.sessions && Expired(t.sessions[sid], now, ttl) ::
         t.sessions[sid].snapshotID)
  }

  function AfterInsert(t: Tables, s: Session, snap: Snap): Tables
  {
    Tables(t.sessions[s.id := s], t.snapshots[s.snapshotID := snap], t.origin[s.snapshotID := s.module_])
  }

  function AfterCommit(t: Tables, sid: string): Tables
  {
    if sid in t.sessions then t.(sessions := t.sessions[sid := t.sessions[sid].(status := Committed)]) else t
  }

  lemma SnapshotIDInjective(a: string, b: string)
    requires SnapshotID(a) == SnapshotID(b)
    ensures a == b
  {
    assert a == SnapshotID(a)[5..] && b == SnapshotID(b)[5..];
  }

  /** Cleanup keeps the tables matched and removes exactly the over-age pairs. */
  lemma CleanupExact(t: Tables, now: int, ttl: int)
    requires Matched(t)
    ensures var c := AfterCleanup(t, now, ttl);
            && Matched(c)
            && (forall sid :: sid in t.sessions ==>
                  (sid in c.sessions <==> now - t.sessions[sid].createdAt <= ttl)
                  && (t.sessions[sid].snapshotID in c.snapshots <==> now - t.sessions[sid].createdAt <= ttl))
            && (forall sid :: sid in c.sessions ==> sid in t.sessions && c.sessions[sid] == t.sessions[sid])
            && (forall id :: id in c.snapshots ==> id in t.snapshots && c.snapshots[id] == t.snapshots[id])
  {
    var c := AfterCleanup(t, now, ttl);
    forall sid | sid in c.sessions ensures Own(c, sid) {
      assert Own(t, sid);
    }
    forall id | id in c.snapshots ensures id in IDs(c.sessions) {
      assert id in IDs(t.sessions);
      var sid :| sid in t.sessions && t.sessions[sid].snapshotID == id;
      assert c.sessions[sid].snapshotID == id;
    }
    forall sid | sid in c.sessions ensures c.sessions[sid].snapshotID in c.snapshots {
      assert t.sessions[sid].snapshotID in IDs(t.sessions);
    }
  }

  /** The snapshot ids of the sessions that have been removed. */
  function Gone(all: map<string, Session>, left: map<string, Session>): set<string>
  {
    set sid | sid in all && sid !in left :: all[sid].snapshotID
  }

  lemma GoneMore(all: map<string, Session>, left: map<string, Session>, sid: string)
    requires sid in all && sid in left
    ensures Gone(all, left - {sid}) == Gone(all, left) + {all[sid].snapshotID}
  {
    var next := left - {sid};
    forall id ensures id in Gone(all, next) <==> id in Gone(all, left) || id == all[sid].snapshotID {
      if id in Gone(all, left) {
        var x :| x in all && x !in left && all[x].snapshotID == id;
        assert x !in next;
      }
    }
  }

  lemma CleanedUp(t: Tables, left: map<string, Session>, now: int, ttl: int)
    requires forall sid :: sid in left ==> sid in t.sessions && left[sid] == t.sessions[sid]
    requires forall sid :: sid in t.sessions ==> (sid in left <==> !Expired(t.sessions[sid], now, ttl))
    ensures AfterCleanup(t, now, ttl) == Tables(left, t.snapshots - Gone(t.sessions, left), t.origin)
  {
    assert Gone(t.sessions, left)
        == set sid | sid in t.sessions && Expired(t.sessions[sid], now, ttl) :: t.sessions[sid].snapshotID;
  }

  predicate Unused(t: Tables, s: Session)
  {
    forall sid :: sid in t.sessions && sid != s.id ==> t.sessions[sid].snapshotID != s.snapshotID
  }

  lemma NamedUnused(t: Tables, s: Session)
    requires Named(t) && s.snapshotID == SnapshotID(s.id)
    ensures Unused(t, s)
  {
    forall sid | sid in t.sessions && t.sessions[sid].snapshotID == s.snapshotID ensures sid == s.id {
      SnapshotIDInjective(sid, s.id);
    }
  }

  /** Inserting a pair keeps the tables matched, also when the session id was already in use with the same snapshot
      id. */
  lemma InsertMatched(t: Tables, s: Session, snap: Snap)
    requires Matched(t) && Unused(t, s)
    requires s.id in t.sessions ==> t.sessions[s.id].snapshotID == s.snapshotID
    ensures Matched(AfterInsert(t, s, snap))
  {
    var c := AfterInsert(t, s, snap);
    forall sid | sid in c.sessions && sid != s.id ensures Own(c, sid) {
      assert Own(t, sid);
    }
    assert c.snapshots.Keys == IDs(c.sessions) by {
      forall id | id in IDs(t.sessions) ensures id in IDs(c.sessions) {
        var sid :| sid in t.sessions && t.sessions[sid].snapshotID == id;
        assert c.sessions[sid].snapshotID == id;
      }
      assert c.sessions[s.id] == s;
    }
  }

  lemma CommitMatched(t: Tables, sid: string)
    requires Matched(t)
    ensures Matched(AfterCommit(t, sid)) && AfterCommit(t, sid).snapshots == t.snapshots
  {
    var c := AfterCommit(t, sid);
    forall x | x in t.sessions ensures c.sessions[x].snapshotID == t.sessions[x].snapshotID && Own(c, x) {
      assert Own(t, x);
    }
    assert IDs(c.sessions) == IDs(t.sessions);
  }

  /** A commit marks its session and changes nothing else. */
  lemma CommitExact(t: Tables, sid: string)
    ensures var c := AfterCommit(t, sid);
            && c.snapshots == t.snapshots && c.origin == t.origin && c.sessions.Keys == t.sessions.Keys
            && (sid in t.sessions ==> c.sessions[sid].status == Committed)
            && forall x | x in t.sessions ::
                 c.sessions[x].(status := Active) == t.sessions[x].(status := Active)
                 && (x != sid ==> c.sessions[x] == t.sessions[x])
  {
  }

  function NewSession(sid: string, moduleName: string, sourcePath: string, clientID: string, created: int): Session
  {
    Session(sid, SnapshotID(sid), moduleName, sourcePath, created, clientID, Active)
  }

  /* ------------------------------------------------------------------ whole histories */

  datatype Request =
    | CreateReq(session: Session, snap: Snap, now: int)
    | CommitReq(sid: string)
    | CleanupReq(now: int)

  function Step(before: Tables, ttl: int, r: Request): Tables
  {
    match r
    case CreateReq(s, snap, now) => AfterCleanup(AfterInsert(before, s, snap), now, ttl)
    case CommitReq(sid) => AfterCommit(before, sid)
    case CleanupReq(now) => AfterCleanup(before, now, ttl)
  }

  function Exec(t: Tables, ttl: int, requests: seq<Request>): Tables
  {
    if requests == [] then t
    else
      var before := Exec(t, ttl, requests[..|requests| - 1]);
      Step(before, ttl, requests[|requests| - 1])
  }

  lemma StepMatched(before: Tables, ttl: int, r: Request)
    requires Matched(before) && Named(before)
    requires r.CreateReq? ==> r.session.snapshotID == SnapshotID(r.session.id)
    ensures Matched(Step(before, ttl, r)) && Named(Step(before, ttl, r))
  {
    match r {
      case CreateReq(s, snap, now) =>
        NamedUnused(before, s);
        InsertMatched(before, s, snap);
        CleanupExact(AfterInsert(before, s, snap), now, ttl);
      case CommitReq(sid) => CommitMatched(before, sid);
      case CleanupReq(now) => CleanupExact(before, now, ttl);
    }
  }

  class Service {
    const ttl: int
    var sessions: map<string, Session>
    var snapshots: map<string, Snap>
    ghost var origin: map<string, string>

    ghost function State(): Tables
      reads this
    {
      Tables(sessions, snapshots, origin)
    }

    constructor (ttl: int)
      ensures this.ttl == ttl && State() == Tables(map[], map[], map[]) && Matched(State())
    {
      this.ttl := ttl;
      sessions, snapshots, origin := map[], map[], map[];
    }

    method Cleanup(now: int)
      modifies this
      ensures State() == AfterCleanup(old(State()), now, ttl)
    {
      var rest := sessions.Keys;
      ghost var all := sessions;
      while rest != {}
        invariant rest <= sessions.Keys <= all.Keys && origin == old(origin)
        invariant forall sid :: sid in sessions ==> sessions[sid] == all[sid]
        invariant forall sid :: sid in all && sid !in sessions ==> Expired(all[sid], now, ttl)
        invariant forall sid :: sid in sessions && sid !in rest ==> !Expired(sessions[sid], now, ttl)
        invariant snapshots == old(snapshots) - Gone(all, sessions)
        decreases |rest|
      {
        var sid :| sid in rest;
        rest := rest - {sid};
        if Expired(sessions[sid], now, ttl) {
          GoneMore(all, sessions, sid);
          snapshots := snapshots - {sessions[sid].snapshotID};
          sessions := sessions - {sid};
        }
      }
      CleanedUp(old(State()), sessions, now, ttl);
    }

    /** handleSessionCreate from the insertion on: both tables, then cleanup, under one lock. */
    method Create(sid: string, moduleName: string, sourcePath: string, clientID: string, snap: Snap, created: int,
                  now: int)
      modifies this
      ensures State() == AfterCleanup(AfterInsert(old(State()),
              NewSession(sid, moduleName, sourcePath, clientID, created), snap), now, ttl)
      ensures old(Matched(State()) && Named(State())) ==> Matched(State()) && Named(State())
      ensures old(Matched(State()) && Named(State())) && now - created <= ttl ==>
                sid in sessions && "snap_" + sid in snapshots && snapshots["snap_" + sid] == snap
                && sessions[sid] == Session(sid, "snap_" + sid, moduleName, sourcePath, created, clientID, Active)
    {
      var sess := NewSession(sid, moduleName, sourcePath, clientID, created);
      snapshots := snapshots[SnapshotID(sid) := snap];
      sessions := sessions[sid := sess];
      origin := origin[SnapshotID(sid) := moduleName];
      Cleanup(now);
      if old(Matched(State()) && Named(State())) {
        StepMatched(old(State()), ttl, CreateReq(sess, snap, now));
        CreateKeepsOwn(old(State()), sess, snap, now, ttl);
      }
    }

    method Commit(sid: string) returns (found: bool)
      requires Matched(State())
      modifies this
      ensures Matched(State()) && State() == AfterCommit(old(State()), sid) && (found <==> sid in old(sessions))
      ensures found ==> sid in sessions && sessions[sid].status == Committed
    {
      CommitMatched(State(), sid);
      found := sid in sessions;
      if found {
        sessions := sessions[sid := sessions[sid].(status := Committed)];
      }
    }

    /** moduleForSnapshot: whatever the iteration order, the module the snapshot was cut from, and only unknown
        snapshots fail. */
    method ModuleForSnapshot(id: string) returns (r: Option<string>)
      requires Matched(State())
      ensures r.Some? <==> id in snapshots
      ensures r.Some? ==> id in origin && r.value == origin[id]
    {
      var rest := sessions.Keys;
      while rest != {}
        invariant rest <= sessions.Keys
        invariant forall sid :: sid in sessions && sid !in rest ==> sessions[sid].snapshotID != id
        decreases |rest|
      {
        var sid :| sid in rest;
        rest := rest - {sid};
        if sessions[sid].snapshotID == id {
          assert Own(State(), sid);
          return Some(sessions[sid].module_);
        }
      }
      return None;
    }
  }

  /** After any history of requests, repeated session ids included, the tables match. */
  lemma {:induction false} TablesStayMatched(ttl: int, requests: seq<Request>)
    requires forall i | 0 <= i < |requests| :: requests[i].CreateReq? ==>
               requests[i].session.snapshotID == SnapshotID(requests[i].session.id)
    ensures Matched(Exec(Tables(map[], map[], map[]), ttl, requests))
    ensures Named(Exec(Tables(map[], map[], map[]), ttl, requests))
  {
    if requests != [] {
      TablesStayMatched(ttl, requests[..|requests| - 1]);
      StepMatched(Exec(Tables(map[], map[], map[]), ttl, requests[..|requests| - 1]), ttl, requests[|requests| - 1]);
    }
  }

  /** A create keeps its own pair unless that is already over age. */
  lemma CreateKeepsOwn(t: Tables, s: Session, snap: Snap, now: int, ttl: int)
    requires Matched(t) && Named(t) && s.snapshotID == SnapshotID(s.id)
    ensures var c := AfterCleanup(AfterInsert(t, s, snap), now, ttl);
            if now - s.createdAt > ttl then s.id !in c.sessions && s.snapshotID !in c.snapshots
            else
              && s.id in c.sessions && c.sessions[s.id] == s
              && s.snapshotID in c.snapshots && c.snapshots[s.snapshotID] == snap
  {
    NamedUnused(t, s);
    InsertMatched(t, s, snap);
    CleanupExact(AfterInsert(t, s, snap), now, ttl);
  }

  /** And of the other sessions it keeps exactly those that are not over age, with their snapshots. */
  lemma CreateKeepsOthers(t: Tables, s: Session, snap: Snap, now: int, ttl: int, sid: string)
    requires Matched(t) && Named(t) && s.snapshotID == SnapshotID(s.id) && sid in t.sessions && sid != s.id
    ensures var c := AfterCleanup(AfterInsert(t, s, snap), now, ttl);
            var id := t.sessions[sid].snapshotID;
            if now - t.sessions[sid].createdAt > ttl then sid !in c.sessions && id !in c.snapshots
            else sid in c.sessions && c.sessions[sid] == t.sessions[sid]
                 && id in c.snapshots && id in t.snapshots && c.snapshots[id] == t.snapshots[id]
  {
    var i := AfterInsert(t, s, snap);
    NamedUnused(t, s);
    InsertMatched(t, s, snap);
    CleanupExact(i, now, ttl);
    assert i.sessions[sid] == t.sessions[sid];
    assert t.sessions[sid].snapshotID in IDs(t.sessions);
  }
}
