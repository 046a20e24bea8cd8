/**
 `CVbeIdcService` and `CVbeIdcRegService` on the heap. They differ in the number of
 session maps and in where the counter starts (0 and 1); both are parameters here.
 Timers are a set: arming adds, cancelling removes, also when the timer is not armed.
 */
module ServerService {
  import opened WrappingId
  import opened Options
  import opened SessionTable
  import opened ServerSpec
  import opened Intrusive
  import opened Containers

  class Service {
    const maps: SessionMaps
    const arrays: HandlerArrays
    var timers: set<Session>
    var sessionId: Id

    ghost var st: State<ServiceHandler, Session>

    /** The session's fields are the ones that `state` records. */
    static ghost predicate FieldsRecorded(s: Session, state: State<ServiceHandler, Session>)
      requires s in state.table.ticket
      reads s`sessionId, s`handler
    {
      && s in state.sid && state.sid[s] == s.sessionId
      && s in state.handler && state.handler[s] == s.handler
      && state.table.ticket[s].kind == s.kind
    }

    ghost predicate FieldsHold(s: Session)
      requires s in st.table.ticket
      reads this`st, s`sessionId, s`handler
    {
      FieldsRecorded(s, st)
    }

    ghost predicate AllFieldsHold()
      reads this`st, st.table.ticket.Keys`sessionId, st.table.ticket.Keys`handler
    {
      forall s {:trigger FieldsHold(s)} | s in st.table.ticket :: FieldsHold(s)
    }

    ghost predicate OtherFieldsHold(x: Session)
      reads this`st, (st.table.ticket.Keys - {x})`sessionId, (st.table.ticket.Keys - {x})`handler
    {
      forall s {:trigger FieldsHold(s)} | s in st.table.ticket && s != x :: FieldsHold(s)
    }

    /** The heap holds the abstract state `st`. */
    ghost predicate Matches()
      reads this, maps, maps.maps, maps.stores, arrays, arrays.stores, st.table.ticket.Keys
    {
      && timers == st.timers && sessionId == st.table.next
      && maps.tables == st.table.maps && maps.known == st.table.ticket.Keys
      && arrays.arrays == st.arrays && arrays.known == st.table.ticket.Keys
      && maps.Valid()
      && arrays.Valid()
      && AllFieldsHold()
    }

    ghost predicate Valid()
      reads this, maps, maps.maps, maps.stores, arrays, arrays.stores, st.table.ticket.Keys
    {
      Matches() && Inv(st)
    }

    constructor (kinds: nat, first: Id)
      ensures Valid() && st == Init(kinds, first)
      ensures timers == {} && sessionId == first && |maps.tables| == kinds && forall k | 0 <= k < kinds :: maps.tables[k] == map[]
      ensures arrays.arrays == map[]
    {
      maps := new SessionMaps(kinds);
      arrays := new HandlerArrays();
      timers, sessionId := {}, first;
      st := Init(kinds, first);
      new;
      assert maps.tables == st.table.maps;
      InvInit<ServiceHandler, Session>(kinds, first);
    }

    lemma FieldsUnaffected(next: State<ServiceHandler, Session>)
      requires AllFieldsHold()
      requires next.sid == st.sid && next.handler == st.handler && next.table.ticket == st.table.ticket
      ensures forall s {:trigger FieldsRecorded(s, next)} | s in next.table.ticket :: FieldsRecorded(s, next)
    {
      forall s | s in next.table.ticket
        ensures FieldsRecorded(s, next)
      {
        assert FieldsHold(s);
      }
    }

    ghost method Record(next: State<ServiceHandler, Session>)
      requires timers == next.timers && sessionId == next.table.next
      requires maps.Valid() && maps.tables == next.table.maps && maps.known == next.table.ticket.Keys
      requires arrays.Valid() && arrays.arrays == next.arrays && arrays.known == next.table.ticket.Keys
      requires forall s {:trigger FieldsRecorded(s, next)} | s in next.table.ticket :: FieldsRecorded(s, next)
      modifies this`st
      ensures Matches() && st == next
    {
      st := next;
      forall s | s in st.table.ticket
        ensures FieldsHold(s)
      {
        assert old(FieldsRecorded(s, next));
      }
    }

    /** Like `Record`, when the recorded fields are the same as before. */
    ghost method RecordSameFields(next: State<ServiceHandler, Session>)
      requires timers == next.timers && sessionId == next.table.next
      requires maps.Valid() && maps.tables == next.table.maps && maps.known == next.table.ticket.Keys
      requires arrays.Valid() && arrays.arrays == next.arrays && arrays.known == next.table.ticket.Keys
      requires next.sid == st.sid && next.handler == st.handler && next.table.ticket == st.table.ticket
      requires AllFieldsHold()
      modifies this`st
      ensures Matches() && st == next
    {
      FieldsUnaffected(next);
      Record(next);
    }

    /** `AllocMcpHandler`: a connection is accepted. */
    method Connect() returns (h: ServiceHandler)
      requires Valid()
      modifies this`st, arrays
      ensures Valid() && h !in old(st.arrays) && st == Step(old(st), Event.Connect(h))
    {
      h := arrays.Connect();
      ghost var next := Step(st, Event.Connect(h));
      InvStep(st, Event.Connect(h));
      RecordSameFields(next);
    }

    /** What `Inv` says about a session that is not live: no container has it. */
    lemma NotLiveIsLoose(s: Session)
      requires Valid() && !Live(st.table, s)
      ensures forall m | m in maps.maps :: s !in m.Nodes
      ensures forall h | h in st.arrays :: s !in st.arrays[h]
    {
      forall k | 0 <= k < |maps.maps|
        ensures s !in maps.maps[k].Nodes
      {
        if s in maps.maps[k].Nodes {
          maps.LinkedIsEntry(k, s);
          EntryIsLive(st.table, k, s.key);
        }
      }
      forall h | h in st.arrays
        ensures s !in st.arrays[h]
      {
        assert Seated(st, h);
      }
    }

    /** Into the handler's array, with the fields that lead back. */
    method Seat(session: Session, mcpHandle: ServiceHandler)
      requires maps.Valid() && arrays.Valid()
      requires mcpHandle in arrays.arrays && forall h | h in arrays.arrays :: session !in arrays.arrays[h]
      modifies session`handler, session`sessionId, session`index, arrays`arrays, arrays`known, mcpHandle.userSessions
      ensures maps.Valid() && arrays.Valid() && arrays.known == old(arrays.known) + {session}
      ensures arrays.arrays == old(arrays.arrays)[mcpHandle := old(arrays.arrays)[mcpHandle] + [session]]
      ensures session.handler == mcpHandle && session.sessionId == sessionId
    {
      session.handler := mcpHandle;
      arrays.Insert(mcpHandle, session);
      session.sessionId := sessionId;
    }

    /** Into the map, under the counter, which moves on. */
    method Store(kind: nat, session: Session)
      requires maps.Valid() && arrays.Valid()
      requires kind < |maps.maps| && sessionId !in maps.tables[kind] && forall m | m in maps.maps :: session !in m.Nodes
      modifies this`timers, this`sessionId, session`key, session`prev, session`next
      modifies maps, maps.maps[kind], maps.maps[kind].buckets, maps.known`prev
      ensures maps.Valid() && arrays.Valid() && maps.known == old(maps.known) + {session}
      ensures maps.tables == With(old(maps.tables), kind, old(sessionId), session)
      ensures timers == old(timers) + {session} && sessionId == Next(old(sessionId))
    {
      timers := timers + {session};

      maps.DirectInsert(kind, sessionId, session);
      sessionId := Next(sessionId);
    }

    method Place(kind: nat, session: Session, mcpHandle: ServiceHandler)
      requires Matches() && session.kind == kind && kind < |st.table.maps| && sessionId !in st.table.maps[kind]
      requires mcpHandle in st.arrays && forall h | h in st.arrays :: session !in st.arrays[h]
      requires forall m | m in maps.maps :: session !in m.Nodes
      modifies this, session, arrays, mcpHandle.userSessions
      modifies maps, maps.maps[kind], maps.maps[kind].buckets, maps.known`prev
      ensures Matches() && st == ServerSpec.InsertSession(old(st), kind, session, mcpHandle)
    {
      assert OtherFieldsHold(session);
      Seat(session, mcpHandle);
      Store(kind, session);
      FieldsAfterInsert(kind, session, mcpHandle);
      Record(ServerSpec.InsertSession(st, kind, session, mcpHandle));
    }

    lemma FieldsAfterInsert(kind: nat, session: Session, h: ServiceHandler)
      requires OtherFieldsHold(session) && session.kind == kind && session.handler == h && session.sessionId == st.table.next
      requires kind < |st.table.maps| && h in st.arrays
      ensures var next := ServerSpec.InsertSession(st, kind, session, h);
              next.table.ticket.Keys == st.table.ticket.Keys + {session} &&
              forall s {:trigger FieldsRecorded(s, next)} | s in next.table.ticket :: FieldsRecorded(s, next)
    {
      var next := ServerSpec.InsertSession(st, kind, session, h);
      forall s | s in next.table.ticket
        ensures FieldsRecorded(s, next)
      {
        if s != session {
          assert FieldsHold(s);
        }
      }
    }

    method InsertSession(kind: nat, session: Session, mcpHandle: ServiceHandler)
      requires Valid() && mcpHandle in st.arrays && session.kind == kind && CanIssue(st.table, kind, session)
      modifies this, session, arrays, mcpHandle.userSessions
      modifies maps, maps.maps[kind], maps.maps[kind].buckets, maps.known`prev
      ensures Valid() && st == ServerSpec.InsertSession(old(st), kind, session, mcpHandle)
    {
      NotLiveIsLoose(session);
      InvInsert(st, kind, session, mcpHandle);
      Place(kind, session, mcpHandle);
    }

    /** A session that a map holds sits in its handler's array, and in that one only. */
    lemma EntryIsSeated(k: nat, id: Id, timers: set<Session>)
      requires Inv(st.(timers := timers))
      ensures Has(st.table, k, id) ==>
                var s := st.table.maps[k][id];
                s in st.table.ticket && s in st.handler && st.handler[s] in st.arrays && s in st.arrays[st.handler[s]]
      ensures forall h, g, s | h in st.arrays && g in st.arrays && s in st.arrays[h] && s in st.arrays[g] :: h == g
    {
      var all := st.(timers := timers);
      if Has(st.table, k, id) {
        EntryIsLive(st.table, k, id);
        assert Recorded(all, st.table.maps[k][id]);
      }
      forall h, g, s | h in st.arrays && g in st.arrays && s in st.arrays[h] && s in st.arrays[g]
        ensures h == g
      {
        SeatedSession(all, h, s);
        SeatedSession(all, g, s);
      }
    }

    /** Out of the timer queue and out of the handler's array. */
    method Unseat(pSession: Session)
      requires maps.Valid() && arrays.Valid() && arrays.SeatsApart()
      requires pSession.handler != null && pSession.handler in arrays.arrays && pSession in arrays.arrays[pSession.handler]
      modifies this`timers, arrays`arrays, arrays.stores, arrays.known`index
      ensures maps.Valid() && arrays.Valid() && timers == old(timers) - {pSession}
      ensures arrays.arrays == old(arrays.arrays)[pSession.handler := Without(old(arrays.arrays)[pSession.handler], pSession)]
    {
      timers := timers - {pSession};
      arrays.HandlerIsStored(pSession.handler);
      arrays.Erase(pSession.handler, pSession);
    }

    /** Whatever map entry goes, its timer and its array slot go with it. */
    method Detach(kind: nat, sessionID: Id) returns (pSession: Session?)
      requires maps.Valid() && arrays.Valid() && arrays.SeatsApart() && kind < |maps.maps|
      requires sessionID in maps.tables[kind] ==>
                 var s := maps.tables[kind][sessionID];
                 s.handler != null && s.handler in arrays.arrays && s in arrays.arrays[s.handler]
      modifies this`timers, maps`tables, maps.maps[kind], maps.maps[kind].buckets, arrays`arrays, arrays.stores
      modifies maps.known`prev, maps.known`next, arrays.known`index
      ensures maps.Valid() && arrays.Valid()
      ensures if sessionID in old(maps.tables)[kind]
              then pSession == old(maps.tables)[kind][sessionID] && maps.tables == Dropped(old(maps.tables), kind, sessionID)
                   && timers == old(timers) - {pSession} && arrays.arrays == Vacated(old(arrays.arrays), pSession.handler, pSession)
              else pSession == null && maps.tables == old(maps.tables) && timers == old(timers) && arrays.arrays == old(arrays.arrays)
    {
      pSession := maps.Erase(kind, sessionID);
      if pSession != null {
        Unseat(pSession);
      }
    }

    static ghost function Vacated(arrays: map<ServiceHandler, seq<Session>>, h: ServiceHandler?, s: Session): map<ServiceHandler, seq<Session>> {
      if h != null && h in arrays then arrays[h := Without(arrays[h], s)] else arrays
    }

    method Remove(kind: nat, sessionID: Id) returns (pSession: Session?)
      requires Matches() && kind < |maps.maps| && arrays.SeatsApart()
      requires Has(st.table, kind, sessionID) ==>
                 var s := st.table.maps[kind][sessionID];
                 s in st.table.ticket && s in st.handler && st.handler[s] in st.arrays && s in st.arrays[st.handler[s]]
      modifies this, maps`tables, maps.maps[kind], maps.maps[kind].buckets, arrays`arrays, arrays.stores
      modifies maps.known`prev, maps.known`next, maps.known`index
      ensures Matches() && st == ServerSpec.EraseSession(old(st), kind, sessionID)
      ensures if Has(old(st).table, kind, sessionID) then pSession == old(st).table.maps[kind][sessionID] else pSession == null
    {
      if Has(st.table, kind, sessionID) {
        assert FieldsHold(st.table.maps[kind][sessionID]);
      }
      pSession := Detach(kind, sessionID);
      ghost var next := ServerSpec.EraseSession(st, kind, sessionID);
      RecordSameFields(next);
    }

    /** `popped` are timers that have expired and whose callback is running. */
    method EraseSession(kind: nat, sessionID: Id, ghost popped: set<Session>) returns (pSession: Session?)
      requires Matches() && Inv(st.(timers := st.timers + popped)) && kind < |maps.maps|
      modifies this, maps`tables, maps.maps[kind], maps.maps[kind].buckets, arrays`arrays, arrays.stores
      modifies maps.known`prev, maps.known`next, maps.known`index
      ensures Matches() && st == ServerSpec.EraseSession(old(st), kind, sessionID)
      ensures match Found(old(st), kind, sessionID) case None => pSession == null case Some(s) => pSession == s
    {
      EntryIsSeated(kind, sessionID, st.timers + popped);
      pSession := Remove(kind, sessionID);
    }

    /** `OnTimer` to `OnTimeOut`: the timer has left the queue when the session is erased. */
    method OnTimeOut(pSession: Session)
      requires Valid() && pSession in timers
      modifies this, maps`tables, maps.maps, maps.stores, arrays`arrays, arrays.stores
      modifies maps.known`prev, maps.known`next, maps.known`index
      ensures Valid() && st == Step(old(st), Event.Timeout(pSession))
    {
      ghost var before := st;
      ExpireIsErase(st, pSession);
      InvStep(st, Event.Timeout(pSession));
      assert FieldsHold(pSession) && maps.Sound(pSession.kind);
      Pop(pSession);
      assert st.timers + {pSession} == before.timers;
      assert st.(timers := before.timers) == before;
      var erased := EraseSession(pSession.kind, pSession.sessionId, {pSession});
    }

    method Pop(pSession: Session)
      requires Matches() && pSession in timers
      modifies this`timers, this`st
      ensures Matches() && st == old(st).(timers := old(st).timers - {pSession})
    {
      timers := timers - {pSession};
      RecordSameFields(st.(timers := st.timers - {pSession}));
    }

    /** A connection is lost: `OnNetError` of each of its sessions, in any order, while the array shrinks. */
    method OnDisconnect(handler: ServiceHandler)
      requires Valid() && handler in st.arrays
      modifies this, maps`tables, maps.maps, maps.stores, arrays`arrays, arrays.stores
      modifies maps.known`prev, maps.known`next, maps.known`index
      ensures Valid() && st == Drained(old(st), handler)
    {
      ArrayHolds(handler);
      while handler.userSessions.items != []
        invariant Valid() && handler in st.arrays && Drained(st, handler) == Drained(old(st), handler)
        invariant handler.userSessions.items == st.arrays[handler]
        invariant maps.known == old(maps.known) && arrays.known == old(arrays.known) && arrays.stores == old(arrays.stores)
        decreases |handler.userSessions.items|
      {
        var i: nat :| i < |handler.userSessions.items|;
        OnNetError(handler, handler.userSessions.items[i]);
      }
      DrainedWhenEmpty(st, handler);
    }

    lemma ArrayHolds(h: ServiceHandler)
      requires Matches() && h in st.arrays
      ensures h.userSessions.items == st.arrays[h]
    {
      assert arrays.Sound(h);
    }

    lemma AfterNetError(h: ServiceHandler, s: Session)
      requires Valid() && h in st.arrays && s in st.arrays[h]
      ensures s.kind < |maps.maps| && maps.maps[s.kind].buckets in maps.stores && st.(timers := st.timers + {}) == st
      ensures var next := ServerSpec.EraseSession(st, s.kind, s.sessionId);
              Inv(next) && h in next.arrays && |next.arrays[h]| < |st.arrays[h]| && Drained(next, h) == Drained(st, h)
    {
      SeatedSession(st, h, s);
      assert FieldsHold(s) && maps.Sound(s.kind);
      DrainAbsorbsErase(st, h, s);
      assert Seated(st, h);
      WithoutElement(st.arrays[h], s);
      InvErase(st, s.kind, s.sessionId);
    }

    method OnNetError(ghost h: ServiceHandler, pSession: Session)
      requires Valid() && h in st.arrays && pSession in st.arrays[h]
      modifies this, maps`tables, maps.maps, maps.stores, arrays`arrays, arrays.stores
      modifies maps.known`prev, maps.known`next, maps.known`index
      ensures Valid() && h in st.arrays && Drained(st, h) == Drained(old(st), h)
      ensures |st.arrays[h]| < |old(st.arrays[h])| && h.userSessions.items == st.arrays[h]
      ensures maps.known == old(maps.known) && arrays.known == old(arrays.known) && arrays.stores == old(arrays.stores)
    {
      AfterNetError(h, pSession);
      var erased := EraseSession(pSession.kind, pSession.sessionId, {});
      ArrayHolds(h);
    }
  }
}
