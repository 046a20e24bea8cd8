/** `CVbeIdcClientService` on the heap: session maps, counter and timers; there are no arrays. */
module ClientService {
  import opened WrappingId
  import opened Options
  import opened SessionTable
  import opened Intrusive
  import opened Containers
  import Spec = ClientSpec

  class Service {
    const maps: SessionMaps
    var timers: set<Session>
    var sessionId: Id

    ghost var st: Spec.State<Session>

    ghost predicate FieldsHold(s: Session)
      requires s in st.table.ticket
      reads this`st, s`sessionId
    {
      s in st.sid && st.sid[s] == s.sessionId && st.table.ticket[s].kind == s.kind
    }

    /** The heap holds the abstract state `st`. */
    ghost predicate Matches()
      reads this, maps, maps.maps, maps.stores, st.table.ticket.Keys
    {
      && timers == st.timers && sessionId == st.table.next
      && maps.tables == st.table.maps && maps.known == st.table.ticket.Keys
      && maps.Valid()
      && (forall s {:trigger FieldsHold(s)} | s in st.table.ticket :: FieldsHold(s))
    }

    ghost predicate Valid()
      reads this, maps, maps.maps, maps.stores, st.table.ticket.Keys
    {
      Matches() && Spec.Inv(st)
    }

    constructor ()
      ensures Valid() && st == Spec.Init(6, 1)
      ensures timers == {} && sessionId == 1 && |maps.tables| == 6 && forall k | 0 <= k < 6 :: maps.tables[k] == map[]
    {
      maps := new SessionMaps(6);
      timers, sessionId := {}, 1;
      st := Spec.Init(6, 1);
      new;
      assert maps.tables == st.table.maps;
      InvEmpty<Session>(6, 1);
    }

    lemma NotLiveIsLoose(s: Session)
      requires Valid() && !Live(st.table, s)
      ensures forall m | m in maps.maps :: s !in m.Nodes
    {
      forall k | 0 <= k < |maps.maps|
        ensures s !in maps.maps[k].Nodes
      {
        if s in maps.maps[k].Nodes {
          maps.LinkedIsEntry(k, s);
          EntryIsLive(st.table, k, s.key);
        }
      }
    }

    /** The session gets its id, its timer and its map entry, and then the counter moves on. */
    method Place(kind: nat, session: Session)
      requires Matches() && session.kind == kind && kind < |st.table.maps| && sessionId !in st.table.maps[kind]
      requires forall m | m in maps.maps :: session !in m.Nodes
      modifies this, session, maps, maps.maps[kind], maps.maps[kind].buckets, maps.known`prev
      ensures Matches() && st == Spec.InsertSession(old(st), kind, session)
    {
      session.sessionId := sessionId;
      timers := timers + {session};
      maps.DirectInsert(kind, sessionId, session);
      sessionId := Next(sessionId);

      st := Spec.InsertSession(st, kind, session);
      forall s | s in st.table.ticket
        ensures FieldsHold(s)
      {
        assert s != session ==> old(FieldsHold(s));
      }
    }

    method InsertSession(kind: nat, session: Session)
      requires Valid() && session.kind == kind && CanIssue(st.table, kind, session)
      modifies this, session, maps, maps.maps[kind], maps.maps[kind].buckets, maps.known`prev
      ensures Valid() && st == Spec.InsertSession(old(st), kind, session)
    {
      NotLiveIsLoose(session);
      Spec.InvInsert(st, kind, session);
      Place(kind, session);
    }

    method EraseSession(kind: nat, nSessionID: Id) returns (pSession: Session?)
      requires Matches() && TableInv(st.table) && kind < |maps.maps|
      modifies this, maps`tables, maps.maps[kind], maps.maps[kind].buckets, maps.known`prev, maps.known`next
      ensures Matches() && st == Spec.EraseSession(old(st), kind, nSessionID)
      ensures if Has(old(st).table, kind, nSessionID) then pSession == old(st).table.maps[kind][nSessionID] else pSession == null
      ensures if pSession != null then timers == old(timers) - {pSession} && maps.tables == Dropped(old(maps.tables), kind, nSessionID)
              else timers == old(timers) && maps.tables == old(maps.tables)
    {
      pSession := maps.Erase(kind, nSessionID);
      if pSession != null {
        timers := timers - {pSession};
      }
      st := Spec.EraseSession(st, kind, nSessionID);
      forall s | s in st.table.ticket
        ensures FieldsHold(s)
      {
        assert old(FieldsHold(s));
      }
    }

    /** The expired timer is out of the queue before `OnTimeOut` erases the session. */
    method OnTimeOut(pSession: Session)
      requires Valid() && pSession in timers
      modifies this, maps`tables, maps.maps, maps.stores, maps.known`prev, maps.known`next
      ensures Valid() && st == Spec.Step(old(st), Spec.Timeout(pSession))
      ensures timers == old(timers) - {pSession}
      ensures pSession.kind < |maps.tables| && pSession.sessionId !in maps.tables[pSession.kind]
    {
      Spec.ExpireIsErase(st, pSession);
      Spec.InvStep(st, Spec.Timeout(pSession));
      assert FieldsHold(pSession) && maps.Sound(pSession.kind);
      Pop(pSession);
      var erased := EraseSession(pSession.kind, pSession.sessionId);
    }

    method Pop(pSession: Session)
      requires Matches()
      modifies this`timers, this`st
      ensures Matches() && st == old(st).(timers := old(st).timers - {pSession})
    {
      timers := timers - {pSession};
      st := st.(timers := st.timers - {pSession});
      forall s | s in st.table.ticket
        ensures FieldsHold(s)
      {
        assert old(FieldsHold(s));
      }
    }
  }
}
