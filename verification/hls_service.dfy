/** `CVbeIdcHlsService`'s session operations on the heap. Message addresses are numbers. */
module HlsService {
  import opened WrappingId
  import opened Options
  import opened SessionTable
  import opened Intrusive
  import opened Containers
  import Spec = HlsSpec

  class Service {
    const maps: SessionMaps
    var timers: set<Session>
    var hlsSessionId: Id

    ghost var st: Spec.State<Session, nat>

    /** `sid` and `addr` record the fields wherever the service has written them. */
    ghost predicate FieldsHold(s: Session)
      reads this`st, s`sessionId, s`srcAddr
    {
      && (s in st.sid ==> st.sid[s] == s.sessionId)
      && (s in st.addr ==> st.addr[s] == s.srcAddr)
      && (s in st.table.ticket ==> st.table.ticket[s].kind == s.kind)
    }

    ghost function Recorded(): set<Session>
      reads this`st
    {
      st.sid.Keys + st.addr.Keys + st.table.ticket.Keys
    }

    /** The heap holds the abstract state `st`. */
    ghost predicate Matches()
      reads this, maps, maps.maps, maps.stores, maps.known, Recorded()
    {
      && timers == st.timers && hlsSessionId == st.table.next
      && maps.tables == st.table.maps && maps.known == st.table.ticket.Keys
      && maps.Valid()
      && (forall s {:trigger FieldsHold(s)} | s in Recorded() :: FieldsHold(s))
    }

    ghost predicate Valid()
      reads this, maps, maps.maps, maps.stores, maps.known, Recorded()
    {
      Matches() && Spec.Inv(st)
    }

    constructor ()
      ensures Valid() && st == Spec.Init()
      ensures timers == {} && hlsSessionId == 1 && |maps.tables| == 4 && forall k | 0 <= k < 4 :: maps.tables[k] == map[]
    {
      maps := new SessionMaps(Spec.KINDS);
      timers, hlsSessionId := {}, 1;
      st := Spec.Init();
      new;
      assert maps.tables == st.table.maps;
      Spec.InvInit<Session, nat>();
    }

    lemma NotLiveIsLoose(s: Session)
      requires Valid() && !Live(st.table, s)
      ensures forall m | m in maps.maps :: s !in m.Nodes
    {
      forall k | 0 <= k < |maps.maps|
        ensures s !in maps.maps[k].Nodes
      {
        if s in maps.maps[k].Nodes {
          maps.LinkedIsEntry(k, s);
          EntryIsLive(st.table, k, s.key);
        }
      }
    }

    /** The writes of `InsertSession`, in its order. */
    method Enter(kind: nat, session: Session, mcpHandle: nat)
      requires maps.Valid() && kind < |maps.maps| && hlsSessionId !in maps.tables[kind]
      requires forall m | m in maps.maps :: session !in m.Nodes
      modifies this`hlsSessionId, session, maps, maps.maps[kind], maps.maps[kind].buckets, maps.known`prev
      ensures maps.Valid() && maps.known == old(maps.known) + {session}
      ensures maps.tables == With(old(maps.tables), kind, old(hlsSessionId), session)
      ensures session.srcAddr == mcpHandle && session.sessionId == old(hlsSessionId) && hlsSessionId == Next(old(hlsSessionId))
    {
      session.srcAddr := mcpHandle;
      session.sessionId := hlsSessionId;
      maps.DirectInsert(kind, hlsSessionId, session);
      hlsSessionId := Next(hlsSessionId);
    }

    method Place(kind: nat, session: Session, mcpHandle: nat)
      requires Matches() && session.kind == kind && kind < |st.table.maps| && hlsSessionId !in st.table.maps[kind]
      requires forall m | m in maps.maps :: session !in m.Nodes
      modifies this, session, maps, maps.maps[kind], maps.maps[kind].buckets, maps.known`prev
      ensures Matches() && st == Spec.InsertSession(old(st), kind, session, mcpHandle)
    {
      Enter(kind, session, mcpHandle);

      st := Spec.InsertSession(st, kind, session, mcpHandle);
      forall s | s in Recorded()
        ensures FieldsHold(s)
      {
        if s != session {
          assert s in old(Recorded());
          assert old(FieldsHold(s));
        }
      }
    }

    method InsertSession(kind: nat, session: Session, mcpHandle: nat)
      requires Valid() && session.kind == kind && Spec.Enabled(st, Spec.Insert(kind, session, mcpHandle))
      modifies this, session, maps, maps.maps[kind], maps.maps[kind].buckets, maps.known`prev
      ensures Valid() && st == Spec.Step(old(st), Spec.Insert(kind, session, mcpHandle))
    {
      NotLiveIsLoose(session);
      Spec.InvStep(st, Spec.Insert(kind, session, mcpHandle));
      Place(kind, session, mcpHandle);
    }

    /** How `MaybePropose` and `SendProposeToHls` insert: a timer, the counter as key, no field written. */
    method ArmAndInsert(kind: nat, session: Session)
      requires Valid() && session.kind == kind && Spec.Enabled(st, Spec.ArmAndInsert(kind, session))
      modifies this, session`key, session`prev, session`next, maps, maps.maps[kind], maps.maps[kind].buckets, maps.known`prev
      ensures Valid() && st == Spec.Step(old(st), Spec.ArmAndInsert(kind, session))
    {
      NotLiveIsLoose(session);
      Spec.InvStep(st, Spec.ArmAndInsert(kind, session));
      ghost var next := Spec.Step(st, Spec.ArmAndInsert(kind, session));
      Arm(kind, session, next);
    }

    method Arm(kind: nat, session: Session, ghost next: Spec.State<Session, nat>)
      requires Matches() && session.kind == kind && kind < |st.table.maps| && hlsSessionId !in st.table.maps[kind]
      requires forall m | m in maps.maps :: session !in m.Nodes
      requires next == st.(table := Issue(st.table, kind, session), timers := st.timers + {session})
      modifies this, session`key, session`prev, session`next, maps, maps.maps[kind], maps.maps[kind].buckets, maps.known`prev
      ensures Matches() && st == next
    {
      timers := timers + {session};
      maps.DirectInsert(kind, hlsSessionId, session);
      hlsSessionId := Next(hlsSessionId);

      st := next;
      forall s | s in Recorded()
        ensures FieldsHold(s)
      {
        if s in old(Recorded()) {
          assert old(FieldsHold(s));
        }
      }
    }

    /** Takes the entry out whatever its timer; the state stays sound exactly if no timer was armed. */
    method EraseSession(kind: nat, sessionID: Id) returns (p: Session?)
      requires Valid() && kind < |maps.maps|
      modifies this, maps`tables, maps.maps[kind], maps.maps[kind].buckets, maps.known`prev, maps.known`next
      ensures Matches() && st == Spec.EraseSession(old(st), kind, sessionID)
      ensures Valid() <==> !Spec.FindsArmed(old(st), kind, sessionID)
      ensures if Has(old(st).table, kind, sessionID) then p == old(st).table.maps[kind][sessionID] else p == null
    {
      Spec.PlainEraseSafeIff(st, kind, sessionID);
      InvRemove(st.table, kind, sessionID);
      p := Drop(kind, sessionID, false);
    }

    method EraseTimerSession(kind: nat, sessionID: Id) returns (p: Session?)
      requires Valid() && kind < |maps.maps|
      modifies this, maps`tables, maps.maps[kind], maps.maps[kind].buckets, maps.known`prev, maps.known`next
      ensures Valid() && st == Spec.Step(old(st), Spec.EraseTimer(kind, sessionID))
      ensures if Has(old(st).table, kind, sessionID) then p == old(st).table.maps[kind][sessionID] else p == null
    {
      Spec.InvStep(st, Spec.EraseTimer(kind, sessionID));
      p := Drop(kind, sessionID, true);
    }

    method Drop(kind: nat, sessionID: Id, cancel: bool) returns (p: Session?)
      requires Matches() && kind < |maps.maps|
      modifies this, maps`tables, maps.maps[kind], maps.maps[kind].buckets, maps.known`prev, maps.known`next
      ensures Matches()
      ensures st == if cancel then Spec.EraseTimerSession(old(st), kind, sessionID) else Spec.EraseSession(old(st), kind, sessionID)
      ensures if Has(old(st).table, kind, sessionID) then p == old(st).table.maps[kind][sessionID] else p == null
    {
      p := maps.Erase(kind, sessionID);
      if p != null && cancel {
        timers := timers - {p};
      }
      st := if cancel then Spec.EraseTimerSession(st, kind, sessionID) else Spec.EraseSession(st, kind, sessionID);
      forall s | s in Recorded()
        ensures FieldsHold(s)
      {
        assert old(FieldsHold(s));
      }
    }

    /** A timer expires: it leaves the queue, and nothing else is done before the retry logic runs. */
    method OnTimer(session: Session)
      requires Valid() && session in timers
      modifies this
      ensures Valid() && st == Spec.Step(old(st), Spec.Fire(session))
    {
      Spec.InvStep(st, Spec.Fire(session));
      timers := timers - {session};
      Follow(Spec.Step(st, Spec.Fire(session)));
    }

    /** `OnTimeOut` of a transfer to another channel sends the request again and waits again. */
    method Rearm(session: Session)
      requires Valid() && Spec.Enabled(st, Spec.Rearm(session))
      modifies this
      ensures Valid() && st == Spec.Step(old(st), Spec.Rearm(session))
    {
      Spec.InvStep(st, Spec.Rearm(session));
      timers := timers + {session};
      Follow(Spec.Step(st, Spec.Rearm(session)));
    }

    ghost method Follow(next: Spec.State<Session, nat>)
      requires maps.Valid() && maps.tables == st.table.maps && maps.known == st.table.ticket.Keys && hlsSessionId == st.table.next
      requires forall s {:trigger FieldsHold(s)} | s in Recorded() :: FieldsHold(s)
      requires next == st.(timers := timers)
      modifies this`st
      ensures Matches() && st == next
    {
      st := next;
      forall s | s in Recorded()
        ensures FieldsHold(s)
      {
        assert old(FieldsHold(s));
      }
    }

    method FindSession(kind: nat, sessionID: Id) returns (p: Session?)
      requires Valid() && kind < |maps.maps|
      ensures match Spec.FindSession(st, kind, sessionID) case None => p == null case Some(s) => p == s
    {
      p := maps.Find(kind, sessionID);
    }
  }
}
