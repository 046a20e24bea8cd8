/** What holds for the HLS service's transfers over whole runs in which nothing breaks. */
module TransferRuns {
  import opened Options
  import opened WrappingId
  import opened TransferOrder
  import opened TransferRelease
  import opened TransferSpec
  import opened Runs

  /** The step of an event that ends well. */
  ghost function Move(own: Channel): (State, Event) -> Option<State> {
    (st, e) => if Enabled(st, e) && Step(own, st, e).Fine? then Some(Step(own, st, e).st) else None
  }

  lemma InvRun(own: Channel, st: State, es: seq<Event>)
    requires Inv(st) && Valid(Move(own), st, es)
    ensures Inv(End(Move(own), st, es))
  {
    forall x, e | Inv(x) && Move(own)(x, e).Some?
      ensures Inv(Move(own)(x, e).value)
    {
      InvStep(own, x, e);
    }
    EndKeeps(Move(own), x => Inv(x), st, es);
  }

  // ---------- in progress is who is entitled ----------

  /** In progress are exactly the entitled if and only if nobody is held back. */
  lemma BusyIff(st: State)
    requires Inv(st)
    ensures (forall t | t in st.arrived :: t in Busy(st) <==> Eligible(st.arrived, t)) <==> Held(st) == {}
  {
    forall t | t in st.arrived
      ensures t in Held(st) <==> t !in Busy(st) && Eligible(st.arrived, t)
    {
    }
    if t :| t in Held(st) {
      assert t in st.arrived;
    }
  }

  /** Then nothing waits for ever: the oldest queued transfer is in progress. */
  lemma OldestIsBusy(st: State)
    requires Inv(st) && Held(st) == {} && st.arrived != []
    ensures st.arrived[0] in Busy(st)
  {
    OldestEligible(st.arrived);
    assert st.arrived[0] !in Held(st);
  }

  /** Nobody becomes entitled in the event while its field is a key in use. */
  ghost predicate Attended(own: Channel, st: State, e: Event)
    requires Move(own)(st, e).Some?
  {
    var st' := Move(own)(st, e).value;
    forall y | y in st'.arrived && Eligible(st'.arrived, y) && !Eligible(st.arrived, y) :: y.fieldId !in KeysThen(st, e)
  }

  ghost predicate AllAttended(own: Channel, st: State, es: seq<Event>)
    requires Valid(Move(own), st, es)
    decreases |es|
  {
    es == [] || (Attended(own, st, es[0]) && AllAttended(own, Move(own)(st, es[0]).value, es[1..]))
  }

  ghost predicate AllRoomy(own: Channel, st: State, es: seq<Event>)
    requires Valid(Move(own), st, es)
    decreases |es|
  {
    es == [] || (RoomFor(st, es[0]) && AllRoomy(own, Move(own)(st, es[0]).value, es[1..]))
  }

  lemma AttendedIff(own: Channel, st: State, e: Event)
    requires Inv(st) && Move(own)(st, e).Some? && RoomFor(st, e)
    ensures Held(Move(own)(st, e).value) == {} <==> Held(st) == {} && Attended(own, st, e)
  {
    StepGrows(own, st, e);
    var st' := Move(own)(st, e).value;
    if y :| y in Held(st) {
      assert y in Held(st');
    }
    if y :| y in Held(st') {
      assert y in st'.arrived && Eligible(st'.arrived, y);
    }
  }

  lemma {:induction false} HeldIff(own: Channel, st: State, es: seq<Event>)
    requires Inv(st) && Valid(Move(own), st, es) && AllRoomy(own, st, es)
    ensures Held(End(Move(own), st, es)) == {} <==> Held(st) == {} && AllAttended(own, st, es)
    decreases |es|
  {
    if es != [] {
      AttendedIff(own, st, es[0]);
      InvStep(own, st, es[0]);
      HeldIff(own, Move(own)(st, es[0]).value, es[1..]);
    }
  }

  /** After a run, the transfers in progress are exactly the entitled ones if and only if each event attended to those it made so. */
  lemma EntitledIff(own: Channel, es: seq<Event>)
    requires Valid(Move(own), Empty, es) && AllRoomy(own, Empty, es)
    ensures var st := End(Move(own), Empty, es);
            (forall t | t in st.arrived :: t in Busy(st) <==> Eligible(st.arrived, t)) <==> AllAttended(own, Empty, es)
  {
    InvRun(own, Empty, es);
    HeldIff(own, Empty, es);
    BusyIff(End(Move(own), Empty, es));
  }

  // ---------- what blocks for ever ----------

  /** Passed over, out of retries, or waiting for answers that nobody was asked for. */
  ghost predicate Blocked(st: State, t: Transfer) {
    t in Held(st) || t in st.stuck || (t in st.waiting && st.waiting[t] == 0)
  }

  lemma ReleaseSpares(st: State, t: Transfer, next: Id, refused: set<Transfer>, y: Transfer)
    requires Leaving(st, t) && y != t && y in st.arrived && y !in st.table.Values && Eligible(st.arrived, y)
    requires Release(st, t, next, refused).Fine?
    ensures var st' := Release(st, t, next, refused).st;
            y in st'.arrived && Eligible(st'.arrived, y) && y !in st'.table.Values
  {
    LeftIsSound(st, t, next);
    var q, aside := Left(st, t, next), Aside(st) + {y};
    StaysEligible(st.arrived, t, y);
    EligibleIsApart(Queues(st.arrived, st.table, next), t, aside);
    DrainChanges(q, t.users, refused, aside);
    EligibleIsQueued(Drain(q, t.users, refused).q.arrived, y);
  }

  lemma ReleaseBlocks(st: State, t: Transfer, next: Id, refused: set<Transfer>, y: Transfer)
    requires Leaving(st, t) && y != t && Blocked(st, y)
    requires Release(st, t, next, refused).Fine?
    ensures Blocked(Release(st, t, next, refused).st, y)
  {
    EligibleIsQueued(st.arrived, y);
    ReleaseSpares(st, t, next, refused, y);
  }

  lemma BlockedRequest(own: Channel, st: State, t: Transfer, next: Id, refused: set<Transfer>, y: Transfer)
    requires Inv(st) && Blocked(st, y) && Enabled(st, Request(t, next, refused))
    requires Step(own, st, Request(t, next, refused)).Fine?
    ensures Blocked(Step(own, st, Request(t, next, refused)).st, y)
  {
    RequestCases(own, st, t, next, refused);
    QueuedIsSound(st, t);
    var queued := Queued(st, t);
    EligibleIsQueued(st.arrived, y);
    ArrivalKeepsEligible(st.arrived, t, y);
    HeadsAllIff(queued.arrived, t);
    if t.fieldId !in st.table && First(queued.arrived, t) {
      if t.main && t in refused {
        ReleaseBlocks(queued, t, next, refused, y);
      } else {
        ValuesAfterInsert(st.table, next, t);
      }
    }
  }

  lemma BlockedStep(own: Channel, st: State, e: Event, y: Transfer)
    requires Inv(st) && Blocked(st, y) && Move(own)(st, e).Some?
    ensures Blocked(Move(own)(st, e).value, y)
  {
    EligibleIsQueued(st.arrived, y);
    match e
    case Request(t, next, refused) => BlockedRequest(own, st, t, next, refused, y);
    case Result(id, ok, next, refused) =>
      if id in st.table {
        BlockedResult(own, st, id, ok, next, refused, y);
      }
    case Answer(t, next, refused) =>
      if st.waiting[t] == 1 {
        LeavesWaiting(st, t);
        ReleaseBlocks(st.(waiting := st.waiting - {t}), t, next, refused, y);
      }
    case TimeOut(t, next, refused) =>
      if t.main {
        LeavesMap(st, t.fieldId);
        assert t in st.table.Values;
        ReleaseBlocks(st.(table := st.table - {t.fieldId}), t, next, refused, y);
      }
  }

  lemma BlockedResult(own: Channel, st: State, id: Id, ok: bool, next: Id, refused: set<Transfer>, y: Transfer)
    requires Inv(st) && Blocked(st, y) && id in st.table && Step(own, st, Result(id, ok, next, refused)).Fine?
    ensures Blocked(Step(own, st, Result(id, ok, next, refused)).st, y)
  {
    EligibleIsQueued(st.arrived, y);
    var t, left := st.table[id], st.(table := st.table - {id});
    LeavesMap(st, id);
    assert t in st.table.Values && t != y;
    assert Blocked(left, y);
    if Step(own, st, Result(id, ok, next, refused)) == Release(left, t, next, refused) {
      ReleaseBlocks(left, t, next, refused, y);
    } else if !ok && Tries(left, t) <= MAX_RETRY_PROPOSE_TIMES {
      ValuesAfterInsert(left.table, next, t);
    }
  }

  /** A blocked transfer is never released, and until the end of time nobody who shares a user with it is in progress. */
  lemma BlockedRun(own: Channel, st: State, es: seq<Event>, t: Transfer)
    requires Inv(st) && Blocked(st, t) && Valid(Move(own), st, es)
    ensures var end := End(Move(own), st, es);
            Blocked(end, t) && t !in end.released && forall y | y in Busy(end) && y != t :: !Share(t, y)
  {
    forall x, e | Inv(x) && Blocked(x, t) && Move(own)(x, e).Some?
      ensures Inv(Move(own)(x, e).value) && Blocked(Move(own)(x, e).value, t)
    {
      InvStep(own, x, e);
      BlockedStep(own, x, e, t);
    }
    EndKeeps(Move(own), x => Inv(x) && Blocked(x, t), st, es);
    var end := End(Move(own), st, es);
    EligibleIsQueued(end.arrived, t);
    forall y | y in Busy(end) && y != t
      ensures !Share(t, y)
    {
      EligibleApart(end.arrived, t, y);
    }
  }

  /** A main transfer that has not exactly one receiver, and none on another channel, is blocked by its success. */
  lemma StrandedBySuccess(own: Channel, st: State, id: Id, next: Id, refused: set<Transfer>)
    requires Inv(st) && id in st.table && st.table[id].main && |st.table[id].channels| != 1
    ensures var after := Step(own, st, Result(id, true, next, refused));
            after.Fine? && (Blocked(after.st, st.table[id]) <==> forall i | 0 <= i < |st.table[id].channels| :: st.table[id].channels[i] == own)
  {
    var t := st.table[id];
    LeavesMap(st, id);
    NoRemoteIff(t.channels, own);
  }

  // ---------- the last transfer of a user ----------

  /** Releasing the only transfer queued for one of its users always breaks the program. */
  lemma LastOfUserBreaks(st: State, t: Transfer, u: User, next: Id, refused: set<Transfer>)
    requires Leaving(st, t) && u in t.users && forall x | x in st.arrived && x != t :: u !in x.users
    ensures Release(st, t, next, refused).Faulty?
  {
    LeftIsSound(st, t, next);
    var q := Left(st, t, next);
    DrainEmpties(q, t.users, refused, Aside(st));
    DrainChanges(q, t.users, refused, Aside(st));
    assert Wanted(q, t.users, u);
    var outcome := Drain(q, t.users, refused);
    ProjectHas(q.arrived, u);
    if outcome.Done? {
      ProjectOfPart(outcome.q.arrived, q.arrived, u);
    }
  }
}
