/** The HLS service's transfers as a transition system, with the ids that the code really asks for. */
module TransferSpec {
  import opened WrappingId
  import opened TransferOrder
  import opened TransferRelease

  /**
   `table` is `m_mapTransfer`. `waiting` counts the answers of other channels that a
   main transfer still waits for. `stuck` have used up their retries. `tries` is
   `m_nRetryTimes`, 0 where nothing is recorded.
   */
  datatype State = State(arrived: seq<Transfer>, table: map<Id, Transfer>, waiting: map<Transfer, nat>,
                         stuck: set<Transfer>, tries: map<Transfer, nat>, released: set<Transfer>)

  /**
   The counter `next` is shared with three other maps, so it is new in every event;
   `refused` are the transfers whose proposal is not taken during the event.
   */
  datatype Event =
    | Request(t: Transfer, next: Id, refused: set<Transfer>)
    | Result(id: Id, ok: bool, next: Id, refused: set<Transfer>)
    | Answer(t: Transfer, next: Id, refused: set<Transfer>)
    | TimeOut(t: Transfer, next: Id, refused: set<Transfer>)

  datatype After = Fine(st: State) | Faulty(why: Fault)

  const Empty := State([], map[], map[], {}, map[], {})

  ghost function Aside(st: State): set<Transfer> {
    st.waiting.Keys + st.stuck
  }

  ghost function Busy(st: State): set<Transfer> {
    st.table.Values + Aside(st)
  }

  ghost function Tries(st: State, t: Transfer): nat {
    if t in st.tries then st.tries[t] else 0
  }

  /** A transfer newly in the map whose proposal was refused waits for its first retry. */
  ghost function FirstTries(table: map<Id, Transfer>, q: Queues, refused: set<Transfer>): map<Transfer, nat> {
    map t | t in q.table.Values && t !in table.Values && t in refused :: 1
  }

  ghost function Settle(st: State, outcome: Outcome, refused: set<Transfer>): After {
    match outcome
    case Broken(why, _) => Faulty(why)
    case Done(q) =>
      Fine(State(q.arrived, q.table, st.waiting, st.stuck, st.tries + FirstTries(st.table, q, refused),
                 st.released + set t | t in st.arrived && t !in q.arrived))
  }

  ghost function Left(st: State, t: Transfer, next: Id): Queues {
    Queues(Without(st.arrived, t), st.table, next)
  }

  /** `ReleaseTransferSession`. */
  ghost function Release(st: State, t: Transfer, next: Id, refused: set<Transfer>): After {
    Settle(st, Drain(Left(st, t, next), t.users, refused), refused)
  }

  /** `OnProposeFailed`. */
  ghost function Fail(st: State, t: Transfer, next: Id, refused: set<Transfer>): After {
    if t.main then Release(st, t, next, refused)
    else if Tries(st, t) > MAX_RETRY_PROPOSE_TIMES then Fine(st.(stuck := st.stuck + {t}))
    else if next in st.table then Faulty(KeyTaken)
    else Fine(st.(table := st.table[next := t], tries := st.tries[t := Tries(st, t) + 1]))
  }

  /** `OnProposeSuccess`; a record of the proposal is kept unless there is exactly one receiver. */
  ghost function Succeed(own: Channel, st: State, t: Transfer, next: Id, refused: set<Transfer>): After {
    if t.main && |t.channels| != 1 then Fine(st.(waiting := st.waiting[t := CountRemote(t.channels, own)]))
    else Release(st, t, next, refused)
  }

  /** `MaybeRetryProposeOnFailed`: the map is told to forget the id in the field; a retry inserts a session that is still linked. */
  ghost function Expire(st: State, t: Transfer, next: Id, refused: set<Transfer>): After {
    if t.main then
      if t.fieldId in st.table && st.table[t.fieldId] == t then Release(st.(table := st.table - {t.fieldId}), t, next, refused)
      else Faulty(FreedInMap)
    else if Tries(st, t) > MAX_RETRY_PROPOSE_TIMES then Fine(st)
    else if t in refused && Tries(st, t) + 1 > MAX_RETRY_PROPOSE_TIMES then Fine(st.(tries := st.tries[t := Tries(st, t) + 1]))
    else Faulty(LinkedTwice)
  }

  ghost predicate Enabled(st: State, e: Event) {
    match e
    case Request(t, _, _) => t !in st.arrived && t !in st.released && t !in st.tries
    case Result(_, _, _, _) => true
    case Answer(t, _, _) => t in st.waiting && st.waiting[t] > 0
    case TimeOut(t, _, _) => t in st.table.Values
  }

  ghost function Step(own: Channel, st: State, e: Event): After
    requires Enabled(st, e)
  {
    match e
    case Request(t, next, refused) =>
      var all := st.arrived + [t];
      Settle(st.(arrived := all), Resume(Queues(all, st.table, next), t, [], refused), refused)
    case Result(id, ok, next, refused) =>
      if id !in st.table then Fine(st)
      else if ok then Succeed(own, st.(table := st.table - {id}), st.table[id], next, refused)
      else Fail(st.(table := st.table - {id}), st.table[id], next, refused)
    case Answer(t, next, refused) =>
      if st.waiting[t] > 1 then Fine(st.(waiting := st.waiting[t := st.waiting[t] - 1]))
      else Release(st.(waiting := st.waiting - {t}), t, next, refused)
    case TimeOut(t, next, refused) => Expire(st, t, next, refused)
  }

  // ---------- what every event keeps ----------

  ghost predicate Inv(st: State) {
    && Sound(Queues(st.arrived, st.table, 0), Aside(st))
    && st.waiting.Keys !! st.stuck
    && (forall t | t in st.arrived :: t !in st.released)
    && (forall t | t in st.arrived && t !in Busy(st) :: Tries(st, t) == 0)
    && (forall t | t in st.tries :: t in st.arrived || t in st.released)
  }

  /** Everything but `t`, which has just left the map or the waiting. */
  ghost predicate Leaving(st: State, t: Transfer) {
    && Sound(Queues(st.arrived, st.table, 0), Aside(st))
    && st.waiting.Keys !! st.stuck
    && (forall x | x in st.arrived :: x !in st.released)
    && (forall x | x in st.arrived && x !in Busy(st) && x != t :: Tries(st, x) == 0)
    && (forall x | x in st.tries :: x in st.arrived || x in st.released)
    && t in st.arrived && t !in Busy(st) && Eligible(st.arrived, t)
  }

  lemma LeavesMap(st: State, id: Id)
    requires Inv(st) && id in st.table
    ensures Leaving(st.(table := st.table - {id}), st.table[id])
  {
    var t, st' := st.table[id], st.(table := st.table - {id});
    assert t in st.table.Values;
    EligibleIsQueued(st.arrived, t);
    forall x | x in st.table.Values && x != t
      ensures x in st'.table.Values
    {
      var i :| i in st.table && st.table[i] == x;
      assert i in st'.table && st'.table[i] == x;
    }
    assert forall i | i in st'.table :: st'.table[i] != t;
  }

  lemma LeavesWaiting(st: State, t: Transfer)
    requires Inv(st) && t in st.waiting
    ensures Leaving(st.(waiting := st.waiting - {t}), t)
  {
    EligibleIsQueued(st.arrived, t);
  }

  /** The state in which the wake-ups after a release start. */
  lemma LeftIsSound(st: State, t: Transfer, next: Id)
    requires Leaving(st, t)
    ensures Sound(Left(st, t, next), Aside(st)) && Apart(t.users, Busy(st))
    ensures forall x | x in Left(st, t, next).arrived :: x in st.arrived && x != t
    ensures forall x | x in st.arrived && x != t :: x in Left(st, t, next).arrived
  {
    var i := WithoutPositions(st.arrived, t);
    WithoutSplit(st.arrived, t, i);
    forall b | b in Busy(st)
      ensures Eligible(Without(st.arrived, t), b)
    {
      StaysEligible(st.arrived, t, b);
    }
    EligibleIsApart(Queues(st.arrived, st.table, next), t, Busy(st));
  }

  lemma InvSettle(st: State, q: Queues, due: seq<User>, refused: set<Transfer>)
    requires Sound(q, Aside(st)) && Apart(due, Aside(st)) && q.table == st.table
    requires st.waiting.Keys !! st.stuck
    requires forall x | x in st.arrived :: x !in st.released
    requires forall x | x in q.arrived :: x in st.arrived
    requires forall x | x in q.arrived && x !in Busy(st) :: Tries(st, x) == 0
    requires forall x | x in st.tries :: x in st.arrived || x in st.released
    ensures var after := Settle(st, Drain(q, due, refused), refused); after.Fine? ==> Inv(after.st)
  {
    DrainChanges(q, due, refused, Aside(st));
    var after := Settle(st, Drain(q, due, refused), refused);
    if after.Fine? {
      var q', st' := Drain(q, due, refused).q, after.st;
      forall x | x in st.table.Values
        ensures x in st'.table.Values
      {
        var id :| id in st.table && st.table[id] == x;
        assert st'.table[id] == x;
      }
      forall x | x in st'.arrived && x !in Busy(st')
        ensures Tries(st', x) == 0
      {
        assert x in q.arrived;
      }
    }
  }

  lemma InvRelease(st: State, t: Transfer, next: Id, refused: set<Transfer>)
    requires Leaving(st, t)
    ensures var after := Release(st, t, next, refused); after.Fine? ==> Inv(after.st) && t in after.st.released
  {
    LeftIsSound(st, t, next);
    InvSettle(st, Left(st, t, next), t.users, refused);
    DrainChanges(Left(st, t, next), t.users, refused, Aside(st));
  }

  /** A request is put at the end of the queues. */
  ghost function Queued(st: State, t: Transfer): State {
    st.(arrived := st.arrived + [t])
  }

  lemma QueuedIsSound(st: State, t: Transfer)
    requires Inv(st) && t !in st.arrived
    ensures var st' := Queued(st, t);
            Sound(Queues(st'.arrived, st.table, 0), Aside(st)) && t !in Busy(st) && t in st'.arrived
    ensures forall x | x in Queued(st, t).arrived && x != t :: x in st.arrived
  {
    forall b | b in Busy(st)
      ensures b in st.arrived && Eligible(st.arrived + [t], b)
    {
      EligibleIsQueued(st.arrived, b);
      ArrivalKeepsEligible(st.arrived, t, b);
    }
    var all := st.arrived + [t];
    assert all[|st.arrived|] == t;
  }

  lemma SettleSame(st: State, next: Id, refused: set<Transfer>)
    ensures Settle(st, Done(Queues(st.arrived, st.table, next)), refused) == Fine(st)
  {
    var q := Queues(st.arrived, st.table, next);
    assert st.released + (set x | x in st.arrived && x !in q.arrived) == st.released;
    assert FirstTries(st.table, q, refused) == map[];
    assert st.tries + map[] == st.tries;
  }

  lemma SettleInsert(st: State, t: Transfer, next: Id, refused: set<Transfer>)
    requires t !in st.table.Values && next !in st.table
    ensures var q := Queues(st.arrived, st.table[next := t], Next(next));
            Settle(st, Done(q), refused)
            == Fine(st.(table := st.table[next := t], tries := if t in refused then st.tries[t := 1] else st.tries))
  {
    var q := Queues(st.arrived, st.table[next := t], Next(next));
    ValuesAfterInsert(st.table, next, t);
    assert st.released + (set x | x in st.arrived && x !in q.arrived) == st.released;
    assert FirstTries(st.table, q, refused) == if t in refused then map[t := 1] else map[];
    assert st.tries + map[] == st.tries;
    assert st.tries + map[t := 1] == st.tries[t := 1];
  }

  /** Without wake-ups due, asking a new transfer comes down to four cases. */
  lemma RequestCases(own: Channel, st: State, t: Transfer, next: Id, refused: set<Transfer>)
    requires Inv(st) && Enabled(st, Request(t, next, refused))
    ensures var st', after := Queued(st, t), Step(own, st, Request(t, next, refused));
            if t.fieldId in st.table || !First(st'.arrived, t) then after == Fine(st')
            else if t.main && t in refused then after == Release(st', t, next, refused)
            else if next in st.table then after == Faulty(KeyTaken)
            else after == Fine(st'.(table := st.table[next := t], tries := if t in refused then st.tries[t := 1] else st.tries))
  {
    QueuedIsSound(st, t);
    var st' := Queued(st, t);
    var q := Queues(st'.arrived, st.table, next);
    if t.fieldId in st.table || !First(st'.arrived, t) {
      assert Resume(q, t, [], refused) == Done(q);
      SettleSame(st', next, refused);
    } else if t.main && t in refused {
      assert t.users + [] == t.users;
    } else if next !in st.table {
      assert Resume(q, t, [], refused) == Done(Queues(st'.arrived, st.table[next := t], Next(next)));
      SettleInsert(st', t, next, refused);
    }
  }

  lemma ValuesAfterInsert(table: map<Id, Transfer>, id: Id, t: Transfer)
    requires id !in table
    ensures table[id := t].Values == table.Values + {t}
  {
    var more := table[id := t];
    forall x | x in table.Values + {t}
      ensures x in more.Values
    {
      if x in table.Values {
        var i :| i in table && table[i] == x;
        assert more[i] == x;
      } else {
        assert more[id] == t;
      }
    }
  }

  /** Going into the map, for a transfer entitled to it. */
  lemma InvInsert(st: State, t: Transfer, id: Id, tries: nat)
    requires Leaving(st, t) && id !in st.table
    ensures Inv(st.(table := st.table[id := t], tries := st.tries[t := tries]))
    ensures Tries(st, t) == 0 ==> Inv(st.(table := st.table[id := t]))
  {
    ValuesAfterInsert(st.table, id, t);
  }

  lemma InvRequest(own: Channel, st: State, t: Transfer, next: Id, refused: set<Transfer>)
    requires Inv(st) && Enabled(st, Request(t, next, refused))
    ensures var after := Step(own, st, Request(t, next, refused)); after.Fine? ==> Inv(after.st)
  {
    RequestCases(own, st, t, next, refused);
    QueuedIsSound(st, t);
    var st' := Queued(st, t);
    HeadsAllIff(st'.arrived, t);
    if t.fieldId !in st.table && First(st'.arrived, t) {
      if t.main && t in refused {
        InvRelease(st', t, next, refused);
      } else if next !in st.table {
        InvInsert(st', t, next, 1);
      }
    }
  }

  lemma InvFail(st: State, t: Transfer, next: Id, refused: set<Transfer>)
    requires Leaving(st, t)
    ensures var after := Fail(st, t, next, refused); after.Fine? ==> Inv(after.st)
  {
    if t.main {
      InvRelease(st, t, next, refused);
    } else if Tries(st, t) <= MAX_RETRY_PROPOSE_TIMES && next !in st.table {
      InvInsert(st, t, next, Tries(st, t) + 1);
    }
  }

  lemma InvSucceed(own: Channel, st: State, t: Transfer, next: Id, refused: set<Transfer>)
    requires Leaving(st, t)
    ensures var after := Succeed(own, st, t, next, refused); after.Fine? ==> Inv(after.st)
  {
    if !(t.main && |t.channels| != 1) {
      InvRelease(st, t, next, refused);
    }
  }

  lemma InvExpire(st: State, t: Transfer, next: Id, refused: set<Transfer>)
    requires Inv(st) && t in st.table.Values
    ensures var after := Expire(st, t, next, refused); after.Fine? ==> Inv(after.st)
  {
    EligibleIsQueued(st.arrived, t);
    if t.main && t.fieldId in st.table && st.table[t.fieldId] == t {
      LeavesMap(st, t.fieldId);
      InvRelease(st.(table := st.table - {t.fieldId}), t, next, refused);
    }
  }

  /** Whatever event ends well, ends in a state with the invariant. */
  lemma InvStep(own: Channel, st: State, e: Event)
    requires Inv(st) && Enabled(st, e)
    ensures Step(own, st, e).Fine? ==> Inv(Step(own, st, e).st)
  {
    match e
    case Request(t, next, refused) => InvRequest(own, st, t, next, refused);
    case Result(id, ok, next, refused) =>
      if id in st.table {
        LeavesMap(st, id);
        InvFail(st.(table := st.table - {id}), st.table[id], next, refused);
        InvSucceed(own, st.(table := st.table - {id}), st.table[id], next, refused);
      }
    case Answer(t, next, refused) =>
      LeavesWaiting(st, t);
      InvRelease(st.(waiting := st.waiting - {t}), t, next, refused);
    case TimeOut(t, next, refused) => InvExpire(st, t, next, refused);
  }

  /** Two transfers in progress never have a user in common. */
  lemma MutualExclusion(st: State, x: Transfer, y: Transfer)
    requires Inv(st) && x in Busy(st) && y in Busy(st) && x != y
    ensures !Share(x, y)
  {
    EligibleApart(st.arrived, x, y);
  }

  // ---------- who is passed over ----------

  /** Entitled to be in progress, and passed over. */
  ghost function Held(st: State): set<Transfer> {
    set y | y in st.arrived && y !in Busy(st) && Eligible(st.arrived, y)
  }

  /** Those that the wake-ups after the release of `t` cannot reach. */
  ghost function Beyond(st: State, t: Transfer): set<Transfer> {
    Aside(st) + (Held(st) - {t})
  }

  lemma LeftIsReached(st: State, t: Transfer, next: Id)
    requires Leaving(st, t)
    ensures Sound(Left(st, t, next), Beyond(st, t)) && Apart(t.users, Beyond(st, t) + st.table.Values)
    ensures Reached(Left(st, t, next), t.users, Beyond(st, t), null)
  {
    LeftIsSound(st, t, next);
    var q, beyond := Left(st, t, next), Beyond(st, t);
    forall b | b in beyond
      ensures b in st.arrived && Eligible(st.arrived, b) && Eligible(q.arrived, b)
    {
      EligibleIsQueued(st.arrived, b);
      StaysEligible(st.arrived, t, b);
    }
    EligibleIsApart(Queues(st.arrived, st.table, next), t, beyond + st.table.Values);
    forall y | y in q.arrived && Idle(q, beyond, y) && y.fieldId !in q.table
      ensures exists u :: u in t.users && u in y.users
    {
      NewlyEligible(st.arrived, t, y);
      assert Eligible(st.arrived, y) ==> y in Held(st);
    }
  }

  /** Keys for all that can happen in the event are neither in use nor in anybody's field. */
  ghost predicate Roomy(st: State, next: Id) {
    |st.arrived| < MODULUS && forall i: nat | i <= |st.arrived| :: Unused(Queues(st.arrived, st.table, next), Nth(next, i))
  }

  lemma {:induction false} SetOfSeq(a: seq<Transfer>, s: set<Transfer>)
    requires forall x | x in s :: x in a
    ensures |s| <= |a|
  {
    if a != [] {
      var rest := a[1..];
      assert forall x | x in s && x != a[0] :: x in rest;
      SetOfSeq(rest, s - {a[0]});
      SubsetSize(s, (s - {a[0]}) + {a[0]});
    } else {
      assert s == {};
    }
  }

  lemma LeftIsSpare(st: State, t: Transfer, next: Id)
    requires Leaving(st, t) && Roomy(st, next)
    ensures Spare(Left(st, t, next))
  {
    LeftIsSound(st, t, next);
    var q := Left(st, t, next);
    SetOfSeq(st.arrived, Unproposed(q));
    forall i: nat | i < |Unproposed(q)|
      ensures Unused(q, Nth(next, i))
    {
      assert Unused(Queues(st.arrived, st.table, next), Nth(next, i));
    }
  }

  /** A release ends well if and only if it deserts no user and proposes nothing hastily. */
  lemma ReleaseFineIff(st: State, t: Transfer, next: Id, refused: set<Transfer>)
    requires Leaving(st, t) && Roomy(st, next)
    ensures var q, beyond := Left(st, t, next), Beyond(st, t);
            var deserts, hasty := !NobodyDeserted(q, t.users, refused, beyond), Hasty(q, t.users, refused);
            && (Release(st, t, next, refused).Fine? <==> !deserts && !hasty)
            && (!hasty ==> (Release(st, t, next, refused) == Faulty(EmptyFront) <==> deserts))
            && (!deserts ==> (Release(st, t, next, refused) == Faulty(ProposedTwice) <==> hasty))
  {
    LeftIsReached(st, t, next);
    LeftIsSpare(st, t, next);
    DoneIff(Left(st, t, next), t.users, refused, Beyond(st, t));
  }

  /**
   If no main transfer is refused and somebody is left in each queue, a release makes
   the code propose twice exactly if a transfer that becomes free has two places among
   the released one's users.
   */
  lemma ProposedTwiceIff(st: State, t: Transfer, next: Id, refused: set<Transfer>)
    requires Leaving(st, t) && Roomy(st, next)
    requires forall x | x in st.arrived :: !(x.main && x in refused)
    requires forall u | u in t.users :: Project(Without(st.arrived, t), u) != []
    ensures Release(st, t, next, refused) == Faulty(ProposedTwice)
            <==> exists y :: y in Without(st.arrived, t) && Free(Left(st, t, next), Beyond(st, t), y) && TwoDue(t.users, y)
  {
    var q, beyond := Left(st, t, next), Beyond(st, t);
    LeftIsReached(st, t, next);
    LeftIsSpare(st, t, next);
    LeftIsSound(st, t, next);
    assert Doomed(q, refused, beyond) == {};
    SurvivorsAll(q.arrived, {});
    DoneIff(q, t.users, refused, beyond);
    HastyIff(q, t.users, refused, beyond);
  }

  /** After a release, held back are those that were before and those that became entitled with a key in use in their field. */
  lemma ReleaseHolds(st: State, t: Transfer, next: Id, refused: set<Transfer>)
    requires Leaving(st, t) && Roomy(st, next) && Release(st, t, next, refused).Fine?
    ensures var st' := Release(st, t, next, refused).st;
            forall y | y in st'.arrived ::
              y in Held(st') <==> y in Held(st) || (Eligible(st'.arrived, y) && !Eligible(st.arrived, y) && y.fieldId in st.table)
    ensures forall y | y in Held(st) && y != t :: y in Release(st, t, next, refused).st.arrived
  {
    var q, beyond := Left(st, t, next), Beyond(st, t);
    var st' := Release(st, t, next, refused).st;
    LeftIsReached(st, t, next);
    LeftIsSpare(st, t, next);
    LeftIsSound(st, t, next);
    DrainChanges(q, t.users, refused, beyond);
    DrainReaches(q, t.users, refused, beyond);
    DrainFields(q, t.users, refused, beyond);
    var q' := Drain(q, t.users, refused).q;
    forall y | y in st'.arrived
      ensures y in Held(st') <==> y in Held(st) || (Eligible(st'.arrived, y) && !Eligible(st.arrived, y) && y.fieldId in st.table)
    {
      HeldAfter(st, t, q, q', y, refused);
    }
    forall y | y in Held(st) && y != t
      ensures y in st'.arrived
    {
      assert y in beyond;
      EligibleIsQueued(q'.arrived, y);
    }
  }

  lemma HeldAfter(st: State, t: Transfer, q: Queues, q': Queues, y: Transfer, refused: set<Transfer>)
    requires Leaving(st, t) && q == Left(st, t, q.next) && y in q'.arrived && y in q.arrived && y != t && y in st.arrived
    requires Sound(q', Beyond(st, t)) && Reached(q', [], Beyond(st, t), null)
    requires forall id | id in q.table :: id in q'.table && q'.table[id] == q.table[id]
    requires y.fieldId in q'.table <==> y.fieldId in q.table
    requires y in q'.table.Values && y !in q.table.Values ==> y.fieldId !in q.table
    ensures y in q'.table.Values + Aside(st) || !Eligible(q'.arrived, y)
            <==> !(y in Held(st) || (Eligible(q'.arrived, y) && !Eligible(st.arrived, y) && y.fieldId in st.table))
  {
    if y in st.table.Values {
      var id :| id in st.table && st.table[id] == y;
      assert q'.table[id] == y;
      assert Eligible(st.arrived, y) && Eligible(q'.arrived, y);
    } else if y in Held(st) {
      assert y in Beyond(st, t);
    } else if y !in Aside(st) && Eligible(q'.arrived, y) && y !in q'.table.Values {
      assert Idle(q', Beyond(st, t), y);
    }
  }

  /** Whoever was held back still is; newly held back is who became entitled while its field was among `keys`. */
  ghost predicate HeldGrows(st: State, st': State, keys: set<Id>) {
    && (forall y | y in Held(st) :: y in st'.arrived)
    && (forall y | y in st'.arrived ::
          y in Held(st') <==> y in Held(st) || (Eligible(st'.arrived, y) && !Eligible(st.arrived, y) && y.fieldId in keys))
  }

  /** The keys in use when the event's wake-ups ask. */
  ghost function KeysThen(st: State, e: Event): set<Id> {
    match e
    case Result(id, _, _, _) => st.table.Keys - {id}
    case TimeOut(t, _, _) => if t.main then st.table.Keys - {t.fieldId} else st.table.Keys
    case _ => st.table.Keys
  }

  ghost predicate RoomFor(st: State, e: Event) {
    Roomy(if e.Request? then Queued(st, e.t) else st, e.next)
  }

  lemma LeavingHeld(st: State, st': State, t: Transfer)
    requires st'.arrived == st.arrived && Busy(st) == Busy(st') + {t} && t in st.arrived && t !in Busy(st')
    requires Eligible(st.arrived, t)
    ensures Held(st') == Held(st) + {t}
  {
  }

  lemma ReleaseGrows(st: State, st': State, t: Transfer, next: Id, refused: set<Transfer>)
    requires Leaving(st', t) && Roomy(st', next) && Release(st', t, next, refused).Fine?
    requires Held(st') == Held(st) + {t} && t !in Held(st)
    requires forall y | y != t :: Eligible(st'.arrived, y) <==> Eligible(st.arrived, y)
    ensures HeldGrows(st, Release(st', t, next, refused).st, st'.table.Keys)
  {
    ReleaseHolds(st', t, next, refused);
    LeftIsSound(st', t, next);
    DrainChanges(Left(st', t, next), t.users, refused, Aside(st'));
  }

  lemma RoomyWithout(st: State, st': State, next: Id)
    requires Roomy(st, next) && st'.arrived == st.arrived && st'.table.Keys <= st.table.Keys
    ensures Roomy(st', next)
  {
    forall i: nat | i <= |st.arrived|
      ensures Unused(Queues(st'.arrived, st'.table, next), Nth(next, i))
    {
      assert Unused(Queues(st.arrived, st.table, next), Nth(next, i));
    }
  }

  lemma RequestGrows(own: Channel, st: State, t: Transfer, next: Id, refused: set<Transfer>)
    requires Inv(st) && Enabled(st, Request(t, next, refused)) && RoomFor(st, Request(t, next, refused))
    requires Step(own, st, Request(t, next, refused)).Fine?
    ensures HeldGrows(st, Step(own, st, Request(t, next, refused)).st, st.table.Keys)
  {
    RequestCases(own, st, t, next, refused);
    QueuedIsSound(st, t);
    var queued, st' := Queued(st, t), Step(own, st, Request(t, next, refused)).st;
    forall y | y != t
      ensures Eligible(queued.arrived, y) <==> Eligible(st.arrived, y)
    {
      ArrivalKeepsEligible(st.arrived, t, y);
    }
    HeadsAllIff(queued.arrived, t);
    if t.fieldId !in st.table && First(queued.arrived, t) {
      if t.main && t in refused {
        assert Held(queued) == Held(st) + {t};
        ReleaseGrows(st, queued, t, next, refused);
      } else {
        ValuesAfterInsert(st.table, next, t);
        assert Eligible(st.arrived, t) ==> t in st.arrived by {
          if Eligible(st.arrived, t) {
            EligibleIsQueued(st.arrived, t);
          }
        }
      }
    } else if Eligible(st.arrived, t) {
      EligibleIsQueued(st.arrived, t);
    }
  }

  lemma SameBusyGrows(st: State, st': State, keys: set<Id>)
    requires st'.arrived == st.arrived && Busy(st') == Busy(st)
    ensures HeldGrows(st, st', keys)
  {
  }

  lemma TakenOut(st: State, id: Id, next: Id)
    requires Inv(st) && id in st.table && Roomy(st, next)
    ensures var t, left := st.table[id], st.(table := st.table - {id});
            Leaving(left, t) && Busy(st) == Busy(left) + {t} && Held(left) == Held(st) + {t} && t !in Held(st) && Roomy(left, next)
  {
    var t, left := st.table[id], st.(table := st.table - {id});
    LeavesMap(st, id);
    assert left.table[id := t] == st.table;
    ValuesAfterInsert(left.table, id, t);
    LeavingHeld(st, left, t);
    RoomyWithout(st, left, next);
  }

  lemma ResultGrows(own: Channel, st: State, id: Id, ok: bool, next: Id, refused: set<Transfer>)
    requires Inv(st) && id in st.table && Roomy(st, next)
    requires Step(own, st, Result(id, ok, next, refused)).Fine?
    ensures HeldGrows(st, Step(own, st, Result(id, ok, next, refused)).st, st.table.Keys - {id})
  {
    var t, left := st.table[id], st.(table := st.table - {id});
    var st' := Step(own, st, Result(id, ok, next, refused)).st;
    TakenOut(st, id, next);
    if Step(own, st, Result(id, ok, next, refused)) == Release(left, t, next, refused) {
      ReleaseGrows(st, left, t, next, refused);
    } else if ok {
      SameBusyGrows(st, st', st.table.Keys - {id});
    } else if Tries(left, t) > MAX_RETRY_PROPOSE_TIMES {
      SameBusyGrows(st, st', st.table.Keys - {id});
    } else {
      ValuesAfterInsert(left.table, next, t);
      SameBusyGrows(st, st', st.table.Keys - {id});
    }
  }

  lemma AnswerGrows(own: Channel, st: State, t: Transfer, next: Id, refused: set<Transfer>)
    requires Inv(st) && Enabled(st, Answer(t, next, refused)) && Roomy(st, next)
    requires Step(own, st, Answer(t, next, refused)).Fine?
    ensures HeldGrows(st, Step(own, st, Answer(t, next, refused)).st, st.table.Keys)
  {
    var left := st.(waiting := st.waiting - {t});
    LeavesWaiting(st, t);
    if st.waiting[t] == 1 {
      LeavingHeld(st, left, t);
      RoomyWithout(st, left, next);
      ReleaseGrows(st, left, t, next, refused);
    }
  }

  lemma TimeOutGrows(own: Channel, st: State, t: Transfer, next: Id, refused: set<Transfer>)
    requires Inv(st) && Enabled(st, TimeOut(t, next, refused)) && Roomy(st, next)
    requires Step(own, st, TimeOut(t, next, refused)).Fine?
    ensures HeldGrows(st, Step(own, st, TimeOut(t, next, refused)).st, KeysThen(st, TimeOut(t, next, refused)))
  {
    if t.main {
      TakenOut(st, t.fieldId, next);
      var left := st.(table := st.table - {t.fieldId});
      ReleaseGrows(st, left, t, next, refused);
    }
  }

  lemma StepGrows(own: Channel, st: State, e: Event)
    requires Inv(st) && Enabled(st, e) && RoomFor(st, e) && Step(own, st, e).Fine?
    ensures HeldGrows(st, Step(own, st, e).st, KeysThen(st, e))
  {
    match e
    case Request(t, next, refused) => RequestGrows(own, st, t, next, refused);
    case Result(id, ok, next, refused) =>
      if id in st.table {
        ResultGrows(own, st, id, ok, next, refused);
      }
    case Answer(t, next, refused) => AnswerGrows(own, st, t, next, refused);
    case TimeOut(t, next, refused) => TimeOutGrows(own, st, t, next, refused);
  }
}
