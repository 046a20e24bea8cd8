/**
 The client service as a transition system: six session maps, one counter, and the
 armed timers. `sid` is the field `m_nCltSessionID`.
 */
module ClientSpec {
  import opened WrappingId
  import opened Options
  import opened SessionTable
  import opened Runs

  datatype State<S> = State(table: Table<S>, sid: map<S, Id>, timers: set<S>)

  /** `Reply` also stands for the erasure after a failed send. */
  datatype Event<S> = Insert(kind: nat, s: S) | Reply(kind: nat, id: Id) | Timeout(s: S)

  ghost function Init<S>(kinds: nat, first: Id): State<S> {
    State(EmptyTable(kinds, first), map[], {})
  }

  ghost function InsertSession<S>(st: State<S>, k: nat, s: S): State<S>
    requires k < |st.table.maps|
  {
    State(Issue(st.table, k, s), st.sid[s := st.table.next], st.timers + {s})
  }

  ghost function EraseSession<S>(st: State<S>, k: nat, id: Id): State<S> {
    match Lookup(st.table, k, id)
    case None => st
    case Some(s) => State(Remove(st.table, k, id), st.sid, st.timers - {s})
  }

  /** `OnTimeOut` runs with the timer already out of the queue and erases by the session's own field. */
  ghost function Expire<S>(st: State<S>, s: S): State<S> {
    var fired := st.(timers := st.timers - {s});
    if s in st.table.ticket && s in st.sid then EraseSession(fired, st.table.ticket[s].kind, st.sid[s]) else fired
  }

  ghost predicate Enabled<S>(st: State<S>, e: Event<S>) {
    match e
    case Insert(k, s) => CanIssue(st.table, k, s)
    case Reply(_, _) => true
    case Timeout(s) => s in st.timers
  }

  ghost function Step<S>(st: State<S>, e: Event<S>): State<S>
    requires Enabled(st, e)
  {
    match e
    case Insert(k, s) => InsertSession(st, k, s)
    case Reply(k, id) => EraseSession(st, k, id)
    case Timeout(s) => Expire(st, s)
  }

  ghost predicate Recorded<S>(st: State<S>, s: S)
    requires s in st.table.ticket
  {
    s in st.sid && st.sid[s] == IdOf(st.table, s) && s in st.timers
  }

  ghost predicate Inv<S>(st: State<S>) {
    && TableInv(st.table)
    && (forall s | s in st.table.ticket && Live(st.table, s) :: Recorded(st, s))
    && (forall s | s in st.timers :: Live(st.table, s))
  }

  lemma InvInsert<S>(st: State<S>, k: nat, s: S)
    requires Inv(st) && CanIssue(st.table, k, s)
    ensures Inv(InsertSession(st, k, s))
  {
    InvIssue(st.table, k, s);
    LiveAfterIssue(st.table, k, s);
    var st' := InsertSession(st, k, s);
    forall x | x in st'.table.ticket && Live(st'.table, x)
      ensures Recorded(st', x)
    {
      assert x != s ==> Recorded(st, x);
    }
  }

  lemma InvErase<S>(st: State<S>, k: nat, id: Id)
    requires Inv(st)
    ensures Inv(EraseSession(st, k, id))
  {
    if Has(st.table, k, id) {
      InvRemove(st.table, k, id);
      LiveAfterRemove(st.table, k, id);
      var st' := EraseSession(st, k, id);
      forall x | x in st'.table.ticket && Live(st'.table, x)
        ensures Recorded(st', x)
      {
        assert Recorded(st, x);
      }
    }
  }

  lemma ExpireIsErase<S>(st: State<S>, s: S)
    requires Inv(st) && s in st.timers
    ensures s in st.table.ticket
    ensures Lookup(st.table, st.table.ticket[s].kind, IdOf(st.table, s)) == Some(s)
    ensures Expire(st, s) == EraseSession(st, st.table.ticket[s].kind, IdOf(st.table, s))
  {
    assert Recorded(st, s);
    assert st.timers - {s} - {s} == st.timers - {s};
  }

  lemma InvStep<S>(st: State<S>, e: Event<S>)
    requires Inv(st) && Enabled(st, e)
    ensures Inv(Step(st, e))
  {
    match e
    case Insert(k, s) => InvInsert(st, k, s);
    case Reply(k, id) => InvErase(st, k, id);
    case Timeout(s) =>
      ExpireIsErase(st, s);
      InvErase(st, st.table.ticket[s].kind, IdOf(st.table, s));
  }

  ghost function Move<S>(): (State<S>, Event<S>) -> Option<State<S>> {
    (st: State<S>, e: Event<S>) => if Enabled(st, e) then Some(Step(st, e)) else None
  }

  lemma InvRun<S>(kinds: nat, first: Id, es: seq<Event<S>>)
    requires Valid(Move(), Init(kinds, first), es)
    ensures Inv(End(Move(), Init<S>(kinds, first), es))
  {
    InvEmpty<S>(kinds, first);
    forall x: State<S>, e: Event<S> | Inv(x) && Move()(x, e).Some?
      ensures Inv(Move()(x, e).value)
    {
      InvStep(x, e);
    }
    EndKeeps(Move(), (x: State<S>) => Inv(x), Init<S>(kinds, first), es);
  }

  /** The sessions in the maps. */
  ghost function Stored<S>(t: Table<S>): set<S> {
    set k, id | 0 <= k < |t.maps| && id in t.maps[k] :: t.maps[k][id]
  }

  /** In every reachable state the stored sessions are those with an armed timer, each under its own `m_nCltSessionID`. */
  lemma TableAgreement<S>(kinds: nat, first: Id, es: seq<Event<S>>)
    requires Valid(Move(), Init(kinds, first), es)
    ensures var st := End(Move(), Init<S>(kinds, first), es);
            && Stored(st.table) == st.timers
            && (forall k: nat, id: Id | Has(st.table, k, id) :: OwnId(st, k, id))
            && (forall s | s in st.timers :: s in st.table.ticket && s in st.sid &&
                  Lookup(st.table, st.table.ticket[s].kind, st.sid[s]) == Some(s))
  {
    InvRun(kinds, first, es);
    var st := End(Move(), Init<S>(kinds, first), es);
    forall k: nat, id: Id | Has(st.table, k, id)
      ensures OwnId(st, k, id) && st.table.maps[k][id] in st.timers
    {
      EntryIsLive(st.table, k, id);
      assert Recorded(st, st.table.maps[k][id]);
    }
    forall s | s in st.timers
      ensures s in Stored(st.table)
    {
      assert Recorded(st, s) && Has(st.table, st.table.ticket[s].kind, IdOf(st.table, s));
    }
  }

  ghost predicate OwnId<S>(st: State<S>, k: nat, id: Id)
    requires Has(st.table, k, id)
  {
    st.table.maps[k][id] in st.sid && st.sid[st.table.maps[k][id]] == id
  }
}
