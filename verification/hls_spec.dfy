/**
 The HLS service's session tables as a transition system. `sid` is the field
 `m_nHlsSessionID`, `addr` the field `m_srcMsgAddr`. Only `InsertSession` writes
 the first; the two transfer maps are filled by inserts that arm a timer and leave
 it alone.
 */
module HlsSpec {
  import opened WrappingId
  import opened Options
  import opened SessionTable
  import opened Runs

  const REGISTER: nat := 0
  const CHECK_QUERY: nat := 1
  const TRANSFER: nat := 2
  const TRANSFER_TO_HLS: nat := 3
  const KINDS: nat := 4

  /** The session classes that are timer handlers. */
  predicate Timed(kind: nat) {
    kind == TRANSFER || kind == TRANSFER_TO_HLS
  }

  datatype State<S, A> = State(table: Table<S>, sid: map<S, Id>, addr: map<S, A>, timers: set<S>)

  datatype Event<S, A> =
    | Insert(kind: nat, s: S, a: A)
    | SetAddress(s: S, a: A)
    | ArmAndInsert(kind: nat, s: S)
    | Erase(kind: nat, id: Id)
    | EraseTimer(kind: nat, id: Id)
    | Fire(s: S)
    | Rearm(s: S)

  ghost function Init<S, A>(): State<S, A> {
    State(EmptyTable(KINDS, 1), map[], map[], {})
  }

  ghost function InsertSession<S, A>(st: State<S, A>, k: nat, s: S, a: A): State<S, A>
    requires k < |st.table.maps|
  {
    State(Issue(st.table, k, s), st.sid[s := st.table.next], st.addr[s := a], st.timers)
  }

  ghost function FindSession<S, A>(st: State<S, A>, k: nat, id: Id): Option<S> {
    Lookup(st.table, k, id)
  }

  /** Plain `EraseSession`: the timer queue is not touched. */
  ghost function EraseSession<S, A>(st: State<S, A>, k: nat, id: Id): State<S, A> {
    st.(table := Remove(st.table, k, id))
  }

  ghost function EraseTimerSession<S, A>(st: State<S, A>, k: nat, id: Id): State<S, A> {
    match FindSession(st, k, id)
    case None => st
    case Some(s) => st.(table := Remove(st.table, k, id), timers := st.timers - {s})
  }

  /** The entry that an erase would find belongs to a session whose timer is armed. */
  ghost predicate FindsArmed<S, A>(st: State<S, A>, k: nat, id: Id) {
    Has(st.table, k, id) && st.table.maps[k][id] in st.timers
  }

  /** The plain form is only for sessions without an armed timer; nothing else is asked of either form. */
  ghost predicate Enabled<S, A>(st: State<S, A>, e: Event<S, A>) {
    match e
    case Insert(k, s, a) => CanIssue(st.table, k, s)
    case SetAddress(s, a) => !Live(st.table, s)
    case ArmAndInsert(k, s) => CanIssue(st.table, k, s)
    case Erase(k, id) => !FindsArmed(st, k, id)
    case EraseTimer(k, id) => true
    case Fire(s) => s in st.timers
    case Rearm(s) => Live(st.table, s)
  }

  ghost function Step<S, A>(st: State<S, A>, e: Event<S, A>): State<S, A>
    requires Enabled(st, e)
  {
    match e
    case Insert(k, s, a) => InsertSession(st, k, s, a)
    case SetAddress(s, a) => st.(addr := st.addr[s := a])
    case ArmAndInsert(k, s) => st.(table := Issue(st.table, k, s), timers := st.timers + {s})
    case Erase(k, id) => EraseSession(st, k, id)
    case EraseTimer(k, id) => EraseTimerSession(st, k, id)
    case Fire(s) => st.(timers := st.timers - {s})
    case Rearm(s) => st.(timers := st.timers + {s})
  }

  /** No armed timer refers to a session outside the maps. */
  ghost predicate TimersSafe<S, A>(st: State<S, A>) {
    forall s | s in st.timers :: Live(st.table, s)
  }

  ghost predicate Inv<S, A>(st: State<S, A>) {
    TableInv(st.table) && TimersSafe(st)
  }

  lemma InvInit<S, A>()
    ensures Inv(Init<S, A>())
  {
    InvEmpty<S>(KINDS, 1);
  }

  lemma InvStep<S, A>(st: State<S, A>, e: Event<S, A>)
    requires Inv(st) && Enabled(st, e)
    ensures Inv(Step(st, e))
  {
    match e {
      case Insert(k, s, a) =>
        InvIssue(st.table, k, s);
        LiveAfterIssue(st.table, k, s);
      case ArmAndInsert(k, s) =>
        InvIssue(st.table, k, s);
        LiveAfterIssue(st.table, k, s);
      case Erase(k, id) =>
        RemoveKeeps(st, k, id);
      case EraseTimer(k, id) =>
        RemoveKeeps(st, k, id);
      case SetAddress(_, _) =>
      case Fire(_) =>
      case Rearm(_) =>
    }
  }

  lemma RemoveKeeps<S, A>(st: State<S, A>, k: nat, id: Id)
    requires Inv(st)
    ensures TableInv(Remove(st.table, k, id))
    ensures Has(st.table, k, id) ==>
              && Live(st.table, st.table.maps[k][id]) && st.table.ticket[st.table.maps[k][id]].kind == k
              && forall s :: Live(Remove(st.table, k, id), s) <==> Live(st.table, s) && s != st.table.maps[k][id]
  {
    InvRemove(st.table, k, id);
    if Has(st.table, k, id) {
      EntryIsLive(st.table, k, id);
      LiveAfterRemove(st.table, k, id);
    }
  }

  ghost function Move<S, A>(): (State<S, A>, Event<S, A>) -> Option<State<S, A>> {
    (st: State<S, A>, e: Event<S, A>) => if Enabled(st, e) then Some(Step(st, e)) else None
  }

  lemma InvRun<S, A>(es: seq<Event<S, A>>)
    requires Valid(Move(), Init(), es)
    ensures Inv(End(Move(), Init<S, A>(), es))
  {
    InvInit<S, A>();
    forall x: State<S, A>, e: Event<S, A> | Inv(x) && Move()(x, e).Some?
      ensures Inv(Move()(x, e).value)
    {
      InvStep(x, e);
    }
    EndKeeps(Move(), (x: State<S, A>) => Inv(x), Init<S, A>(), es);
  }

  // ---------- timers ----------

  /** If the plain form is only applied where no timer is armed, no timer ever outlives its session. */
  lemma TimersAlwaysSafe<S, A>(es: seq<Event<S, A>>)
    requires Valid(Move(), Init(), es)
    ensures TimersSafe(End(Move(), Init<S, A>(), es))
  {
    InvRun(es);
  }

  /** The plain form, applied anywhere, keeps timers safe exactly if the session it removes has no armed timer. */
  lemma PlainEraseSafeIff<S, A>(st: State<S, A>, k: nat, id: Id)
    requires Inv(st)
    ensures TimersSafe(EraseSession(st, k, id)) <==> !FindsArmed(st, k, id)
  {
    RemoveKeeps(st, k, id);
  }

  /** How the service uses the operations: each session class has its own way in and its own way out. */
  ghost predicate ByClass<S, A>(st: State<S, A>, e: Event<S, A>) {
    match e
    case Insert(k, s, a) => !Timed(k) && CanIssue(st.table, k, s)
    case SetAddress(s, a) => !Live(st.table, s)
    case ArmAndInsert(k, s) => Timed(k) && CanIssue(st.table, k, s)
    case Erase(k, id) => !Timed(k)
    case EraseTimer(k, id) => Timed(k)
    case Fire(s) => s in st.timers
    case Rearm(s) => Live(st.table, s) && Timed(st.table.ticket[s].kind)
  }

  ghost predicate ByClassRun<S, A>(st: State<S, A>, es: seq<Event<S, A>>)
    decreases |es|
  {
    es == [] || (ByClass(st, es[0]) && ByClassRun(Effect(st, es[0]), es[1..]))
  }

  /** The effect of an event, also where the plain form should not be used. */
  ghost function Effect<S, A>(st: State<S, A>, e: Event<S, A>): State<S, A> {
    if Enabled(st, e) then Step(st, e) else if e.Erase? then EraseSession(st, e.kind, e.id) else st
  }

  ghost predicate TimedTimers<S, A>(st: State<S, A>) {
    forall s | s in st.timers :: s in st.table.ticket && Timed(st.table.ticket[s].kind)
  }

  /** Used by class, the plain form never meets an armed timer. */
  lemma {:induction false} ByClassIsValid<S, A>(st: State<S, A>, es: seq<Event<S, A>>)
    requires Inv(st) && TimedTimers(st) && ByClassRun(st, es)
    ensures Valid(Move(), st, es)
    decreases |es|
  {
    if es != [] {
      var e := es[0];
      if e.Erase? && Has(st.table, e.kind, e.id) {
        EntryIsLive(st.table, e.kind, e.id);
      }
      assert Enabled(st, e);
      InvStep(st, e);
      ByClassIsValid(Step(st, e), es[1..]);
    }
  }

  /**
   Nothing writes a transfer session's field, so it holds some `id`. Erasing by it, as
   a timed-out main transfer does, removes the session exactly if `id` is its key. If
   `id` is the key of another session, that one goes with its timer; if it is no key,
   nothing happens.
   */
  lemma EraseByFieldIff<S, A>(st: State<S, A>, s: S, id: Id)
    requires Inv(st) && Live(st.table, s)
    ensures var k := st.table.ticket[s].kind; var st' := EraseTimerSession(st, k, id);
            && (!Live(st'.table, s) <==> id == IdOf(st.table, s))
            && (id != IdOf(st.table, s) ==> (s in st'.timers <==> s in st.timers))
            && (Has(st.table, k, id) ==>
                  var other := st.table.maps[k][id];
                  && !Live(st'.table, other) && other !in st'.timers && (other == s <==> id == IdOf(st.table, s))
                  && forall x | x != other :: (Live(st'.table, x) <==> Live(st.table, x)) && (x in st'.timers <==> x in st.timers))
            && (!Has(st.table, k, id) ==> st' == st)
  {
    var k := st.table.ticket[s].kind;
    RemoveKeeps(st, k, id);
    if Has(st.table, k, id) {
      EntryIsLive(st.table, k, id);
    }
  }

  /** When a timer fires its session is still in a map, so the retry inserts a session that is linked already. */
  lemma RetryFindsSessionLinked<S, A>(es: seq<Event<S, A>>, s: S, k: nat)
    requires Valid(Move(), Init(), es) && s in End(Move(), Init<S, A>(), es).timers
    ensures Live(Step(End(Move(), Init<S, A>(), es), Fire(s)).table, s)
    ensures !CanIssue(Step(End(Move(), Init<S, A>(), es), Fire(s)).table, k, s)
  {
    InvRun(es);
  }

  // ---------- replies go back to the requester ----------

  ghost function AddressOf<S, A>(st: State<S, A>, s: S): Option<A> {
    if s in st.addr then Some(st.addr[s]) else None
  }

  /** An insert: the session, the address in its field, and whether its own id was written. */
  datatype Origin<S, A> = Origin(s: S, address: Option<A>, stamped: bool)

  /** What an event says about the origin of the entry `id` of map `k`. */
  ghost function OriginNow<S, A>(st: State<S, A>, e: Event<S, A>, k: nat, id: Id, before: Option<Origin<S, A>>): Option<Origin<S, A>> {
    match e
    case Insert(k', s, a) => if k' == k && st.table.next == id then Some(Origin(s, Some(a), true)) else before
    case ArmAndInsert(k', s) => if k' == k && st.table.next == id then Some(Origin(s, AddressOf(st, s), false)) else before
    case _ => before
  }

  /** The latest insert, of either kind, that drew `id` for map `k`. */
  ghost function Issuer<S, A>(st: State<S, A>, es: seq<Event<S, A>>, k: nat, id: Id, before: Option<Origin<S, A>>): Option<Origin<S, A>>
    requires Valid(Move(), st, es)
    decreases |es|
  {
    if es == [] then before else Issuer(Step(st, es[0]), es[1..], k, id, OriginNow(st, es[0], k, id, before))
  }

  ghost predicate Routed<S, A>(st: State<S, A>, k: nat, id: Id, issuer: Option<Origin<S, A>>) {
    Has(st.table, k, id) ==>
      var s := st.table.maps[k][id];
      && issuer.Some? && issuer.value.s == s && issuer.value.address == AddressOf(st, s)
      && (issuer.value.stamped ==> s in st.sid && st.sid[s] == id)
  }

  lemma RoutedStep<S, A>(st: State<S, A>, e: Event<S, A>, k: nat, id: Id, issuer: Option<Origin<S, A>>)
    requires Inv(st) && Enabled(st, e) && Routed(st, k, id, issuer)
    ensures Routed(Step(st, e), k, id, OriginNow(st, e, k, id, issuer))
  {
    if Has(st.table, k, id) {
      EntryIsLive(st.table, k, id);
    }
  }

  lemma {:induction false} RoutedRun<S, A>(st: State<S, A>, es: seq<Event<S, A>>, k: nat, id: Id, issuer: Option<Origin<S, A>>)
    requires Inv(st) && Valid(Move(), st, es) && Routed(st, k, id, issuer)
    ensures Routed(End(Move(), st, es), k, id, Issuer(st, es, k, id, issuer))
    decreases |es|
  {
    if es != [] {
      RoutedStep(st, es[0], k, id, issuer);
      InvStep(st, es[0]);
      RoutedRun(Step(st, es[0]), es[1..], k, id, OriginNow(st, es[0], k, id, issuer));
    }
  }

  /**
   Whatever is found under an id, in any map, is the session of the insert that drew
   that id, and it still carries the address that it had then.
   */
  lemma ReplyRouting<S, A>(es: seq<Event<S, A>>, k: nat, id: Id, s: S)
    requires Valid(Move(), Init(), es) && FindSession(End(Move(), Init<S, A>(), es), k, id) == Some(s)
    ensures var st := End(Move(), Init<S, A>(), es);
            var issuer := Issuer(Init(), es, k, id, None);
            && issuer.Some? && issuer.value.s == s && issuer.value.address == AddressOf(st, s)
            && (issuer.value.stamped ==> s in st.sid && st.sid[s] == id)
  {
    InvInit<S, A>();
    RoutedRun(Init(), es, k, id, None);
  }

  /** An erase through one map, by either form, changes no entry of another map and no other entry of its own. */
  lemma EraseTouchesOneEntry<S, A>(st: State<S, A>, k: nat, id: Id, k': nat, id': Id)
    requires Inv(st) && (k != k' || id != id')
    ensures FindSession(EraseSession(st, k, id), k', id') == FindSession(st, k', id')
    ensures FindSession(EraseTimerSession(st, k, id), k', id') == FindSession(st, k', id')
    ensures Has(st.table, k', id') ==>
              (st.table.maps[k'][id'] in EraseTimerSession(st, k, id).timers <==> st.table.maps[k'][id'] in st.timers)
  {
    if Has(st.table, k', id') {
      EntryIsLive(st.table, k', id');
    }
    if Has(st.table, k, id) {
      EntryIsLive(st.table, k, id);
    }
  }
}
