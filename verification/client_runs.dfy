/** What the client service's events do to its maps and timers, and what follows over whole runs. */
module ClientRuns {
  import opened Options
  import opened WrappingId
  import opened SessionTable
  import opened Runs
  import opened ClientSpec

  // ---------- one event ----------

  /** What `id` of map `k` gives. */
  ghost function At<S>(st: State<S>, k: nat, id: Id): Option<S> {
    if k < |st.table.maps| && id in st.table.maps[k] then Some(st.table.maps[k][id]) else None
  }

  /** The entry `id` of map `k` and the timer of its session are gone; every other entry and timer is as before. */
  ghost predicate Gone<S>(st: State<S>, st': State<S>, k: nat, id: Id, s: S) {
    && At(st, k, id) == Some(s) && At(st', k, id) == None && st'.timers == st.timers - {s}
    && (forall k': nat, id': Id | k' != k || id' != id :: At(st', k', id') == At(st, k', id'))
    && st'.table.next == st.table.next && st'.sid == st.sid
  }

  /** A reply takes out the entry that it names, and the timer with it; a reply that names none changes nothing. */
  lemma ReplyTakesOut<S>(st: State<S>, k: nat, id: Id)
    requires Inv(st)
    ensures var st' := Step(st, Reply(k, id));
            match At(st, k, id)
            case None => st' == st
            case Some(s) => s in st.timers && Gone(st, st', k, id, s)
  {
    if Has(st.table, k, id) {
      EntryIsLive(st.table, k, id);
      assert Recorded(st, st.table.maps[k][id]);
    }
  }

  /** A timeout does the same to the entry under the session's own id. */
  lemma TimeoutTakesOut<S>(st: State<S>, s: S)
    requires Inv(st) && s in st.timers
    ensures s in st.table.ticket && s in st.sid && Gone(st, Step(st, Timeout(s)), st.table.ticket[s].kind, st.sid[s], s)
  {
    ExpireIsErase(st, s);
    assert Recorded(st, s);
    var k, id := st.table.ticket[s].kind, st.sid[s];
    ReplyTakesOut(st, k, id);
  }

  /** An insert stores the session under the counter, arms its timer, notes the id in it, and moves the counter on. */
  lemma InsertPutsIn<S>(st: State<S>, k: nat, s: S)
    requires Inv(st) && Enabled(st, Insert(k, s))
    ensures var st' := Step(st, Insert(k, s));
            && At(st, k, st.table.next) == None && At(st', k, st.table.next) == Some(s)
            && s !in st.timers && st'.timers == st.timers + {s} && s in st'.sid && st'.sid[s] == st.table.next
            && st'.table.next as int == (st.table.next as int + 1) % 0x1_0000_0000
            && (forall k': nat, id: Id | k' != k || id != st.table.next :: At(st', k', id) == At(st, k', id))
            && (forall x | x != s :: x in st'.sid <==> x in st.sid) && (forall x | x != s && x in st.sid :: st'.sid[x] == st.sid[x])
  {
    assert s in st.timers ==> Live(st.table, s);
  }

  // ---------- each identifier completes once ----------

  ghost predicate Reissues<S>(st: State<S>, e: Event<S>, k: nat, id: Id) {
    e.Insert? && e.kind == k && st.table.next == id
  }

  /** The event is the reply to the session stored under `id` in map `k`, or its timeout. */
  ghost predicate Completes<S>(st: State<S>, e: Event<S>, k: nat, id: Id) {
    At(st, k, id).Some? && (e == Reply(k, id) || e == Timeout(At(st, k, id).value))
  }

  ghost function Completions<S>(st: State<S>, es: seq<Event<S>>, k: nat, id: Id): nat
    requires Valid(Move(), st, es)
    decreases |es|
  {
    if es == [] then 0
    else (if Completes(st, es[0], k, id) then 1 else 0) + Completions(Step(st, es[0]), es[1..], k, id)
  }

  ghost predicate NeverReissued<S>(st: State<S>, es: seq<Event<S>>, k: nat, id: Id)
    requires Valid(Move(), st, es)
    decreases |es|
  {
    es == [] || (!Reissues(st, es[0], k, id) && NeverReissued(Step(st, es[0]), es[1..], k, id))
  }

  /** Without a reissue an entry stays, with the same session, until an event completes it; nothing else brings one back. */
  lemma EntryAfterStep<S>(st: State<S>, e: Event<S>, k: nat, id: Id)
    requires Inv(st) && Enabled(st, e) && !Reissues(st, e, k, id)
    ensures At(Step(st, e), k, id) == if Completes(st, e, k, id) then None else At(st, k, id)
  {
    match e
    case Insert(k', s) => InsertPutsIn(st, k', s);
    case Reply(k', id') => ReplyTakesOut(st, k', id');
    case Timeout(s) =>
      TimeoutTakesOut(st, s);
      if Has(st.table, k, id) {
        EntryIsLive(st.table, k, id);
        assert Recorded(st, st.table.maps[k][id]);
      }
  }

  /** In a run without a reissue, completions plus what is still stored is what was stored: never two completions. */
  lemma {:induction false} CompletedOnce<S>(st: State<S>, es: seq<Event<S>>, k: nat, id: Id)
    requires Inv(st) && Valid(Move(), st, es) && NeverReissued(st, es, k, id)
    ensures Completions(st, es, k, id) + (if At(End(Move(), st, es), k, id).Some? then 1 else 0) == if At(st, k, id).Some? then 1 else 0
    decreases |es|
  {
    if es != [] {
      InvStep(st, es[0]);
      EntryAfterStep(st, es[0], k, id);
      CompletedOnce(Step(st, es[0]), es[1..], k, id);
    }
  }

  /** After a completion, however the run goes on before a reissue, a further response finds nothing and changes nothing. */
  lemma LaterReplyIsNull<S>(st: State<S>, e: Event<S>, es: seq<Event<S>>, k: nat, id: Id)
    requires Inv(st) && Enabled(st, e) && Completes(st, e, k, id)
    requires Valid(Move(), Step(st, e), es) && NeverReissued(Step(st, e), es, k, id)
    ensures var end := End(Move(), Step(st, e), es); At(end, k, id) == None && Step(end, Reply(k, id)) == end
  {
    InvStep(st, e);
    EntryAfterStep(st, e, k, id);
    CompletedOnce(Step(st, e), es, k, id);
    var next := Step(st, e);
    forall x: State<S>, f: Event<S> | Inv(x) && Move()(x, f).Some?
      ensures Inv(Move()(x, f).value)
    {
      ClientSpec.InvStep(x, f);
    }
    EndKeeps(Move(), (x: State<S>) => Inv(x), next, es);
    ReplyTakesOut(End(Move(), next, es), k, id);
  }

  // ---------- conservation ----------

  ghost predicate Balanced<S>(st: State<S>, n: int) {
    Size(st.table.maps) == n && |st.timers| == n
  }

  /** Sessions in, less sessions out. */
  ghost function Change<S>(st: State<S>, e: Event<S>): int {
    match e
    case Insert(_, _) => 1
    case Reply(k, id) => if At(st, k, id).Some? then -1 else 0
    case Timeout(_) => -1
  }

  ghost function Changes<S>(st: State<S>, es: seq<Event<S>>): int
    requires Valid(Move(), st, es)
    decreases |es|
  {
    if es == [] then 0 else Change(st, es[0]) + Changes(Step(st, es[0]), es[1..])
  }

  lemma BalancedReply<S>(st: State<S>, k: nat, id: Id, n: int)
    requires Inv(st) && Balanced(st, n)
    ensures Balanced(Step(st, Reply(k, id)), if At(st, k, id).Some? then n - 1 else n)
  {
    if Has(st.table, k, id) {
      ReplyTakesOut(st, k, id);
      SizeAfterRemove(st.table, k, id);
    }
  }

  lemma BalancedStep<S>(st: State<S>, e: Event<S>, n: int)
    requires Inv(st) && Enabled(st, e) && Balanced(st, n)
    ensures Balanced(Step(st, e), n + Change(st, e))
  {
    match e
    case Insert(k, s) =>
      InsertPutsIn(st, k, s);
      SizeAfterIssue(st.table, k, s);
    case Reply(k, id) => BalancedReply(st, k, id, n);
    case Timeout(s) =>
      ExpireIsErase(st, s);
      BalancedReply(st, st.table.ticket[s].kind, IdOf(st.table, s), n);
  }

  lemma {:induction false} BalancedRun<S>(st: State<S>, es: seq<Event<S>>, n: int)
    requires Inv(st) && Valid(Move(), st, es) && Balanced(st, n)
    ensures Balanced(End(Move(), st, es), n + Changes(st, es))
    decreases |es|
  {
    if es != [] {
      BalancedStep(st, es[0], n);
      InvStep(st, es[0]);
      BalancedRun(Step(st, es[0]), es[1..], n + Change(st, es[0]));
    }
  }

  /** Sessions in less sessions out is the number stored and the number of armed timers. */
  lemma Conservation<S>(kinds: nat, first: Id, es: seq<Event<S>>)
    requires Valid(Move(), Init<S>(kinds, first), es)
    ensures Balanced(End(Move(), Init<S>(kinds, first), es), Changes(Init<S>(kinds, first), es))
  {
    InvEmpty<S>(kinds, first);
    SizeOfEmptyTable<S>(kinds, first);
    BalancedRun(Init<S>(kinds, first), es, 0);
  }
}
