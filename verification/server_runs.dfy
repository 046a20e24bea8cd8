/** What the server services guarantee over whole runs. */
module ServerRuns {
  import opened WrappingId
  import opened Options
  import opened SessionTable
  import opened ServerSpec
  import opened Runs

  ghost function Move<H, S>(): (State<H, S>, Event<H, S>) -> Option<State<H, S>> {
    (st: State<H, S>, e: Event<H, S>) => if Enabled(st, e) then Some(Step(st, e)) else None
  }

  lemma InvRun<H, S>(st: State<H, S>, es: seq<Event<H, S>>)
    requires Inv(st) && Valid(Move(), st, es)
    ensures Inv(End(Move(), st, es))
  {
    forall x: State<H, S>, e: Event<H, S> | Inv(x) && Move()(x, e).Some?
      ensures Inv(Move()(x, e).value)
    {
      InvStep(x, e);
    }
    EndKeeps(Move(), (x: State<H, S>) => Inv(x), st, es);
  }

  // ---------- map, array and timer agree ----------

  /** The sessions in the maps. */
  ghost function Stored<H, S>(st: State<H, S>): set<S> {
    set k, id | 0 <= k < |st.table.maps| && id in st.table.maps[k] :: st.table.maps[k][id]
  }

  /**
   A session is in one map, under the identifier in its own field, exactly if its
   timer is armed, exactly if it occurs once in its own handler's array; and it
   occurs in no other array.
   */
  ghost predicate Agreement<H, S>(st: State<H, S>) {
    && Stored(st) == st.timers
    && (forall h | h in st.arrays :: multiset(st.arrays[h]) == multiset(set s | s in Stored(st) && BelongsTo(st, s, h)))
    && (forall s | s in Stored(st) :: s in st.handler && st.handler[s] in st.arrays && s in st.sid)
    && (forall k: nat, id: Id, k': nat, id': Id | Has(st.table, k, id) && Has(st.table, k', id') ::
          (st.table.maps[k][id] == st.table.maps[k'][id'] ==> k == k' && id == id'))
    && (forall k: nat, id: Id | Has(st.table, k, id) :: OwnId(st, k, id))
  }

  ghost predicate OwnId<H, S>(st: State<H, S>, k: nat, id: Id)
    requires Has(st.table, k, id)
  {
    st.table.maps[k][id] in st.sid && st.sid[st.table.maps[k][id]] == id
  }

  lemma {:induction false} CountInArray<S>(a: seq<S>, s: S)
    requires NoDup(a)
    ensures multiset(a)[s] == if s in a then 1 else 0
  {
    if a != [] {
      var n := |a| - 1;
      assert a == a[..n] + [a[n]];
      CountInArray(a[..n], s);
    }
  }

  lemma ArrayOfHandler<H, S>(st: State<H, S>, h: H)
    requires Inv(st) && h in st.arrays
    ensures multiset(st.arrays[h]) == multiset(set s | s in st.timers && BelongsTo(st, s, h))
  {
    assert Seated(st, h);
    var a, those := multiset(st.arrays[h]), multiset(set s | s in st.timers && BelongsTo(st, s, h));
    forall s | s in st.arrays[h]
      ensures s in st.timers && BelongsTo(st, s, h) && a[s] == 1
    {
      SeatedSession(st, h, s);
      CountInArray(st.arrays[h], s);
    }
    forall s | s in st.timers && BelongsTo(st, s, h)
      ensures s in st.arrays[h]
    {
      assert Recorded(st, s);
    }
    assert forall s :: a[s] == those[s];
  }

  lemma InvAgrees<H, S>(st: State<H, S>)
    requires Inv(st)
    ensures Agreement(st)
  {
    forall k: nat, id: Id | Has(st.table, k, id)
      ensures st.table.maps[k][id] in st.timers && OwnId(st, k, id)
    {
      assert Consistent(st.table, k, id);
      assert Recorded(st, st.table.maps[k][id]);
    }
    forall s | s in st.timers
      ensures s in Stored(st)
      ensures s in st.handler && st.handler[s] in st.arrays && s in st.sid
    {
      assert Live(st.table, s) && Recorded(st, s);
      assert Has(st.table, st.table.ticket[s].kind, IdOf(st.table, s));
    }
    assert Stored(st) == st.timers;
    forall h | h in st.arrays
      ensures multiset(st.arrays[h]) == multiset(set s | s in Stored(st) && BelongsTo(st, s, h))
    {
      ArrayOfHandler(st, h);
    }
    forall k: nat, id: Id, k': nat, id': Id | Has(st.table, k, id) && Has(st.table, k', id') && st.table.maps[k][id] == st.table.maps[k'][id']
      ensures k == k' && id == id'
    {
      StoredOnce(st.table, st.table.maps[k][id]);
    }
  }

  lemma ThreeWayAgreement<H, S>(kinds: nat, first: Id, es: seq<Event<H, S>>)
    requires Valid(Move(), Init<H, S>(kinds, first), es)
    ensures Agreement(End(Move(), Init<H, S>(kinds, first), es))
  {
    InvInit<H, S>(kinds, first);
    InvRun(Init(kinds, first), es);
    InvAgrees(End(Move(), Init<H, S>(kinds, first), es));
  }

  // ---------- identifiers stay fresh ----------

  /** Like `ValidRun`, but about an insert only age is assumed, not that the key is unused. */
  ghost predicate TimelyRun<H, S>(st: State<H, S>, es: seq<Event<H, S>>)
    decreases |es|
  {
    es == [] ||
    match es[0]
    case Insert(k, s, h) =>
      && h in st.arrays && k < |st.table.maps| && !Live(st.table, s) && Window(st.table)
      && TimelyRun(InsertSession(st, k, s, h), es[1..])
    case _ => Enabled(st, es[0]) && TimelyRun(Step(st, es[0]), es[1..])
  }

  /** If no session outlives 2^32 - 1 later insertions, no unchecked insert of the run meets a used key. */
  lemma {:induction false} TimelyRunIsValid<H, S>(st: State<H, S>, es: seq<Event<H, S>>)
    requires Inv(st) && TimelyRun(st, es)
    ensures Valid(Move(), st, es)
    decreases |es|
  {
    if es != [] {
      if es[0].Insert? {
        FreshWithinWindow(st.table);
        assert !Has(st.table, es[0].kind, st.table.next);
      }
      InvStep(st, es[0]);
      TimelyRunIsValid(Step(st, es[0]), es[1..]);
    }
  }

  /** So the age of sessions is all that the agreement depends on. */
  lemma TimelyRunAgrees<H, S>(kinds: nat, first: Id, es: seq<Event<H, S>>)
    requires TimelyRun(Init(kinds, first), es)
    ensures Valid(Move(), Init<H, S>(kinds, first), es) && Agreement(End(Move(), Init<H, S>(kinds, first), es))
  {
    InvInit<H, S>(kinds, first);
    TimelyRunIsValid(Init(kinds, first), es);
    ThreeWayAgreement(kinds, first, es);
  }

  // ---------- conservation ----------

  ghost function TotalLen<H, S>(m: map<H, seq<S>>): nat {
    if m == map[] then 0 else var h :| h in m; |m[h]| + TotalLen(m - {h})
  }

  lemma {:induction false} TotalLenPick<H, S>(m: map<H, seq<S>>, h: H)
    requires h in m
    ensures TotalLen(m) == |m[h]| + TotalLen(m - {h})
    decreases |m|
  {
    var g :| g in m && TotalLen(m) == |m[g]| + TotalLen(m - {g});
    if g != h {
      TotalLenPick(m - {g}, h);
      TotalLenPick(m - {h}, g);
      assert m - {g} - {h} == m - {h} - {g};
    }
  }

  lemma TotalLenUpdate<H, S>(m: map<H, seq<S>>, h: H, a: seq<S>)
    requires h in m
    ensures TotalLen(m[h := a]) == TotalLen(m) - |m[h]| + |a|
  {
    TotalLenPick(m, h);
    TotalLenPick(m[h := a], h);
    assert m[h := a] - {h} == m - {h};
  }

  ghost predicate Balanced<H, S>(st: State<H, S>, n: int) {
    Size(st.table.maps) == n && TotalLen(st.arrays) == n && |st.timers| == n
  }

  ghost function Inserted<H, S>(e: Event<H, S>): nat {
    if e.Insert? then 1 else 0
  }

  /** How many sessions a step takes out. */
  ghost function Erased<H, S>(st: State<H, S>, e: Event<H, S>): nat
    requires Enabled(st, e)
  {
    match e
    case Connect(h) => 0
    case Insert(k, s, h) => 0
    case Reply(k, id) => if Has(st.table, k, id) then 1 else 0
    case Timeout(s) => 1
    case Disconnect(h) => |st.arrays[h]|
  }

  ghost function InsertedIn<H, S>(es: seq<Event<H, S>>): nat {
    if es == [] then 0 else Inserted(es[0]) + InsertedIn(es[1..])
  }

  ghost function ErasedIn<H, S>(st: State<H, S>, es: seq<Event<H, S>>): nat
    requires Valid(Move(), st, es)
    decreases |es|
  {
    if es == [] then 0 else Erased(st, es[0]) + ErasedIn(Step(st, es[0]), es[1..])
  }

  lemma BalancedErase<H, S>(st: State<H, S>, k: nat, id: Id, n: int)
    requires Inv(st) && Balanced(st, n) && Has(st.table, k, id)
    ensures Balanced(EraseSession(st, k, id), n - 1)
  {
    var s := st.table.maps[k][id];
    assert Consistent(st.table, k, id) && Recorded(st, s) && Seated(st, st.handler[s]);
    SizeAfterRemove(st.table, k, id);
    WithoutElement(st.arrays[st.handler[s]], s);
    TotalLenUpdate(st.arrays, st.handler[s], Without(st.arrays[st.handler[s]], s));
  }

  lemma {:induction false} BalancedDrain<H, S>(st: State<H, S>, h: H, n: int)
    requires Inv(st) && Balanced(st, n) && h in st.arrays
    ensures Balanced(Drained(st, h), n - |st.arrays[h]|)
    decreases |st.arrays[h]|
  {
    if st.arrays[h] == [] {
      DrainedWhenEmpty(st, h);
    } else {
      var s := st.arrays[h][0];
      SeatedSession(st, h, s);
      DrainAbsorbsErase(st, h, s);
      assert Seated(st, h);
      WithoutElement(st.arrays[h], s);
      var k, id := st.table.ticket[s].kind, IdOf(st.table, s);
      InvErase(st, k, id);
      BalancedErase(st, k, id, n);
      BalancedDrain(EraseSession(st, k, id), h, n - 1);
    }
  }

  lemma BalancedConnect<H, S>(st: State<H, S>, h: H, n: int)
    requires Balanced(st, n) && h !in st.arrays
    ensures Balanced(st.(arrays := st.arrays[h := []]), n)
  {
    TotalLenPick(st.arrays[h := []], h);
    assert st.arrays[h := []] - {h} == st.arrays;
  }

  lemma BalancedInsert<H, S>(st: State<H, S>, k: nat, s: S, h: H, n: int)
    requires Inv(st) && Balanced(st, n) && h in st.arrays && CanIssue(st.table, k, s)
    ensures Balanced(InsertSession(st, k, s, h), n + 1)
  {
    SizeAfterIssue(st.table, k, s);
    TotalLenUpdate(st.arrays, h, st.arrays[h] + [s]);
    assert s !in st.timers;
  }

  lemma BalancedStep<H, S>(st: State<H, S>, e: Event<H, S>, n: int)
    requires Inv(st) && Enabled(st, e) && Balanced(st, n)
    ensures Balanced(Step(st, e), n + Inserted(e) - Erased(st, e))
  {
    match e
    case Connect(h) => BalancedConnect(st, h, n);
    case Insert(k, s, h) => BalancedInsert(st, k, s, h, n);
    case Reply(k, id) =>
      if Has(st.table, k, id) {
        BalancedErase(st, k, id, n);
      }
    case Timeout(s) =>
      ExpireIsErase(st, s);
      BalancedErase(st, st.table.ticket[s].kind, IdOf(st.table, s), n);
    case Disconnect(h) => BalancedDrain(st, h, n);
  }

  lemma {:induction false} BalancedRun<H, S>(st: State<H, S>, es: seq<Event<H, S>>, n: int)
    requires Inv(st) && Valid(Move(), st, es) && Balanced(st, n)
    ensures Balanced(End(Move(), st, es), n + InsertedIn(es) - ErasedIn(st, es))
    decreases |es|
  {
    if es != [] {
      BalancedStep(st, es[0], n);
      InvStep(st, es[0]);
      BalancedRun(Step(st, es[0]), es[1..], n + Inserted(es[0]) - Erased(st, es[0]));
    }
  }

  /** Inserts minus erasures is the number of stored sessions, of array slots in use, and of armed timers. */
  lemma Conservation<H, S>(kinds: nat, first: Id, es: seq<Event<H, S>>)
    requires Valid(Move(), Init<H, S>(kinds, first), es)
    ensures Balanced(End(Move(), Init<H, S>(kinds, first), es), InsertedIn(es) - ErasedIn(Init(kinds, first), es))
  {
    InvInit<H, S>(kinds, first);
    SizeOfEmptyTable<S>(kinds, first);
    BalancedRun(Init(kinds, first), es, 0);
  }

  // ---------- each identifier completes once ----------

  ghost predicate Reissues<H, S>(st: State<H, S>, e: Event<H, S>, k: nat, id: Id) {
    e.Insert? && e.kind == k && st.table.next == id
  }

  /** The step hands out, times out or drains the session stored under `id` in map `k`. */
  ghost predicate Completes<H, S>(st: State<H, S>, e: Event<H, S>, k: nat, id: Id) {
    Has(st.table, k, id) &&
    match e
    case Connect(_) => false
    case Insert(_, _, _) => false
    case Reply(k', id') => k' == k && id' == id
    case Timeout(s) => s == st.table.maps[k][id]
    case Disconnect(h) => BelongsTo(st, st.table.maps[k][id], h)
  }

  ghost function Completions<H, S>(st: State<H, S>, es: seq<Event<H, S>>, k: nat, id: Id): nat
    requires Valid(Move(), st, es)
    decreases |es|
  {
    if es == [] then 0
    else (if Completes(st, es[0], k, id) then 1 else 0) + Completions(Step(st, es[0]), es[1..], k, id)
  }

  ghost predicate NeverReissued<H, S>(st: State<H, S>, es: seq<Event<H, S>>, k: nat, id: Id)
    requires Valid(Move(), st, es)
    decreases |es|
  {
    es == [] || (!Reissues(st, es[0], k, id) && NeverReissued(Step(st, es[0]), es[1..], k, id))
  }

  /** Without a reissue an entry stays, with the same session, until a step completes it; nothing else brings one back. */
  lemma EntryAfterStep<H, S>(st: State<H, S>, e: Event<H, S>, k: nat, id: Id)
    requires Inv(st) && Enabled(st, e) && !Reissues(st, e, k, id)
    ensures Has(Step(st, e).table, k, id) <==> Has(st.table, k, id) && !Completes(st, e, k, id)
    ensures Has(Step(st, e).table, k, id) ==> Step(st, e).table.maps[k][id] == st.table.maps[k][id]
  {
    if e.Timeout? {
      ExpireIsErase(st, e.s);
      if Has(st.table, k, id) {
        assert Consistent(st.table, k, id);
      }
    }
  }

  lemma {:induction false} CompletedOnce<H, S>(st: State<H, S>, es: seq<Event<H, S>>, k: nat, id: Id)
    requires Inv(st) && Valid(Move(), st, es) && NeverReissued(st, es, k, id)
    ensures Completions(st, es, k, id) + (if Has(End(Move(), st, es).table, k, id) then 1 else 0)
            == if Has(st.table, k, id) then 1 else 0
    decreases |es|
  {
    if es != [] {
      InvStep(st, es[0]);
      EntryAfterStep(st, es[0], k, id);
      CompletedOnce(Step(st, es[0]), es[1..], k, id);
    }
  }

  /** After one completion, however the run goes on before a reissue, erasing the id again finds null and changes nothing. */
  lemma LaterEraseIsNull<H, S>(st: State<H, S>, e: Event<H, S>, es: seq<Event<H, S>>, k: nat, id: Id)
    requires Inv(st) && Enabled(st, e) && Completes(st, e, k, id)
    requires Valid(Move(), Step(st, e), es) && NeverReissued(Step(st, e), es, k, id)
    ensures Found(End(Move(), Step(st, e), es), k, id) == None
    ensures EraseSession(End(Move(), Step(st, e), es), k, id) == End(Move(), Step(st, e), es)
  {
    InvStep(st, e);
    EntryAfterStep(st, e, k, id);
    CompletedOnce(Step(st, e), es, k, id);
  }

  // ---------- a disconnect drains ----------

  /** `OnNetError`: the session is erased from its own map by its own identifier. */
  ghost function NetError<H, S>(st: State<H, S>, s: S): State<H, S> {
    if s in st.table.ticket && s in st.sid then EraseSession(st, st.table.ticket[s].kind, st.sid[s]) else st
  }

  ghost function NetErrors<H, S>(st: State<H, S>, order: seq<S>): State<H, S>
    decreases |order|
  {
    if order == [] then st else NetErrors(NetError(st, order[0]), order[1..])
  }

  lemma DrainStep<H, S>(st: State<H, S>, h: H, s: S)
    requires Inv(st) && h in st.arrays && s in st.arrays[h]
    ensures var next := NetError(st, s);
            && Inv(next) && Drained(next, h) == Drained(st, h)
            && h in next.arrays && multiset(next.arrays[h]) == multiset(st.arrays[h]) - multiset{s}
  {
    SeatedSession(st, h, s);
    DrainAbsorbsErase(st, h, s);
    InvErase(st, st.table.ticket[s].kind, IdOf(st.table, s));
    assert Seated(st, h);
    WithoutIsMultisetMinus(st.arrays[h], s);
  }

  /** In whatever order a handler's sessions are taken, erasing each of them leaves the drained state. */
  lemma {:induction false} DrainInAnyOrder<H, S>(st: State<H, S>, h: H, order: seq<S>)
    requires Inv(st) && h in st.arrays && multiset(order) == multiset(st.arrays[h])
    ensures NetErrors(st, order) == Drained(st, h)
    decreases |order|
  {
    if order == [] {
      assert |multiset(st.arrays[h])| == 0;
      DrainedWhenEmpty(st, h);
    } else {
      assert order == [order[0]] + order[1..];
      assert order[0] in multiset(st.arrays[h]);
      DrainStep(st, h, order[0]);
      DrainInAnyOrder(NetError(st, order[0]), h, order[1..]);
    }
  }

  lemma WithoutIsMultisetMinus<S>(a: seq<S>, s: S)
    requires NoDup(a) && s in a
    ensures multiset(Without(a, s)) == multiset(a) - multiset{s}
  {
    WithoutElement(a, s);
    forall x
      ensures multiset(Without(a, s))[x] == (multiset(a) - multiset{s})[x]
    {
      CountInArray(a, x);
      CountInArray(Without(a, s), x);
    }
  }

  /** After a disconnect nothing refers to the handler, and whatever belongs to another one is as before. */
  lemma DrainIsComplete<H, S>(st: State<H, S>, h: H)
    requires Inv(st) && h in st.arrays
    ensures var d := Drained(st, h);
            && Inv(d)
            && (forall s | s in Stored(d) + d.timers :: !BelongsTo(st, s, h))
            && Stored(d) == (set s | s in Stored(st) && !BelongsTo(st, s, h))
            && (forall k: nat, id: Id | Has(st.table, k, id) && !BelongsTo(st, st.table.maps[k][id], h) ::
                  Found(d, k, id) == Found(st, k, id))
            && (forall g | g in st.arrays && g != h :: d.arrays[g] == st.arrays[g])
  {
    InvDrained(st, h);
    var d := Drained(st, h);
    forall s | s in Stored(st) && !BelongsTo(st, s, h)
      ensures s in Stored(d)
    {
      var k, id :| 0 <= k < |st.table.maps| && id in st.table.maps[k] && st.table.maps[k][id] == s;
      assert Others(st, k, h)[id] == s && d.table.maps[k] == Others(st, k, h);
    }
  }
}
