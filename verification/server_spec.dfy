/**
 The two server services as a transition system: session maps, one session array
 per connection handler, and the set of armed timers. `sid` and `handler` are the
 session fields `m_nSessionID` and `m_pServiceHandler`.
 */
module ServerSpec {
  import opened WrappingId
  import opened Options
  import opened SessionTable

  datatype State<H, S> = State(table: Table<S>, sid: map<S, Id>, handler: map<S, H>, arrays: map<H, seq<S>>, timers: set<S>)

  /** `Connect` creates a handler; `Timeout` is an expiring timer; `Disconnect` drains a handler. */
  datatype Event<H, S> =
    | Connect(h: H)
    | Insert(kind: nat, s: S, h: H)
    | Reply(kind: nat, id: Id)
    | Timeout(s: S)
    | Disconnect(h: H)

  ghost function Init<H, S>(kinds: nat, first: Id): State<H, S> {
    State(EmptyTable(kinds, first), map[], map[], map[], {})
  }

  ghost predicate NoDup<S>(a: seq<S>) {
    forall i, j | 0 <= i < j < |a| :: a[i] != a[j]
  }

  /** Erasing position `i` of a `CDscTypeArray`: the last element takes its place. */
  ghost function SwapOut<S>(a: seq<S>, i: nat): seq<S>
    requires i < |a|
  {
    a[i := a[|a| - 1]][..|a| - 1]
  }

  ghost function Position<S>(a: seq<S>, s: S): nat
    requires s in a
    ensures Position(a, s) < |a| && a[Position(a, s)] == s
  {
    var i :| 0 <= i < |a| && a[i] == s; i
  }

  ghost function Without<S>(a: seq<S>, s: S): seq<S> {
    if s in a then SwapOut(a, Position(a, s)) else a
  }

  lemma WithoutElement<S>(a: seq<S>, s: S)
    requires NoDup(a) && s in a
    ensures NoDup(Without(a, s)) && |Without(a, s)| == |a| - 1
    ensures forall x :: x in Without(a, s) <==> x in a && x != s
  {
    var i, n := Position(a, s), |a| - 1;
    var b := Without(a, s);
    assert forall j | 0 <= j < n :: b[j] == if j == i then a[n] else a[j];
    forall x
      ensures x in b <==> x in a && x != s
    {
      if x in a && x != s {
        var j :| 0 <= j < |a| && a[j] == x;
        assert b[if j == n then i else j] == x;
      }
    }
  }

  ghost function InsertSession<H, S>(st: State<H, S>, k: nat, s: S, h: H): State<H, S>
    requires k < |st.table.maps| && h in st.arrays
  {
    State(Issue(st.table, k, s), st.sid[s := st.table.next], st.handler[s := h],
          st.arrays[h := st.arrays[h] + [s]], st.timers + {s})
  }

  /** The session that `EraseSession` returns. */
  ghost function Found<H, S>(st: State<H, S>, k: nat, id: Id): Option<S> {
    Lookup(st.table, k, id)
  }

  ghost function EraseSession<H, S>(st: State<H, S>, k: nat, id: Id): State<H, S> {
    match Found(st, k, id)
    case None => st
    case Some(s) =>
      State(Remove(st.table, k, id), st.sid, st.handler,
            if s in st.handler && st.handler[s] in st.arrays
            then st.arrays[st.handler[s] := Without(st.arrays[st.handler[s]], s)] else st.arrays,
            st.timers - {s})
  }

  ghost predicate BelongsTo<H, S>(st: State<H, S>, s: S, h: H) {
    s in st.handler && st.handler[s] == h
  }

  ghost function Others<H, S>(st: State<H, S>, k: nat, h: H): map<Id, S>
    requires k < |st.table.maps|
  {
    map id | id in st.table.maps[k] && !BelongsTo(st, st.table.maps[k][id], h) :: st.table.maps[k][id]
  }

  /** What a disconnect should leave: nothing of `h`, everything else exactly as it was. */
  ghost function Drained<H, S>(st: State<H, S>, h: H): State<H, S> {
    st.(table := st.table.(maps := seq(|st.table.maps|, k requires 0 <= k < |st.table.maps| => Others(st, k, h))),
        arrays := st.arrays[h := []],
        timers := set s | s in st.timers && !BelongsTo(st, s, h))
  }

  ghost predicate Enabled<H, S>(st: State<H, S>, e: Event<H, S>) {
    match e
    case Connect(h) => h !in st.arrays
    case Insert(k, s, h) => h in st.arrays && CanIssue(st.table, k, s)
    case Reply(k, id) => true
    case Timeout(s) => s in st.timers
    case Disconnect(h) => h in st.arrays
  }

  ghost function Step<H, S>(st: State<H, S>, e: Event<H, S>): State<H, S>
    requires Enabled(st, e)
  {
    match e
    case Connect(h) => st.(arrays := st.arrays[h := []])
    case Insert(k, s, h) => InsertSession(st, k, s, h)
    case Reply(k, id) => EraseSession(st, k, id)
    case Timeout(s) => Expire(st, s)
    case Disconnect(h) => Drained(st, h)
  }

  /** The timer leaves the queue, then `OnTimeOut` erases the session by its own identifier. */
  ghost function Expire<H, S>(st: State<H, S>, s: S): State<H, S> {
    var fired := st.(timers := st.timers - {s});
    if s in st.table.ticket && s in st.sid then EraseSession(fired, st.table.ticket[s].kind, st.sid[s]) else fired
  }

  /** A live session has its own id in its field, sits in its handler's array, and its timer is armed. */
  ghost predicate Recorded<H, S>(st: State<H, S>, s: S)
    requires s in st.table.ticket
  {
    && s in st.sid && st.sid[s] == IdOf(st.table, s)
    && s in st.handler && st.handler[s] in st.arrays && s in st.arrays[st.handler[s]]
    && s in st.timers
  }

  /** A handler's array lists live sessions of that handler, each once. */
  ghost predicate Seated<H, S>(st: State<H, S>, h: H)
    requires h in st.arrays
  {
    && NoDup(st.arrays[h])
    && forall s | s in st.arrays[h] :: Live(st.table, s) && BelongsTo(st, s, h)
  }

  ghost predicate Inv<H, S>(st: State<H, S>) {
    && TableInv(st.table)
    && (forall s | s in st.table.ticket && Live(st.table, s) :: Recorded(st, s))
    && (forall h | h in st.arrays :: Seated(st, h))
    && (forall s | s in st.timers :: Live(st.table, s))
  }

  lemma InvInit<H, S>(kinds: nat, first: Id)
    ensures Inv(Init<H, S>(kinds, first))
  {
    InvEmpty<S>(kinds, first);
  }

  lemma InvInsert<H, S>(st: State<H, S>, k: nat, s: S, h: H)
    requires Inv(st) && h in st.arrays && CanIssue(st.table, k, s)
    ensures Inv(InsertSession(st, k, s, h))
  {
    InvIssue(st.table, k, s);
    LiveAfterIssue(st.table, k, s);
    var st' := InsertSession(st, k, s, h);
    forall x | x in st'.table.ticket && Live(st'.table, x)
      ensures Recorded(st', x)
    {
      if x != s {
        assert Recorded(st, x);
      }
    }
    forall g | g in st'.arrays
      ensures Seated(st', g)
    {
      assert Seated(st, g);
    }
  }

  lemma InvErase<H, S>(st: State<H, S>, k: nat, id: Id)
    requires Inv(st)
    ensures Inv(EraseSession(st, k, id))
  {
    if Has(st.table, k, id) {
      var s := st.table.maps[k][id];
      InvRemove(st.table, k, id);
      LiveAfterRemove(st.table, k, id);
      assert Recorded(st, s) && Seated(st, st.handler[s]);
      WithoutElement(st.arrays[st.handler[s]], s);
      var st' := EraseSession(st, k, id);
      forall x | x in st'.table.ticket && Live(st'.table, x)
        ensures Recorded(st', x)
      {
        assert Recorded(st, x);
      }
      forall g | g in st'.arrays
        ensures Seated(st', g)
      {
        assert Seated(st, g);
      }
    }
  }

  lemma SeatedSession<H, S>(st: State<H, S>, h: H, s: S)
    requires Inv(st) && h in st.arrays && s in st.arrays[h]
    ensures Live(st.table, s) && Recorded(st, s) && st.handler[s] == h
  {
    assert Seated(st, h);
  }

  /** For a live session, the timeout route and the reply route erase the same entry. */
  lemma ExpireIsErase<H, S>(st: State<H, S>, s: S)
    requires Inv(st) && s in st.timers
    ensures s in st.table.ticket
    ensures Found(st, st.table.ticket[s].kind, IdOf(st.table, s)) == Some(s)
    ensures Expire(st, s) == EraseSession(st, st.table.ticket[s].kind, IdOf(st.table, s))
  {
    assert Live(st.table, s) && Recorded(st, s);
    assert st.timers - {s} - {s} == st.timers - {s};
  }

  /** Erasing one of the handler's sessions first does not change what draining leaves. */
  lemma DrainAbsorbsErase<H, S>(st: State<H, S>, h: H, s: S)
    requires Inv(st) && h in st.arrays && s in st.arrays[h]
    ensures s in st.table.ticket
    ensures Found(st, st.table.ticket[s].kind, IdOf(st.table, s)) == Some(s)
    ensures Drained(EraseSession(st, st.table.ticket[s].kind, IdOf(st.table, s)), h) == Drained(st, h)
  {
    SeatedSession(st, h, s);
    var k, id := st.table.ticket[s].kind, IdOf(st.table, s);
    var st' := EraseSession(st, k, id);
    var d, d' := Drained(st, h), Drained(st', h);
    forall j | 0 <= j < |st.table.maps|
      ensures Others(st', j, h) == Others(st, j, h)
    {
    }
    assert d'.table.maps == d.table.maps;
    assert d'.timers == d.timers;
  }

  /** With an empty array there is nothing left to drain. */
  lemma DrainedWhenEmpty<H, S>(st: State<H, S>, h: H)
    requires Inv(st) && h in st.arrays && st.arrays[h] == []
    ensures Drained(st, h) == st
  {
    forall k: nat, id: Id | Has(st.table, k, id)
      ensures !BelongsTo(st, st.table.maps[k][id], h)
    {
      assert Consistent(st.table, k, id);
      assert Recorded(st, st.table.maps[k][id]);
    }
    forall s | s in st.timers
      ensures !BelongsTo(st, s, h)
    {
      assert Recorded(st, s);
    }
    assert forall k | 0 <= k < |st.table.maps| :: Others(st, k, h) == st.table.maps[k];
    assert Drained(st, h).table.maps == st.table.maps;
    assert Drained(st, h).timers == st.timers;
  }

  lemma {:induction false} InvDrained<H, S>(st: State<H, S>, h: H)
    requires Inv(st) && h in st.arrays
    ensures Inv(Drained(st, h))
    decreases |st.arrays[h]|
  {
    if st.arrays[h] == [] {
      DrainedWhenEmpty(st, h);
    } else {
      var s := st.arrays[h][0];
      SeatedSession(st, h, s);
      DrainAbsorbsErase(st, h, s);
      WithoutElement(st.arrays[h], s);
      var st' := EraseSession(st, st.table.ticket[s].kind, IdOf(st.table, s));
      InvErase(st, st.table.ticket[s].kind, IdOf(st.table, s));
      InvDrained(st', h);
    }
  }

  lemma InvStep<H, S>(st: State<H, S>, e: Event<H, S>)
    requires Inv(st) && Enabled(st, e)
    ensures Inv(Step(st, e))
  {
    match e
    case Connect(h) =>
      var st' := Step(st, e);
      forall x | x in st'.table.ticket && Live(st'.table, x)
        ensures Recorded(st', x)
      {
        assert Recorded(st, x);
      }
      forall g | g in st'.arrays
        ensures Seated(st', g)
      {
        if g != h {
          assert Seated(st, g);
        }
      }
    case Insert(k, s, h) => InvInsert(st, k, s, h);
    case Reply(k, id) => InvErase(st, k, id);
    case Timeout(s) =>
      ExpireIsErase(st, s);
      InvErase(st, st.table.ticket[s].kind, IdOf(st.table, s));
    case Disconnect(h) => InvDrained(st, h);
  }
}
