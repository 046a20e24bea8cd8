/**
 The part that all four services share: several maps from identifiers to
 sessions, fed by one wrapping counter. The maps are numbered; a session class
 belongs to one map, so the number of the map is the kind of the session.
 `first`, `issued` and `ticket` are history: no service stores them.
 */
module SessionTable {
  import opened Options
  import opened WrappingId

  /** Which map a session was last put into, and as the how-maniest insertion. */
  datatype Ticket = Ticket(kind: nat, stamp: nat)

  datatype Table<S> = Table(maps: seq<map<Id, S>>, next: Id, first: Id, issued: nat, ticket: map<S, Ticket>)

  ghost function EmptyTable<S>(kinds: nat, first: Id): Table<S> {
    Table(seq(kinds, _ => map[]), first, first, 0, map[])
  }

  ghost function IdOf<S>(t: Table<S>, s: S): Id
    requires s in t.ticket
  {
    Nth(t.first, t.ticket[s].stamp)
  }

  /** `s` is stored under the identifier it drew, in the map it was put into. */
  ghost predicate Live<S>(t: Table<S>, s: S) {
    && s in t.ticket
    && t.ticket[s].kind < |t.maps|
    && IdOf(t, s) in t.maps[t.ticket[s].kind]
    && t.maps[t.ticket[s].kind][IdOf(t, s)] == s
  }

  ghost predicate Has<S>(t: Table<S>, k: nat, id: Id) {
    k < |t.maps| && id in t.maps[k]
  }

  ghost function Lookup<S>(t: Table<S>, k: nat, id: Id): Option<S> {
    if Has(t, k, id) then Some(t.maps[k][id]) else None
  }

  /** The unchecked `DirectInsert` needs an unlinked session and an unused key. */
  ghost predicate CanIssue<S>(t: Table<S>, k: nat, s: S) {
    k < |t.maps| && !Live(t, s) && t.next !in t.maps[k]
  }

  /** `mapSession.DirectInsert(m_nSessionID++, session)`. */
  ghost function Issue<S>(t: Table<S>, k: nat, s: S): Table<S>
    requires k < |t.maps|
  {
    Table(t.maps[k := t.maps[k][t.next := s]], Next(t.next), t.first, t.issued + 1, t.ticket[s := Ticket(k, t.issued)])
  }

  /** `mapSession.Erase(id)`; without an entry nothing happens. */
  ghost function Remove<S>(t: Table<S>, k: nat, id: Id): Table<S> {
    if Has(t, k, id) then t.(maps := t.maps[k := t.maps[k] - {id}]) else t
  }

  /** The counter counts, entries sit where their ticket says, no two sessions hold the same ticket. */
  ghost predicate TableInv<S>(t: Table<S>) {
    && t.next == Nth(t.first, t.issued)
    && (forall k: nat, id: Id | Has(t, k, id) :: Consistent(t, k, id))
    && (forall s | s in t.ticket :: t.ticket[s].stamp < t.issued)
    && (forall s, s' | s in t.ticket && s' in t.ticket && s != s' :: t.ticket[s].stamp != t.ticket[s'].stamp)
  }

  ghost predicate Consistent<S>(t: Table<S>, k: nat, id: Id)
    requires Has(t, k, id)
  {
    var s := t.maps[k][id];
    s in t.ticket && t.ticket[s].kind == k && IdOf(t, s) == id
  }

  lemma InvEmpty<S>(kinds: nat, first: Id)
    ensures TableInv(EmptyTable<S>(kinds, first))
  {
  }

  lemma InvIssue<S>(t: Table<S>, k: nat, s: S)
    requires TableInv(t) && CanIssue(t, k, s)
    ensures TableInv(Issue(t, k, s))
  {
    var u := Issue(t, k, s);
    NextOfNth(t.first, t.issued);
    forall k': nat, id: Id | Has(u, k', id)
      ensures Consistent(u, k', id)
    {
      if k' != k || id != t.next {
        assert Has(t, k', id) && Consistent(t, k', id);
      }
    }
  }

  lemma InvRemove<S>(t: Table<S>, k: nat, id: Id)
    requires TableInv(t)
    ensures TableInv(Remove(t, k, id))
  {
    var u := Remove(t, k, id);
    forall k': nat, id': Id | Has(u, k', id')
      ensures Consistent(u, k', id')
    {
      assert Has(t, k', id') && Consistent(t, k', id');
    }
  }

  /** Issuing makes one session live and leaves the others as they were. */
  lemma LiveAfterIssue<S>(t: Table<S>, k: nat, s: S)
    requires TableInv(t) && CanIssue(t, k, s)
    ensures Live(Issue(t, k, s), s) && IdOf(Issue(t, k, s), s) == t.next
    ensures forall s' | s' != s :: Live(Issue(t, k, s), s') <==> Live(t, s')
    ensures forall s' | s' != s && s' in t.ticket :: IdOf(Issue(t, k, s), s') == IdOf(t, s')
  {
  }

  /** Removing an entry ends exactly the session stored there. */
  lemma LiveAfterRemove<S>(t: Table<S>, k: nat, id: Id)
    requires TableInv(t) && Has(t, k, id)
    ensures Live(t, t.maps[k][id])
    ensures forall s :: Live(Remove(t, k, id), s) <==> Live(t, s) && s != t.maps[k][id]
  {
    assert Consistent(t, k, id);
  }

  lemma EntryIsLive<S>(t: Table<S>, k: nat, id: Id)
    requires TableInv(t) && Has(t, k, id)
    ensures Live(t, t.maps[k][id]) && t.ticket[t.maps[k][id]].kind == k && IdOf(t, t.maps[k][id]) == id
  {
    assert Consistent(t, k, id);
  }

  /** Stored somewhere and live are the same: a session sits in at most one map, under one identifier. */
  lemma StoredOnce<S>(t: Table<S>, s: S)
    requires TableInv(t)
    ensures Live(t, s) <==> exists k: nat, id: Id :: Has(t, k, id) && t.maps[k][id] == s
    ensures forall k: nat, id: Id, k': nat, id': Id |
              Has(t, k, id) && Has(t, k', id') && t.maps[k][id] == s && t.maps[k'][id'] == s :: k == k' && id == id'
  {
    if Live(t, s) {
      assert Has(t, t.ticket[s].kind, IdOf(t, s));
    }
    forall k: nat, id: Id | Has(t, k, id) && t.maps[k][id] == s
      ensures s in t.ticket && k == t.ticket[s].kind && id == IdOf(t, s)
    {
      assert Consistent(t, k, id);
    }
  }

  /** Every live session was inserted within the last 2^32 - 1 insertions. */
  ghost predicate Window<S>(t: Table<S>) {
    forall s | s in t.ticket && Live(t, s) :: t.issued - t.ticket[s].stamp < MODULUS
  }

  /** The next identifier is taken exactly by the sessions whose age is a multiple of 2^32. */
  lemma CollisionIff<S>(t: Table<S>, s: S)
    requires TableInv(t) && s in t.ticket
    ensures IdOf(t, s) == t.next <==> (t.issued - t.ticket[s].stamp) % MODULUS == 0
  {
    SameIdIff(t.first, t.ticket[s].stamp, t.issued);
  }

  /** The unchecked insert overwrites an entry exactly when the map holds a session of such an age. */
  lemma OverwriteIff<S>(t: Table<S>, k: nat)
    requires TableInv(t) && k < |t.maps|
    ensures t.next in t.maps[k] <==>
            exists s :: s in t.ticket && Live(t, s) && t.ticket[s].kind == k && (t.issued - t.ticket[s].stamp) % MODULUS == 0
  {
    if t.next in t.maps[k] {
      assert Has(t, k, t.next) && Consistent(t, k, t.next);
      CollisionIff(t, t.maps[k][t.next]);
    }
    if s :| s in t.ticket && Live(t, s) && t.ticket[s].kind == k && (t.issued - t.ticket[s].stamp) % MODULUS == 0 {
      CollisionIff(t, s);
    }
  }

  /** Within the window no map holds the next identifier, and no two live sessions share one, not even across maps. */
  lemma FreshWithinWindow<S>(t: Table<S>)
    requires TableInv(t) && Window(t)
    ensures forall k: nat :: !Has(t, k, t.next)
    ensures forall s, s' | s in t.ticket && s' in t.ticket && Live(t, s) && Live(t, s') && s != s' :: IdOf(t, s) != IdOf(t, s')
  {
    forall k: nat
      ensures !Has(t, k, t.next)
    {
      if Has(t, k, t.next) {
        assert Consistent(t, k, t.next);
        CollisionIff(t, t.maps[k][t.next]);
        SmallMultiple(t.issued - t.ticket[t.maps[k][t.next]].stamp);
      }
    }
    forall s, s' | s in t.ticket && s' in t.ticket && Live(t, s) && Live(t, s') && s != s'
      ensures IdOf(t, s) != IdOf(t, s')
    {
      var i, j := t.ticket[s].stamp, t.ticket[s'].stamp;
      if i < j {
        SameIdIff(t.first, i, j);
        SmallMultiple(j - i);
      } else {
        SameIdIff(t.first, j, i);
        SmallMultiple(i - j);
      }
    }
  }

  lemma SmallMultiple(d: nat)
    requires 0 < d < MODULUS
    ensures d % MODULUS != 0
  {
  }

  /** `n` times: insert `s` into map `k` and erase it again. */
  ghost function Churn<S>(t: Table<S>, k: nat, s: S, n: nat): Table<S>
    requires k < |t.maps|
    ensures |Churn(t, k, s, n).maps| == |t.maps|
  {
    if n == 0 then t else var u := Churn(t, k, s, n - 1); Remove(Issue(u, k, s), k, u.next)
  }

  /** `kept` has sat alone in its map during `n` insertions and erasures of another session. */
  ghost predicate Outlives<S>(t: Table<S>, kept: S, n: nat) {
    && TableInv(t)
    && Live(t, kept)
    && t.issued == t.ticket[kept].stamp + 1 + n
    && t.maps[t.ticket[kept].kind] == map[IdOf(t, kept) := kept]
  }

  lemma NextClash<S>(t: Table<S>, kept: S, n: nat)
    requires Outlives(t, kept, n)
    ensures t.next in t.maps[t.ticket[kept].kind] <==> (n + 1) % MODULUS == 0
  {
    CollisionIff(t, kept);
  }

  lemma ChurnOnce<S>(t: Table<S>, kept: S, s: S, n: nat)
    requires Outlives(t, kept, n) && n + 1 < MODULUS
    requires !Live(t, s)
    ensures CanIssue(t, t.ticket[kept].kind, s)
    ensures var u := Remove(Issue(t, t.ticket[kept].kind, s), t.ticket[kept].kind, t.next);
            Outlives(u, kept, n + 1) && !Live(u, s) && u.ticket[kept] == t.ticket[kept] && |u.maps| == |t.maps|
  {
    var k := t.ticket[kept].kind;
    SmallMultiple(n + 1);
    NextClash(t, kept, n);
    var v := Issue(t, k, s);
    InvIssue(t, k, s);
    LiveAfterIssue(t, k, s);
    InvRemove(v, k, t.next);
    LiveAfterRemove(v, k, t.next);
    assert t.maps[k][t.next := s] - {t.next} == t.maps[k];
  }

  lemma {:induction false} ChurnKeeps<S>(t: Table<S>, kept: S, s: S, n: nat)
    requires Outlives(t, kept, 0) && !Live(t, s) && n < MODULUS
    ensures var u := Churn(t, t.ticket[kept].kind, s, n);
            Outlives(u, kept, n) && !Live(u, s) && u.ticket[kept] == t.ticket[kept]
  {
    if n > 0 {
      ChurnKeeps(t, kept, s, n - 1);
      var v := Churn(t, t.ticket[kept].kind, s, n - 1);
      ChurnOnce(v, kept, s, n - 1);
    }
  }

  /**
   The wrap really does it: next to a session that is never erased, 2^32 - 1
   insertions are legal and the following unchecked insert overwrites it.
   */
  lemma OverwriteHappens<S>(t: Table<S>, kept: S, s: S, n: nat)
    requires Outlives(t, kept, 0) && !Live(t, s) && n < MODULUS
    ensures var k := t.ticket[kept].kind; var u := Churn(t, k, s, n);
            Live(u, kept) && !Live(u, s) && (u.next in u.maps[k] <==> n == MODULUS - 1)
  {
    var u := Churn(t, t.ticket[kept].kind, s, n);
    ChurnKeeps(t, kept, s, n);
    NextClash(u, kept, n);
    if n + 1 < MODULUS {
      SmallMultiple(n + 1);
    } else {
      MultipleMod(1);
    }
  }

  /** The number of stored sessions. */
  ghost function Size<S>(maps: seq<map<Id, S>>): nat {
    if maps == [] then 0 else Size(maps[..|maps| - 1]) + |maps[|maps| - 1]|
  }

  lemma {:induction false} SizeOfUpdate<S>(maps: seq<map<Id, S>>, k: nat, m: map<Id, S>)
    requires k < |maps|
    ensures Size(maps[k := m]) == Size(maps) - |maps[k]| + |m|
  {
    var n := |maps| - 1;
    if k == n {
      assert maps[k := m][..n] == maps[..n];
    } else {
      assert maps[k := m][..n] == maps[..n][k := m];
      SizeOfUpdate(maps[..n], k, m);
    }
  }

  lemma {:induction false} SizeOfEmptyTable<S>(kinds: nat, first: Id)
    ensures Size(EmptyTable<S>(kinds, first).maps) == 0
  {
    if kinds > 0 {
      assert EmptyTable<S>(kinds, first).maps[..kinds - 1] == EmptyTable<S>(kinds - 1, first).maps;
      SizeOfEmptyTable<S>(kinds - 1, first);
    }
  }

  lemma SizeAfterIssue<S>(t: Table<S>, k: nat, s: S)
    requires CanIssue(t, k, s)
    ensures Size(Issue(t, k, s).maps) == Size(t.maps) + 1
  {
    SizeOfUpdate(t.maps, k, t.maps[k][t.next := s]);
  }

  lemma SizeAfterRemove<S>(t: Table<S>, k: nat, id: Id)
    requires Has(t, k, id)
    ensures Size(Remove(t, k, id).maps) == Size(t.maps) - 1
  {
    SizeOfUpdate(t.maps, k, t.maps[k] - {id});
    assert (t.maps[k] - {id}).Keys == t.maps[k].Keys - {id};
  }
}
