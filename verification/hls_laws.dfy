/** What the HLS service's session operations do to its maps, timers and session fields. */
module HlsLaws {
  import opened Options
  import opened WrappingId
  import opened SessionTable
  import opened HlsSpec

  /** What `id` of map `k` gives. */
  ghost function At<S, A>(st: State<S, A>, k: nat, id: Id): Option<S> {
    if k < |st.table.maps| && id in st.table.maps[k] then Some(st.table.maps[k][id]) else None
  }

  ghost predicate OthersAsBefore<S, A>(st: State<S, A>, st': State<S, A>, k: nat, id: Id) {
    forall k': nat, id': Id | k' != k || id' != id :: At(st', k', id') == At(st, k', id')
  }

  /** `s` is under the counter in map `k`, and the counter has moved on. */
  ghost predicate PutIn<S, A>(st: State<S, A>, st': State<S, A>, k: nat, s: S) {
    && At(st, k, st.table.next) == None && At(st', k, st.table.next) == Some(s) && OthersAsBefore(st, st', k, st.table.next)
    && st'.table.next as int == (st.table.next as int + 1) % 0x1_0000_0000
  }

  /** `InsertSession` writes address and id and arms nothing. */
  lemma InsertPutsIn<S, A>(st: State<S, A>, k: nat, s: S, a: A)
    requires Inv(st) && Enabled(st, Insert(k, s, a))
    ensures var st' := Step(st, Insert(k, s, a));
            && PutIn(st, st', k, s) && st'.timers == st.timers
            && st'.addr == st.addr[s := a] && st'.sid == st.sid[s := st.table.next]
  {
  }

  /** The insert of the transfer maps arms a timer and writes nothing. */
  lemma ArmPutsIn<S, A>(st: State<S, A>, k: nat, s: S)
    requires Inv(st) && Enabled(st, ArmAndInsert(k, s))
    ensures var st' := Step(st, ArmAndInsert(k, s));
            && PutIn(st, st', k, s) && s !in st.timers && st'.timers == st.timers + {s}
            && st'.addr == st.addr && st'.sid == st.sid
  {
    assert s in st.timers ==> Live(st.table, s);
  }

  /** An address is written to a session that no map has. */
  lemma AddressIsWritten<S, A>(st: State<S, A>, s: S, a: A)
    requires Inv(st) && Enabled(st, SetAddress(s, a))
    ensures var st' := Step(st, SetAddress(s, a));
            && AddressOf(st', s) == Some(a) && (forall k: nat, id: Id :: At(st', k, id) == At(st, k, id) && At(st, k, id) != Some(s))
            && st'.table == st.table && st'.timers == st.timers && st'.sid == st.sid && st'.addr == st.addr[s := a]
  {
    forall k: nat, id: Id
      ensures At(st, k, id) != Some(s)
    {
      if Has(st.table, k, id) {
        EntryIsLive(st.table, k, id);
      }
    }
  }

  /** A timer that fires is gone, and one that is set again is armed; neither touches maps or fields. */
  lemma TimersComeAndGo<S, A>(st: State<S, A>, s: S)
    requires Inv(st)
    ensures s in st.timers ==>
              var st' := Step(st, Fire(s));
              s !in st'.timers && st'.timers + {s} == st.timers && st'.table == st.table && st'.addr == st.addr && st'.sid == st.sid
    ensures Live(st.table, s) ==>
              var st' := Step(st, Rearm(s));
              s in st'.timers && st'.timers - {s} == st.timers - {s} && st'.table == st.table && st'.addr == st.addr && st'.sid == st.sid
    ensures s in st.timers ==> Enabled(Step(st, Fire(s)), Rearm(s)) && Step(Step(st, Fire(s)), Rearm(s)) == st
  {
    if s in st.timers {
      assert Live(st.table, s);
      assert st.timers - {s} + {s} == st.timers;
    }
  }

  /** Both erase forms take out the entry that they name and no other; only one of them cancels the timer. */
  lemma EraseTakesOut<S, A>(st: State<S, A>, k: nat, id: Id)
    requires Inv(st)
    ensures var plain, timed := EraseSession(st, k, id), EraseTimerSession(st, k, id);
            && At(plain, k, id) == None && OthersAsBefore(st, plain, k, id) && plain.timers == st.timers
            && At(timed, k, id) == None && OthersAsBefore(st, timed, k, id)
            && timed.timers == (if At(st, k, id).Some? then st.timers - {At(st, k, id).value} else st.timers)
            && plain.table.next == timed.table.next == st.table.next
            && plain.addr == timed.addr == st.addr && plain.sid == timed.sid == st.sid
            && (At(st, k, id) == None ==> plain == timed == st)
  {
    if Has(st.table, k, id) {
      EntryIsLive(st.table, k, id);
    }
  }
}
