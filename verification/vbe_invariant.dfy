/** What every event of the VBE service keeps, as long as nothing deleted is referred to. */
module VbeInvariant {
  import opened Options
  import opened WrappingId
  import opened SessionTable
  import opened ServerSpec
  import opened ServerRuns
  import opened VbeSpec

  // ---------- maps, arrays and timers ----------

  /** A stored session is in its handler's array, and its timer is armed unless it is a check-user session. */
  ghost predicate Kept<H, S>(st: State<H, S>, s: S)
    requires s in st.table.ticket
  {
    && s in st.sid && st.sid[s] == IdOf(st.table, s)
    && s in st.handler && st.handler[s] in st.arrays && s in st.arrays[st.handler[s]]
    && (s in st.timers || st.table.ticket[s].kind == CHECK_USER)
  }

  ghost predicate Placed<H, S>(st: State<H, S>, parked: set<S>, h: H)
    requires h in st.arrays
  {
    && NoDup(st.arrays[h])
    && forall s | s in st.arrays[h] :: (Live(st.table, s) || s in parked) && BelongsTo(st, s, h)
  }

  /** A parked transfer is in its handler's array and has never been in a map. */
  ghost predicate Waits<H, S>(st: State<H, S>, t: S) {
    t !in st.table.ticket && t in st.handler && st.handler[t] in st.arrays && t in st.arrays[st.handler[t]]
  }

  ghost predicate Weak<H, S>(st: State<H, S>, parked: set<S>) {
    && TableInv(st.table) && |st.table.maps| == KINDS
    && (forall s | s in st.table.ticket && Live(st.table, s) :: Kept(st, s))
    && (forall h | h in st.arrays :: Placed(st, parked, h))
    && (forall s | s in st.timers :: Live(st.table, s))
    && (forall t | t in parked :: Waits(st, t))
  }

  lemma WeakInsert<H, S>(st: State<H, S>, parked: set<S>, k: nat, s: S, h: H)
    requires Weak(st, parked) && h in st.arrays && CanIssue(st.table, k, s) && s !in parked
    ensures Weak(InsertSession(st, k, s, h), parked)
  {
    InvIssue(st.table, k, s);
    LiveAfterIssue(st.table, k, s);
    var st' := InsertSession(st, k, s, h);
    forall x | x in st'.table.ticket && Live(st'.table, x)
      ensures Kept(st', x)
    {
      if x != s {
        assert Kept(st, x);
      }
    }
    forall g | g in st'.arrays
      ensures Placed(st', parked, g)
    {
      assert Placed(st, parked, g);
    }
    forall t | t in parked
      ensures Waits(st', t)
    {
      assert Waits(st, t);
    }
  }

  lemma WeakErase<H, S>(st: State<H, S>, parked: set<S>, k: nat, id: Id)
    requires Weak(st, parked)
    ensures Weak(EraseSession(st, k, id), parked)
  {
    if Has(st.table, k, id) {
      var s := st.table.maps[k][id];
      InvRemove(st.table, k, id);
      LiveAfterRemove(st.table, k, id);
      assert Kept(st, s) && Placed(st, parked, st.handler[s]);
      WithoutElement(st.arrays[st.handler[s]], s);
      var st' := EraseSession(st, k, id);
      forall x | x in st'.table.ticket && Live(st'.table, x)
        ensures Kept(st', x)
      {
        assert Kept(st, x);
      }
      forall g | g in st'.arrays
        ensures Placed(st', parked, g)
      {
        assert Placed(st, parked, g);
      }
      forall t | t in parked
        ensures Waits(st', t)
      {
        assert Waits(st, t);
      }
    }
  }

  lemma WeakPark<H, S>(st: State<H, S>, parked: set<S>, t: S, h: H, memory: Id)
    requires Weak(st, parked) && h in st.arrays && t !in st.table.ticket && t !in parked
    ensures Weak(Park(st, t, h, memory), parked + {t})
  {
    var st' := Park(st, t, h, memory);
    forall x | x in st'.table.ticket && Live(st'.table, x)
      ensures Kept(st', x)
    {
      assert Kept(st, x);
    }
    forall g | g in st'.arrays
      ensures Placed(st', parked + {t}, g)
    {
      assert Placed(st, parked, g);
    }
    forall x | x in parked + {t}
      ensures Waits(st', x)
    {
      assert x != t ==> Waits(st, x);
    }
  }

  lemma WeakPropose<H, S>(st: State<H, S>, parked: set<S>, t: S)
    requires Weak(st, parked) && t in parked && CanIssue(st.table, TRANSFER, t)
    ensures Weak(Propose(st, t), parked - {t})
  {
    InvIssue(st.table, TRANSFER, t);
    LiveAfterIssue(st.table, TRANSFER, t);
    assert Waits(st, t);
    var st' := Propose(st, t);
    forall x | x in st'.table.ticket && Live(st'.table, x)
      ensures Kept(st', x)
    {
      if x != t {
        assert Kept(st, x);
      }
    }
    forall g | g in st'.arrays
      ensures Placed(st', parked - {t}, g)
    {
      assert Placed(st, parked, g);
    }
    forall x | x in parked - {t}
      ensures Waits(st', x)
    {
      assert Waits(st, x);
    }
  }

  lemma WeakSilence<H, S>(st: State<H, S>, parked: set<S>, s: S)
    requires Weak(st, parked) && s in st.table.ticket && st.table.ticket[s].kind == CHECK_USER
    ensures Weak(st.(timers := st.timers - {s}), parked)
  {
    var st' := st.(timers := st.timers - {s});
    forall x | x in st'.table.ticket && Live(st'.table, x)
      ensures Kept(st', x)
    {
      assert Kept(st, x);
    }
    forall g | g in st'.arrays
      ensures Placed(st', parked, g)
    {
      assert Placed(st, parked, g);
    }
    forall x | x in parked
      ensures Waits(st', x)
    {
      assert Waits(st, x);
    }
  }

  lemma WeakConnect<H, S>(st: State<H, S>, parked: set<S>, h: H)
    requires Weak(st, parked) && h !in st.arrays
    ensures Weak(st.(arrays := st.arrays[h := []]), parked)
  {
    var st' := st.(arrays := st.arrays[h := []]);
    forall x | x in st'.table.ticket && Live(st'.table, x)
      ensures Kept(st', x)
    {
      assert Kept(st, x);
    }
    forall g | g in st'.arrays
      ensures Placed(st', parked, g)
    {
      if g != h {
        assert Placed(st, parked, g);
      }
    }
    forall x | x in parked
      ensures Waits(st', x)
    {
      assert Waits(st, x);
    }
  }

  /** A session that is not a check-user session is erased from everywhere by its timeout. */
  lemma ExpireErases<H, S>(st: State<H, S>, parked: set<S>, s: S)
    requires Weak(st, parked) && s in st.timers
    ensures s in st.table.ticket && Found(st, st.table.ticket[s].kind, IdOf(st.table, s)) == Some(s)
    ensures Expire(st, s) == EraseSession(st, st.table.ticket[s].kind, IdOf(st.table, s))
  {
    assert Kept(st, s);
    assert st.timers - {s} - {s} == st.timers - {s};
  }

  // ---------- the checks of a transfer ----------

  ghost predicate LiveCheck<H, S>(v: Vbe<H, S>, c: S) {
    IsCheck(v, c) && Live(v.st.table, c)
  }

  /** A stored check-user session is for a channel still unchecked of a transfer that is parked, or else was deleted. */
  ghost predicate Known<H, S>(v: Vbe<H, S>, c: S) {
    && c in v.transferOf && c in v.channelOf && v.transferOf[c] in v.unchecked
    && v.channelOf[c] in v.unchecked[v.transferOf[c]]
    && (v.transferOf[c] in v.parked || v.transferOf[c] in v.freed)
  }

  ghost predicate SameCheck<H, S>(v: Vbe<H, S>, c: S, d: S) {
    && c in v.transferOf && d in v.transferOf && v.transferOf[c] == v.transferOf[d]
    && c in v.channelOf && d in v.channelOf && v.channelOf[c] == v.channelOf[d]
  }

  ghost predicate VbeInv<H, S>(v: Vbe<H, S>) {
    && Weak(v.st, v.parked)
    && v.st.table.ticket.Keys <= v.made && v.parked <= v.made && v.freed <= v.made
    && (forall c | c in v.st.table.ticket && LiveCheck(v, c) :: Known(v, c))
    && (forall c, d | c in v.st.table.ticket && d in v.st.table.ticket && LiveCheck(v, c) && LiveCheck(v, d) && c != d :: !SameCheck(v, c, d))
  }

  lemma InvVbeInit<H, S>()
    ensures VbeInv(VbeInit<H, S>())
  {
    InvEmpty<S>(KINDS, 0);
  }

  /** The state changes and the checks do not. */
  lemma InvOfWeak<H, S>(v: Vbe<H, S>, v': Vbe<H, S>)
    requires VbeInv(v) && Weak(v'.st, v'.parked)
    requires v'.st.table.ticket.Keys <= v'.made && v'.parked <= v'.made && v'.freed <= v'.made
    requires v.parked <= v'.parked && v.freed <= v'.freed
    requires v'.transferOf == v.transferOf && v'.channelOf == v.channelOf
    requires forall t | t in v.made && t in v.unchecked :: t in v'.unchecked && v'.unchecked[t] == v.unchecked[t]
    requires forall c | c in v'.st.table.ticket && LiveCheck(v', c) :: c in v.st.table.ticket && LiveCheck(v, c)
    ensures VbeInv(v')
  {
    forall c | c in v'.st.table.ticket && LiveCheck(v', c)
      ensures Known(v', c)
    {
      assert Known(v, c);
    }
    forall c, d | c in v'.st.table.ticket && d in v'.st.table.ticket && LiveCheck(v', c) && LiveCheck(v', d) && c != d
      ensures !SameCheck(v', c, d)
    {
      assert !SameCheck(v, c, d);
    }
  }

  lemma InvTakeOut<H, S>(v: Vbe<H, S>, k: nat, id: Id, freed: set<S>)
    requires VbeInv(v) && freed <= v.made
    ensures VbeInv(TakeOut(v, k, id, freed))
  {
    WeakErase(v.st, v.parked, k, id);
    var v' := TakeOut(v, k, id, freed);
    if Has(v.st.table, k, id) {
      LiveAfterRemove(v.st.table, k, id);
    }
    InvOfWeak(v, v');
  }

  lemma EntryIsMade<H, S>(v: Vbe<H, S>, k: nat, id: Id)
    requires VbeInv(v) && Has(v.st.table, k, id)
    ensures var s := v.st.table.maps[k][id];
            s in v.made && s !in v.parked && Live(v.st.table, s) && v.st.table.ticket[s].kind == k && IdOf(v.st.table, s) == id
  {
    EntryIsLive(v.st.table, k, id);
    var s := v.st.table.maps[k][id];
    assert s in v.parked ==> Waits(v.st, s);
  }

  lemma InvInsertNew<H, S>(v: Vbe<H, S>, k: nat, s: S, h: H, unchecked: map<S, set<Channel>>)
    requires VbeInv(v) && k != CHECK_USER && s !in v.made && h in v.st.arrays && CanIssue(v.st.table, k, s)
    requires forall t | t in v.made && t in v.unchecked :: t in unchecked && unchecked[t] == v.unchecked[t]
    ensures VbeInv(v.(st := InsertSession(v.st, k, s, h), made := v.made + {s}, unchecked := unchecked))
  {
    WeakInsert(v.st, v.parked, k, s, h);
    LiveAfterIssue(v.st.table, k, s);
    InvOfWeak(v, v.(st := InsertSession(v.st, k, s, h), made := v.made + {s}, unchecked := unchecked));
  }

  lemma InvDirect<H, S>(v: Vbe<H, S>, t: S, h: H, memory: Id, sent: bool)
    requires VbeInv(v) && VbeEnabled(v, DirectTransfer(t, h, memory, sent))
    ensures VbeInv(VbeStep(v, DirectTransfer(t, h, memory, sent)))
  {
    if sent {
      InvInsertNew(v, TRANSFER, t, h, v.unchecked[t := {}]);
    } else {
      WeakPark(v.st, v.parked, t, h, memory);
      InvOfWeak(v, VbeStep(v, DirectTransfer(t, h, memory, sent)));
    }
  }

  /** What opening some checks changes in the tables. */
  ghost predicate Opens<H, S>(st: State<H, S>, st': State<H, S>, checks: set<S>) {
    && st'.table.ticket.Keys == st.table.ticket.Keys + checks
    && (forall s | s in checks :: s in st'.table.ticket && Live(st'.table, s) && st'.table.ticket[s].kind == CHECK_USER)
    && (forall s | s in st.table.ticket && s !in checks ::
          st'.table.ticket[s] == st.table.ticket[s] && (Live(st'.table, s) <==> Live(st.table, s)))
  }

  lemma OpensOneMore<H, S>(st: State<H, S>, before: State<H, S>, checks: set<S>, s: S, h: H)
    requires Opens(st, before, checks) && s !in before.table.ticket
    requires TableInv(before.table) && h in before.arrays && CanIssue(before.table, CHECK_USER, s)
    ensures Opens(st, InsertSession(before, CHECK_USER, s, h), checks + {s})
  {
    LiveAfterIssue(before.table, CHECK_USER, s);
  }

  lemma ChecksPrefix<S>(made: set<S>, t: S, channels: set<Channel>, checks: seq<Check<S>>)
    requires checks != [] && NewChecks(made, t, channels, checks, false)
    ensures var n := |checks| - 1; var fewer, s := checks[..n], checks[n].s;
            && NewChecks(made, t, channels, fewer, false) && s !in made && s !in SessionsOf(fewer)
            && SessionsOf(checks) == SessionsOf(fewer) + {s}
  {
    var n := |checks| - 1;
    assert checks == checks[..n] + [checks[n]];
  }

  /** Opening the checks one by one. */
  lemma {:induction false} ChecksOpened<H, S>(st: State<H, S>, parked: set<S>, made: set<S>, t: S, channels: set<Channel>, checks: seq<Check<S>>, h: H)
    requires Weak(st, parked) && st.table.ticket.Keys <= made && parked <= made && h in st.arrays
    requires NewChecks(made, t, channels, checks, false) && CanOpenChecks(st, checks, h)
    ensures var st' := OpenChecks(st, checks, h); Weak(st', parked) && h in st'.arrays && Opens(st, st', SessionsOf(checks))
  {
    if checks != [] {
      var n := |checks| - 1;
      var fewer, c := checks[..n], checks[n];
      ChecksPrefix(made, t, channels, checks);
      ChecksOpened(st, parked, made, t, channels, fewer, h);
      var before := OpenChecks(st, fewer, h);
      WeakInsert(before, parked, CHECK_USER, c.s, h);
      OpensOneMore(st, before, SessionsOf(fewer), c.s, h);
    }
  }

  lemma ChannelsDiffer<S>(made: set<S>, t: S, channels: set<Channel>, checks: seq<Check<S>>, c: S, d: S)
    requires NewChecks(made, t, channels, checks, false) && c in SessionsOf(checks)
    ensures ChannelOf(checks, c) in channels
    ensures d in SessionsOf(checks) && c != d ==> ChannelOf(checks, c) != ChannelOf(checks, d)
  {
  }

  /** How the new checks are entered. */
  ghost predicate Enters<H, S>(v: Vbe<H, S>, v': Vbe<H, S>, t: S, channels: set<Channel>, checks: seq<Check<S>>) {
    && Opens(v.st, v'.st, SessionsOf(checks))
    && v'.transferOf == v.transferOf + (map s | s in SessionsOf(checks) :: t)
    && v'.channelOf == v.channelOf + (map s | s in SessionsOf(checks) :: ChannelOf(checks, s))
    && v'.unchecked == v.unchecked[t := channels]
    && v.parked <= v'.parked && v.freed <= v'.freed && t in v'.parked + v'.freed
  }

  lemma OldCheck<H, S>(v: Vbe<H, S>, v': Vbe<H, S>, t: S, channels: set<Channel>, checks: seq<Check<S>>, c: S)
    requires VbeInv(v) && NewChecks(v.made, t, channels, checks, false) && Enters(v, v', t, channels, checks)
    requires c in v'.st.table.ticket && LiveCheck(v', c) && c !in SessionsOf(checks)
    ensures c in v.st.table.ticket && LiveCheck(v, c) && Known(v, c) && Known(v', c)
    ensures v.transferOf[c] != t && v'.transferOf[c] == v.transferOf[c] && v'.channelOf[c] == v.channelOf[c]
  {
    assert c in v.st.table.ticket && LiveCheck(v, c);
    assert Known(v, c);
    assert v.transferOf[c] in v.made;
  }

  lemma NewCheck<H, S>(v: Vbe<H, S>, v': Vbe<H, S>, t: S, channels: set<Channel>, checks: seq<Check<S>>, c: S)
    requires NewChecks(v.made, t, channels, checks, false) && Enters(v, v', t, channels, checks) && c in SessionsOf(checks)
    ensures Known(v', c) && v'.transferOf[c] == t && v'.channelOf[c] == ChannelOf(checks, c)
  {
    ChannelsDiffer(v.made, t, channels, checks, c, c);
  }

  lemma ChecksDiffer<H, S>(v: Vbe<H, S>, v': Vbe<H, S>, t: S, channels: set<Channel>, checks: seq<Check<S>>, c: S, d: S)
    requires VbeInv(v) && NewChecks(v.made, t, channels, checks, false) && Enters(v, v', t, channels, checks)
    requires c in v'.st.table.ticket && d in v'.st.table.ticket && LiveCheck(v', c) && LiveCheck(v', d) && c != d
    ensures !SameCheck(v', c, d)
  {
    var mine := SessionsOf(checks);
    if c in mine {
      NewCheck(v, v', t, channels, checks, c);
    } else {
      OldCheck(v, v', t, channels, checks, c);
    }
    if d in mine {
      NewCheck(v, v', t, channels, checks, d);
    } else {
      OldCheck(v, v', t, channels, checks, d);
    }
    if c in mine {
      ChannelsDiffer(v.made, t, channels, checks, c, d);
    } else if d !in mine {
      assert !SameCheck(v, c, d);
    }
  }

  lemma InvChecked<H, S>(v: Vbe<H, S>, t: S, h: H, memory: Id, channels: set<Channel>, checks: seq<Check<S>>, sent: bool)
    requires VbeInv(v) && VbeEnabled(v, CheckedTransfer(t, h, memory, channels, checks, sent))
    ensures VbeInv(VbeStep(v, CheckedTransfer(t, h, memory, channels, checks, sent)))
    ensures Enters(v, VbeStep(v, CheckedTransfer(t, h, memory, channels, checks, sent)), t, channels, checks)
  {
    ChecksOpened(v.st, v.parked, v.made, t, channels, checks, h);
    var asked := OpenChecks(v.st, checks, h);
    var v' := VbeStep(v, CheckedTransfer(t, h, memory, channels, checks, sent));
    if sent {
      WeakPark(asked, v.parked, t, h, memory);
    }
    assert v'.st.table == asked.table && Enters(v, v', t, channels, checks);
    forall c | c in v'.st.table.ticket && LiveCheck(v', c)
      ensures Known(v', c)
    {
      if c in SessionsOf(checks) {
        NewCheck(v, v', t, channels, checks, c);
      } else {
        OldCheck(v, v', t, channels, checks, c);
      }
    }
    forall c, d | c in v'.st.table.ticket && d in v'.st.table.ticket && LiveCheck(v', c) && LiveCheck(v', d) && c != d
      ensures !SameCheck(v', c, d)
    {
      ChecksDiffer(v, v', t, channels, checks, c, d);
    }
  }
}
