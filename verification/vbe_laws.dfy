/** What the events of the VBE service do to its maps, arrays and timers, and when a checked transfer is proposed. */
module VbeLaws {
  import opened Options
  import opened WrappingId
  import opened SessionTable
  import opened ServerSpec
  import opened ServerRuns
  import opened Runs
  import opened VbeSpec
  import opened VbeInvariant
  import opened VbeRuns

  // ---------- single events ----------

  /** What `id` of map `k` gives. */
  ghost function At<H, S>(v: Vbe<H, S>, k: nat, id: Id): Option<S> {
    if k < |v.st.table.maps| && id in v.st.table.maps[k] then Some(v.st.table.maps[k][id]) else None
  }

  ghost predicate OthersAsBefore<H, S>(v: Vbe<H, S>, v': Vbe<H, S>, k: nat, id: Id) {
    forall k': nat, id': Id | k' != k || id' != id :: At(v', k', id') == At(v, k', id')
  }

  /** `s` is under the counter in map `k`, under its timer and own id; the counter has moved on; nothing else in the maps has changed. */
  ghost predicate StoredNow<H, S>(v: Vbe<H, S>, v': Vbe<H, S>, k: nat, s: S) {
    var id := v.st.table.next;
    && At(v, k, id) == None && At(v', k, id) == Some(s) && OthersAsBefore(v, v', k, id)
    && s !in v.st.timers && v'.st.timers == v.st.timers + {s}
    && s in v'.st.sid && v'.st.sid[s] == id
    && v'.st.table.next as int == (id as int + 1) % 0x1_0000_0000
  }

  /** `s` is at the end of the array of `h`, and no other array has changed. */
  ghost predicate SeatedNow<H, S>(v: Vbe<H, S>, v': Vbe<H, S>, s: S, h: H) {
    && h in v.st.arrays && s in v'.st.handler && v'.st.handler[s] == h
    && v'.st.arrays == v.st.arrays[h := v.st.arrays[h] + [s]]
  }

  /** The entry is gone, with the timer and the array slot of its session; nothing else has changed. */
  ghost predicate GoneNow<H, S>(v: Vbe<H, S>, v': Vbe<H, S>, k: nat, id: Id, s: S) {
    && At(v, k, id) == Some(s) && At(v', k, id) == None && OthersAsBefore(v, v', k, id)
    && v'.st.timers == v.st.timers - {s}
    && s in v.st.handler && v.st.handler[s] in v.st.arrays && s in v.st.arrays[v.st.handler[s]]
    && v'.st.arrays.Keys == v.st.arrays.Keys
    && (forall h | h in v.st.arrays ::
          multiset(v'.st.arrays[h]) == multiset(v.st.arrays[h]) - (if v.st.handler[s] == h then multiset{s} else multiset{}))
  }

  lemma TakesOut<H, S>(v: Vbe<H, S>, k: nat, id: Id, freed: set<S>)
    requires VbeInv(v)
    ensures var v' := TakeOut(v, k, id, freed);
            && v'.freed == v.freed + freed && v'.parked == v.parked
            && (At(v, k, id).Some? ==> GoneNow(v, v', k, id, At(v, k, id).value))
            && (At(v, k, id) == None ==> v'.st == v.st)
  {
    if Has(v.st.table, k, id) {
      EntryIsMade(v, k, id);
      var s := v.st.table.maps[k][id];
      assert Kept(v.st, s);
      var h := v.st.handler[s];
      assert Placed(v.st, v.parked, h);
      WithoutIsMultisetMinus(v.st.arrays[h], s);
    }
  }

  /** A login or an operation is opened. */
  lemma OpenPutsIn<H, S>(v: Vbe<H, S>, kind: nat, s: S, h: H)
    requires VbeInv(v) && VbeEnabled(v, Open(kind, s, h))
    ensures var v' := VbeStep(v, Open(kind, s, h)); StoredNow(v, v', kind, s) && SeatedNow(v, v', s, h)
  {
    assert s in v.st.timers ==> Live(v.st.table, s);
  }

  /** A direct transfer is stored if its proposal could be sent; else it is in the array alone. */
  lemma DirectPutsIn<H, S>(v: Vbe<H, S>, t: S, h: H, memory: Id, sent: bool)
    requires VbeInv(v) && VbeEnabled(v, DirectTransfer(t, h, memory, sent))
    ensures var v' := VbeStep(v, DirectTransfer(t, h, memory, sent));
            && SeatedNow(v, v', t, h)
            && (sent ==> StoredNow(v, v', TRANSFER, t) && v'.parked == v.parked)
            && (!sent ==> v'.st.table == v.st.table && v'.st.timers == v.st.timers && v'.parked == v.parked + {t})
  {
    assert t in v.st.timers ==> Live(v.st.table, t);
  }

  /** A reply takes out the entry that it names. */
  lemma ReplyTakesOut<H, S>(v: Vbe<H, S>, kind: nat, id: Id, deleted: bool)
    requires VbeInv(v) && VbeEnabled(v, VbeEvent.Reply(kind, id, deleted))
    ensures var v' := VbeStep(v, VbeEvent.Reply(kind, id, deleted));
            && (At(v, kind, id).Some? ==>
                  GoneNow(v, v', kind, id, At(v, kind, id).value) && v'.freed == v.freed + (if deleted then {At(v, kind, id).value} else {}))
            && (At(v, kind, id) == None ==> v'.st == v.st && v'.freed == v.freed)
  {
    TakesOut(v, kind, id, if deleted && Has(v.st.table, kind, id) then {v.st.table.maps[kind][id]} else {});
  }

  /** A timeout takes out the session and deletes it, unless it is a check-user session: then only the timer is gone. */
  lemma TimeOutTakesOut<H, S>(v: Vbe<H, S>, s: S)
    requires VbeInv(v) && s in v.st.timers
    ensures s in v.st.table.ticket && s in v.st.sid
    ensures var v', kind := VbeStep(v, TimeOut(s)), v.st.table.ticket[s].kind;
            if kind == CHECK_USER
            then v'.st.table == v.st.table && v'.st.arrays == v.st.arrays && v'.st.timers == v.st.timers - {s} && v'.freed == v.freed
            else GoneNow(v, v', kind, v.st.sid[s], s) && v'.freed == v.freed + {s}
  {
    assert Live(v.st.table, s) && Kept(v.st, s);
    if !IsCheck(v, s) {
      var k, id := v.st.table.ticket[s].kind, IdOf(v.st.table, s);
      ExpireErases(v.st, v.parked, s);
      TimeOutIsTakeOut(v, s, k, id);
      TakesOut(v, k, id, {s});
      assert At(v, k, id) == Some(s);
    }
  }

  lemma TimeOutIsTakeOut<H, S>(v: Vbe<H, S>, s: S, k: nat, id: Id)
    requires s in v.st.timers && !IsCheck(v, s) && Expire(v.st, s) == EraseSession(v.st, k, id)
    ensures VbeStep(v, TimeOut(s)) == TakeOut(v, k, id, {s})
  {
  }

  /** So does a network error of a stored session, again unless it is a check-user session: then nothing is done. */
  lemma NetErrorTakesOut<H, S>(v: Vbe<H, S>, h: H, s: S)
    requires VbeInv(v) && h in v.st.arrays && s in v.st.arrays[h] && s !in v.parked
    ensures s in v.st.table.ticket && s in v.st.sid
    ensures var v', kind := NetErrorOf(v, s), v.st.table.ticket[s].kind;
            if kind == CHECK_USER then v' == v else GoneNow(v, v', kind, v.st.sid[s], s) && v'.freed == v.freed + {s}
  {
    SeatedIsMade(v, h, s);
    if !IsCheck(v, s) {
      TakesOut(v, KindOf(v, s), v.st.sid[s], {s});
    }
  }

  /** The reply to a transfer changes no map, array or timer; a good one deletes the transfer. */
  lemma TransferReplyDeletes<H, S>(v: Vbe<H, S>, id: Id, ok: bool)
    requires VbeInv(v)
    ensures var v' := VbeStep(v, TransferReply(id, ok));
            v'.st == v.st && v'.parked == v.parked && v'.freed == v.freed + (if ok && At(v, TRANSFER, id).Some? then {At(v, TRANSFER, id).value} else {})
  {
  }

  // ---------- checks ----------

  /** The check under `id`, its transfer and its channel. */
  ghost predicate IsCheckOf<H, S>(v: Vbe<H, S>, id: Id, t: S, channel: Channel) {
    && At(v, CHECK_USER, id).Some?
    && var c := At(v, CHECK_USER, id).value;
       c in v.transferOf && v.transferOf[c] == t && c in v.channelOf && v.channelOf[c] == channel
  }

  lemma ConfirmationIs<H, S>(v: Vbe<H, S>, id: Id, sent: bool)
    requires Answers(v, id) && VbeEnabled(v, CheckReply(id, true, sent)) && TRANSFER < |Confirmed(v, id).st.table.maps|
    ensures var left, t := Confirmed(v, id), v.transferOf[v.st.table.maps[CHECK_USER][id]];
            VbeStep(v, CheckReply(id, true, sent))
            == if Remaining(v, id) == {} && sent then left.(st := Propose(left.st, t), parked := v.parked - {t}) else left
  {
  }

  /** The check is gone and its channel is off the list. */
  lemma ConfirmedIs<H, S>(v: Vbe<H, S>, id: Id, t: S, channel: Channel)
    requires VbeInv(v) && IsCheckOf(v, id, t, channel)
    ensures Answers(v, id) && v.transferOf[v.st.table.maps[CHECK_USER][id]] == t && v.channelOf[v.st.table.maps[CHECK_USER][id]] == channel
    ensures channel in v.unchecked[t] && (Remaining(v, id) == {} <==> v.unchecked[t] == {channel})
    ensures var left := Confirmed(v, id);
            && At(left, CHECK_USER, id) == None && OthersAsBefore(v, left, CHECK_USER, id)
            && left.st.timers == v.st.timers - {At(v, CHECK_USER, id).value} && left.st.table.next == v.st.table.next
            && left.parked == v.parked && left.unchecked == v.unchecked[t := v.unchecked[t] - {channel}]
            && |left.st.table.maps| == KINDS
  {
    AnswersIff(v, id);
    var c := v.st.table.maps[CHECK_USER][id];
    assert Known(v, c);
    TakesOut(v, CHECK_USER, id, {c});
  }

  lemma ProposePutsIn<H, S>(st: State<H, S>, t: S)
    requires TRANSFER < |st.table.maps|
    ensures var st', next := Propose(st, t), st.table.next;
            && next in st'.table.maps[TRANSFER] && st'.table.maps[TRANSFER][next] == t
            && (forall k: nat, id: Id | k < |st.table.maps| && (k != TRANSFER || id != next) ::
                  (id in st'.table.maps[k] <==> id in st.table.maps[k]) && (id in st.table.maps[k] ==> st'.table.maps[k][id] == st.table.maps[k][id]))
            && st'.timers == st.timers + {t} && st'.sid == st.sid[t := next] && st'.arrays == st.arrays
            && st'.table.next as int == (next as int + 1) % 0x1_0000_0000 && |st'.table.maps| == |st.table.maps|
  {
  }

  /** The transfer of a check is parked: in no map, without a timer. */
  lemma CheckedIsNowhere<H, S>(v: Vbe<H, S>, id: Id, t: S, channel: Channel)
    requires VbeInv(v) && Clean(v) && IsCheckOf(v, id, t, channel)
    ensures t in v.parked && t !in v.st.timers && forall k: nat, i: Id :: At(v, k, i) != Some(t)
  {
    AnswersIff(v, id);
    assert Checked(v, t);
    CheckedIsParked(v, t);
    forall k: nat, i: Id
      ensures At(v, k, i) != Some(t)
    {
      if At(v, k, i) == Some(t) {
        EntryIsMade(v, k, i);
      }
    }
  }

  /**
   A confirmed check goes. If its channel was the only one of its transfer unchecked and
   the proposal can be sent, the transfer is now stored, timed, under the drawn id, and
   no longer parked; otherwise it stays parked, with exactly that channel gone.
   */
  lemma ConfirmationProposesIff<H, S>(v: Vbe<H, S>, id: Id, sent: bool, t: S, channel: Channel)
    requires VbeInv(v) && Clean(v) && VbeEnabled(v, CheckReply(id, true, sent)) && IsCheckOf(v, id, t, channel)
    ensures t in v.parked && t in v.unchecked && channel in v.unchecked[t]
    ensures var v', next := VbeStep(v, CheckReply(id, true, sent)), v.st.table.next;
            var last := sent && v.unchecked[t] == {channel};
            && At(v', CHECK_USER, id) == None
            && (last <==> t !in v'.parked) && (last <==> At(v', TRANSFER, next) == Some(t)) && (last <==> t in v'.st.timers)
            && (last ==> t in v'.st.sid && v'.st.sid[t] == next && v'.parked == v.parked - {t})
            && (last ==> v'.st.table.next as int == (next as int + 1) % 0x1_0000_0000)
            && (!last ==> v'.parked == v.parked && v'.st.table.next == next)
            && v'.unchecked == v.unchecked[t := v.unchecked[t] - {channel}]
  {
    ConfirmedIs(v, id, t, channel);
    CheckedIsNowhere(v, id, t, channel);
    ConfirmationIs(v, id, sent);
    var left := Confirmed(v, id);
    assert At(left, TRANSFER, v.st.table.next) == At(v, TRANSFER, v.st.table.next);
    ProposePutsIn(left.st, t);
  }

  /** A failed check deletes itself and its transfer, and takes only itself out. */
  lemma FailureDeletes<H, S>(v: Vbe<H, S>, id: Id, sent: bool, t: S, channel: Channel)
    requires VbeInv(v) && IsCheckOf(v, id, t, channel)
    ensures var v', c := VbeStep(v, CheckReply(id, false, sent)), At(v, CHECK_USER, id).value;
            GoneNow(v, v', CHECK_USER, id, c) && v'.freed == v.freed + {c, t} && v'.parked == v.parked
  {
    AnswersIff(v, id);
    var c := v.st.table.maps[CHECK_USER][id];
    FailureIsTakeOut(v, id, sent, c, t);
    TakesOut(v, CHECK_USER, id, {c, t});
  }

  lemma FailureIsTakeOut<H, S>(v: Vbe<H, S>, id: Id, sent: bool, c: S, t: S)
    requires Answers(v, id) && v.st.table.maps[CHECK_USER][id] == c && v.transferOf[c] == t
    ensures VbeStep(v, CheckReply(id, false, sent)) == TakeOut(v, CHECK_USER, id, {c, t})
  {
  }

  ghost function Line<S>(checks: seq<Check<S>>): seq<S> {
    seq(|checks|, i requires 0 <= i < |checks| => checks[i].s)
  }

  ghost predicate StoredAs<S>(table: Table<S>, id: Id, s: S) {
    CHECK_USER < |table.maps| && id in table.maps[CHECK_USER] && table.maps[CHECK_USER][id] == s
  }

  /** The checks are stored one after the other under the next ids, each with its timer. */
  ghost predicate AllStored<S>(table: Table<S>, table': Table<S>, timers: set<S>, timers': set<S>, checks: seq<Check<S>>) {
    && |table.maps| == KINDS && |table'.maps| == KINDS
    && table'.next == Nth(table.next, |checks|)
    && (forall s | s in Line(checks) :: s in timers') && timers <= timers' && (forall s | s in timers' :: s in timers || s in Line(checks))
    && (forall i: nat | i < |checks| :: StoredAs(table', Nth(table.next, i), checks[i].s))
    && (forall k: nat | k < KINDS && k != CHECK_USER :: table'.maps[k] == table.maps[k])
  }

  lemma LineAppend<S>(checks: seq<Check<S>>, c: Check<S>)
    ensures Line(checks + [c]) == Line(checks) + [c.s]
  {
  }

  lemma OneMoreStored<H, S>(st: State<H, S>, before: State<H, S>, fewer: seq<Check<S>>, c: Check<S>, h: H)
    requires AllStored(st.table, before.table, st.timers, before.timers, fewer) && CanIssue(before.table, CHECK_USER, c.s) && h in before.arrays
    ensures var after := InsertSession(before, CHECK_USER, c.s, h);
            AllStored(st.table, after.table, st.timers, after.timers, fewer + [c])
  {
    var after, checks := InsertSession(before, CHECK_USER, c.s, h), fewer + [c];
    LineAppend(fewer, c);
    NextOfNth(st.table.next, |fewer|);
    forall i: nat | i < |checks|
      ensures StoredAs(after.table, Nth(st.table.next, i), checks[i].s)
    {
      if i < |fewer| {
        assert StoredAs(before.table, Nth(st.table.next, i), fewer[i].s);
      }
    }
  }

  lemma {:induction false} ChecksStored<H, S>(st: State<H, S>, checks: seq<Check<S>>, h: H)
    requires |st.table.maps| == KINDS && h in st.arrays && CanOpenChecks(st, checks, h)
    ensures var st' := OpenChecks(st, checks, h);
            && AllStored(st.table, st'.table, st.timers, st'.timers, checks)
            && st'.arrays == st.arrays[h := st.arrays[h] + Line(checks)]
  {
    if checks == [] {
      assert st.arrays[h] + Line(checks) == st.arrays[h];
    } else {
      var n := |checks| - 1;
      var fewer, c := checks[..n], checks[n];
      assert checks == fewer + [c];
      ChecksStored(st, fewer, h);
      OneMoreStored(st, OpenChecks(st, fewer, h), fewer, c, h);
      LineAppend(fewer, c);
      assert (st.arrays[h] + Line(fewer)) + [c.s] == st.arrays[h] + (Line(fewer) + [c.s]);
    }
  }

  lemma CheckedIs<H, S>(v: Vbe<H, S>, t: S, h: H, memory: Id, channels: set<Channel>, checks: seq<Check<S>>, sent: bool)
    requires VbeEnabled(v, CheckedTransfer(t, h, memory, channels, checks, sent)) && h in OpenChecks(v.st, checks, h).arrays
    ensures var v', asked := VbeStep(v, CheckedTransfer(t, h, memory, channels, checks, sent)), OpenChecks(v.st, checks, h);
            && v'.st.table == asked.table && v'.st.timers == asked.timers
            && v'.st.arrays == (if sent then asked.arrays[h := asked.arrays[h] + [t]] else asked.arrays)
            && v'.parked == (if sent then v.parked + {t} else v.parked) && v'.freed == (if sent then v.freed else v.freed + {t})
            && v'.unchecked == v.unchecked[t := channels]
  {
  }

  lemma CheckedOwners<H, S>(v: Vbe<H, S>, t: S, h: H, memory: Id, channels: set<Channel>, checks: seq<Check<S>>, sent: bool)
    requires VbeEnabled(v, CheckedTransfer(t, h, memory, channels, checks, sent))
    ensures var v' := VbeStep(v, CheckedTransfer(t, h, memory, channels, checks, sent));
            forall s | s in SessionsOf(checks) ::
              s in v'.transferOf && v'.transferOf[s] == t && s in v'.channelOf && v'.channelOf[s] == ChannelOf(checks, s)
  {
  }

  lemma ChecksAreOf<H, S>(v: Vbe<H, S>, v': Vbe<H, S>, made: set<S>, t: S, channels: set<Channel>, checks: seq<Check<S>>, i: nat)
    requires NewChecks(made, t, channels, checks, false) && i < |checks|
    requires StoredAs(v'.st.table, Nth(v.st.table.next, i), checks[i].s)
    requires forall s | s in SessionsOf(checks) ::
               s in v'.transferOf && v'.transferOf[s] == t && s in v'.channelOf && v'.channelOf[s] == ChannelOf(checks, s)
    ensures IsCheckOf(v', Nth(v.st.table.next, i), t, checks[i].channel)
  {
    ChannelIsOwn(made, t, channels, checks, i);
  }

  /** The arrays after the checks, with or without the parked transfer behind them. */
  lemma ParksLast<H, S>(arrays: map<H, seq<S>>, h: H, line: seq<S>, t: S)
    requires h in arrays
    ensures var asked := arrays[h := arrays[h] + line];
            && asked[h := asked[h] + [t]] == arrays[h := arrays[h] + line + [t]]
            && asked == arrays[h := arrays[h] + line + []]
  {
    var asked := arrays[h := arrays[h] + line];
    assert asked[h] == arrays[h] + line;
    assert arrays[h] + line + [] == arrays[h] + line;
  }

  /** A request over several channels: its checks are stored for it, each for its own channel; if all could be sent it is parked, else deleted. */
  lemma CheckedPutsIn<H, S>(v: Vbe<H, S>, t: S, h: H, memory: Id, channels: set<Channel>, checks: seq<Check<S>>, sent: bool, v': Vbe<H, S>)
    requires VbeInv(v) && VbeEnabled(v, CheckedTransfer(t, h, memory, channels, checks, sent))
    requires v' == VbeStep(v, CheckedTransfer(t, h, memory, channels, checks, sent))
    ensures AllStored(v.st.table, v'.st.table, v.st.timers, v'.st.timers, checks)
    ensures v'.st.arrays == v.st.arrays[h := v.st.arrays[h] + Line(checks) + if sent then [t] else []]
    ensures v'.unchecked == v.unchecked[t := channels]
    ensures forall i: nat | i < |checks| :: IsCheckOf(v', Nth(v.st.table.next, i), t, checks[i].channel)
    ensures v'.parked == (if sent then v.parked + {t} else v.parked) && v'.freed == (if sent then v.freed else v.freed + {t})
  {
    ChecksStored(v.st, checks, h);
    CheckedIs(v, t, h, memory, channels, checks, sent);
    CheckedOwners(v, t, h, memory, channels, checks, sent);
    ParksLast(v.st.arrays, h, Line(checks), t);
    forall i: nat | i < |checks|
      ensures IsCheckOf(v', Nth(v.st.table.next, i), t, checks[i].channel)
    {
      assert StoredAs(v'.st.table, Nth(v.st.table.next, i), checks[i].s);
      ChecksAreOf(v, v', v.made, t, channels, checks, i);
    }
  }

  lemma ChannelIsOwn<S>(made: set<S>, t: S, channels: set<Channel>, checks: seq<Check<S>>, i: nat)
    requires NewChecks(made, t, channels, checks, false) && i < |checks|
    ensures checks[i].s in SessionsOf(checks) && ChannelOf(checks, checks[i].s) == checks[i].channel
  {
    assert checks[i] in checks;
  }

  // ---------- a transfer's checks over a run ----------

  /** The channel of `t` that the event confirms, if any. */
  ghost function ConfirmedNow<H, S>(v: Vbe<H, S>, e: VbeEvent<H, S>, t: S): set<Channel> {
    if e.CheckReply? && e.ok && At(v, CHECK_USER, e.id).Some? then
      var c := At(v, CHECK_USER, e.id).value;
      if c in v.transferOf && v.transferOf[c] == t && c in v.channelOf then {v.channelOf[c]} else {}
    else {}
  }

  ghost function ConfirmedIn<H, S>(v: Vbe<H, S>, es: seq<VbeEvent<H, S>>, t: S): set<Channel>
    requires Valid(VbeMove(), v, es)
    decreases |es|
  {
    if es == [] then {} else ConfirmedNow(v, es[0], t) + ConfirmedIn(VbeStep(v, es[0]), es[1..], t)
  }

  /** Whenever a check of `t` is confirmed, a proposal can be sent. */
  ghost predicate SentFor<H, S>(v: Vbe<H, S>, es: seq<VbeEvent<H, S>>, t: S)
    requires Valid(VbeMove(), v, es)
    decreases |es|
  {
    es == [] || ((ConfirmedNow(v, es[0], t) != {} ==> es[0].sent) && SentFor(VbeStep(v, es[0]), es[1..], t))
  }

  /** The checks of other transfers are no concern of this one. */
  lemma OtherReply<H, S>(v: Vbe<H, S>, id: Id, ok: bool, sent: bool, t: S)
    requires VbeInv(v) && Clean(v) && VbeEnabled(v, CheckReply(id, ok, sent)) && Harmless(v, CheckReply(id, ok, sent))
    requires t in v.unchecked && ConfirmedNow(v, CheckReply(id, ok, sent), t) == {}
    ensures var v' := VbeStep(v, CheckReply(id, ok, sent));
            t in v'.unchecked && v'.unchecked[t] == v.unchecked[t] && (t in v'.parked <==> t in v.parked)
  {
    AnswersIff(v, id);
    if Answers(v, id) {
      var c := v.st.table.maps[CHECK_USER][id];
      assert IsCheckOf(v, id, v.transferOf[c], v.channelOf[c]);
      ConfirmationProposesIff(v, id, sent, v.transferOf[c], v.channelOf[c]);
    }
  }

  /** One event takes the confirmed channel off the list; the transfer is parked until the list is empty. */
  lemma OneEvent<H, S>(v: Vbe<H, S>, e: VbeEvent<H, S>, t: S)
    requires VbeInv(v) && Clean(v) && VbeEnabled(v, e) && Harmless(v, e) && t in v.unchecked && t in v.made
    requires ConfirmedNow(v, e, t) != {} ==> e.sent
    ensures var v', now := VbeStep(v, e), ConfirmedNow(v, e, t);
            && t in v'.unchecked && v'.unchecked[t] == v.unchecked[t] - now && now <= v.unchecked[t] && t in v'.made
            && (now == {} ==> (t in v'.parked <==> t in v.parked))
            && (now != {} ==> t in v.parked && (t in v'.parked <==> v'.unchecked[t] != {}))
  {
    if e.CheckReply? {
      if ConfirmedNow(v, e, t) == {} {
        OtherReply(v, e.id, e.ok, e.sent, t);
      } else {
        var c := At(v, CHECK_USER, e.id).value;
        ConfirmationProposesIff(v, e.id, e.sent, t, v.channelOf[c]);
      }
      CheckReplyMakesNothing(v, e.id, e.ok, e.sent);
    } else {
      OtherEvent(v, e, t);
    }
  }

  lemma CheckReplyMakesNothing<H, S>(v: Vbe<H, S>, id: Id, ok: bool, sent: bool)
    requires VbeEnabled(v, CheckReply(id, ok, sent))
    ensures VbeStep(v, CheckReply(id, ok, sent)).made == v.made
  {
  }

  lemma OtherEvent<H, S>(v: Vbe<H, S>, e: VbeEvent<H, S>, t: S)
    requires VbeEnabled(v, e) && !e.CheckReply? && t in v.unchecked && t in v.made
    ensures var v' := VbeStep(v, e);
            t in v'.unchecked && v'.unchecked[t] == v.unchecked[t] && t in v'.made && (t in v'.parked <==> t in v.parked)
  {
  }

  /**
   A checked transfer is parked until each of its channels has been confirmed, in
   whatever order, and from then on it is not.
   */
  lemma {:induction false} ParkedUntilConfirmed<H, S>(v: Vbe<H, S>, es: seq<VbeEvent<H, S>>, t: S)
    requires VbeInv(v) && Clean(v) && t in v.unchecked && t in v.made && (t in v.parked <==> v.unchecked[t] != {})
    requires Valid(VbeMove(), v, es) && AllHarmless(v, es) && SentFor(v, es, t)
    ensures var end := End(VbeMove(), v, es);
            && ConfirmedIn(v, es, t) <= v.unchecked[t]
            && t in end.unchecked && end.unchecked[t] == v.unchecked[t] - ConfirmedIn(v, es, t)
            && (t in end.parked <==> ConfirmedIn(v, es, t) != v.unchecked[t])
    decreases |es|
  {
    if es != [] {
      var next := VbeStep(v, es[0]);
      OneEvent(v, es[0], t);
      CleanIff(v, es[0]);
      InvVbeStep(v, es[0]);
      ParkedUntilConfirmed(next, es[1..], t);
    }
  }

  /** The event that confirms the last channel stores the transfer under the drawn id, with its timer. */
  lemma ProposedAtLast<H, S>(v: Vbe<H, S>, es: seq<VbeEvent<H, S>>, t: S, id: Id, channel: Channel)
    requires VbeInv(v) && Clean(v) && t in v.unchecked && t in v.made && t in v.parked && v.unchecked[t] != {}
    requires Valid(VbeMove(), v, es) && AllHarmless(v, es) && SentFor(v, es, t)
    requires var end := End(VbeMove(), v, es);
             IsCheckOf(end, id, t, channel) && VbeEnabled(end, CheckReply(id, true, true))
    ensures var end := End(VbeMove(), v, es);
            var end' := VbeStep(end, CheckReply(id, true, true));
            ConfirmedIn(v, es, t) + {channel} == v.unchecked[t]
            <==> At(end', TRANSFER, end.st.table.next) == Some(t) && t in end'.st.timers && t !in end'.parked
  {
    ParkedUntilConfirmed(v, es, t);
    AlwaysCleanFrom(v, es);
    EndIsClean(v, es);
    var end := End(VbeMove(), v, es);
    ConfirmationProposesIff(end, id, true, t, channel);
    assert end.unchecked[t] == {channel} <==> ConfirmedIn(v, es, t) + {channel} == v.unchecked[t];
  }
}
