/**
 Exactly which events of the VBE service leave a deleted session referred to, and
 exactly which make map, array and timer disagree.
 */
module VbeRuns {
  import opened Options
  import opened WrappingId
  import opened SessionTable
  import opened ServerSpec
  import opened ServerRuns
  import opened Runs
  import opened VbeSpec
  import opened VbeInvariant

  // ---------- references to deleted sessions ----------

  /** A map, an array, a timer or a stored check-user session refers to `x`. */
  ghost predicate Refers<H, S>(v: Vbe<H, S>, x: S) {
    || (exists k: nat, id: Id :: Has(v.st.table, k, id) && v.st.table.maps[k][id] == x)
    || (exists h :: h in v.st.arrays && x in v.st.arrays[h])
    || x in v.st.timers
    || Checked(v, x)
  }

  ghost predicate Checked<H, S>(v: Vbe<H, S>, x: S) {
    exists c :: c in v.st.table.ticket && LiveCheck(v, c) && c in v.transferOf && v.transferOf[c] == x
  }

  ghost predicate Clean<H, S>(v: Vbe<H, S>) {
    forall x | x in v.freed :: !Refers(v, x)
  }

  ghost predicate Tied<H, S>(v: Vbe<H, S>, x: S) {
    Live(v.st.table, x) || x in v.parked || Checked(v, x)
  }

  lemma RefersIff<H, S>(v: Vbe<H, S>, x: S)
    requires VbeInv(v)
    ensures Refers(v, x) <==> Tied(v, x)
  {
    StoredOnce(v.st.table, x);
    if x in v.parked {
      assert Waits(v.st, x);
    }
    if h :| h in v.st.arrays && x in v.st.arrays[h] {
      assert Placed(v.st, v.parked, h);
    }
  }

  /** The transfer of a stored check is parked, unless something deleted is referred to. */
  lemma CheckedIsParked<H, S>(v: Vbe<H, S>, x: S)
    requires VbeInv(v) && Clean(v) && Checked(v, x)
    ensures x in v.parked && !Live(v.st.table, x) && x !in v.freed
  {
    var c :| c in v.st.table.ticket && LiveCheck(v, c) && c in v.transferOf && v.transferOf[c] == x;
    assert Known(v, c);
    RefersIff(v, x);
    assert x in v.parked ==> Waits(v.st, x);
  }

  // ---------- the remaining events keep the invariant ----------

  lemma AnswersIff<H, S>(v: Vbe<H, S>, id: Id)
    requires VbeInv(v)
    ensures Answers(v, id) <==> Has(v.st.table, CHECK_USER, id)
    ensures Answers(v, id) ==> LiveCheck(v, v.st.table.maps[CHECK_USER][id])
  {
    if Has(v.st.table, CHECK_USER, id) {
      EntryIsLive(v.st.table, CHECK_USER, id);
      assert LiveCheck(v, v.st.table.maps[CHECK_USER][id]);
      assert Known(v, v.st.table.maps[CHECK_USER][id]);
    }
  }

  /** The check is gone, and one channel fewer is unchecked. */
  ghost function Confirmed<H, S>(v: Vbe<H, S>, id: Id): Vbe<H, S>
    requires Answers(v, id)
  {
    var c := v.st.table.maps[CHECK_USER][id];
    TakeOut(v, CHECK_USER, id, {c}).(unchecked := v.unchecked[v.transferOf[c] := Remaining(v, id)])
  }

  lemma InvConfirmed<H, S>(v: Vbe<H, S>, id: Id)
    requires VbeInv(v) && Answers(v, id)
    ensures VbeInv(Confirmed(v, id))
    ensures forall x :: Live(Confirmed(v, id).st.table, x) <==> Live(v.st.table, x) && x != v.st.table.maps[CHECK_USER][id]
  {
    AnswersIff(v, id);
    EntryIsMade(v, CHECK_USER, id);
    var c := v.st.table.maps[CHECK_USER][id];
    WeakErase(v.st, v.parked, CHECK_USER, id);
    LiveAfterRemove(v.st.table, CHECK_USER, id);
    var v' := Confirmed(v, id);
    forall d | d in v'.st.table.ticket && LiveCheck(v', d)
      ensures Known(v', d)
    {
      assert LiveCheck(v, d) && d != c;
      assert Known(v, d) && Known(v, c) && !SameCheck(v, c, d);
    }
    forall d, e | d in v'.st.table.ticket && e in v'.st.table.ticket && LiveCheck(v', d) && LiveCheck(v', e) && d != e
      ensures !SameCheck(v', d, e)
    {
      assert !SameCheck(v, d, e);
    }
  }

  /** Once nothing of a parked transfer is unchecked it can be proposed. */
  lemma InvProposed<H, S>(v: Vbe<H, S>, t: S)
    requires VbeInv(v) && t in v.parked && CanIssue(v.st.table, TRANSFER, t)
    requires t in v.unchecked && v.unchecked[t] == {}
    ensures VbeInv(v.(st := Propose(v.st, t), parked := v.parked - {t}))
  {
    WeakPropose(v.st, v.parked, t);
    LiveAfterIssue(v.st.table, TRANSFER, t);
    var v' := v.(st := Propose(v.st, t), parked := v.parked - {t});
    forall d | d in v'.st.table.ticket && LiveCheck(v', d)
      ensures d in v.st.table.ticket && LiveCheck(v, d) && Known(v', d)
    {
      assert d != t;
      assert LiveCheck(v, d);
      assert Known(v, d);
    }
    forall d, e | d in v'.st.table.ticket && e in v'.st.table.ticket && LiveCheck(v', d) && LiveCheck(v', e) && d != e
      ensures !SameCheck(v', d, e)
    {
      assert !SameCheck(v, d, e);
    }
  }

  lemma InvCheckReply<H, S>(v: Vbe<H, S>, id: Id, ok: bool, sent: bool)
    requires VbeInv(v) && Clean(v) && VbeEnabled(v, CheckReply(id, ok, sent))
    ensures VbeInv(VbeStep(v, CheckReply(id, ok, sent)))
  {
    if Answers(v, id) {
      AnswersIff(v, id);
      EntryIsMade(v, CHECK_USER, id);
      var c := v.st.table.maps[CHECK_USER][id];
      var t := v.transferOf[c];
      assert Checked(v, t);
      CheckedIsParked(v, t);
      InvTakeOut(v, CHECK_USER, id, {c, t});
      InvConfirmed(v, id);
      if ok && sent && Remaining(v, id) == {} {
        InvProposed(Confirmed(v, id), t);
      }
    }
  }

  lemma InvNetError<H, S>(v: Vbe<H, S>, s: S)
    requires VbeInv(v) && s in v.made
    ensures VbeInv(NetErrorOf(v, s))
  {
    if !IsCheck(v, s) {
      if s in v.st.sid {
        InvTakeOut(v, KindOf(v, s), v.st.sid[s], {s});
      } else {
        InvOfWeak(v, NetErrorOf(v, s));
      }
    }
  }

  lemma SeatedIsMade<H, S>(v: Vbe<H, S>, h: H, s: S)
    requires VbeInv(v) && h in v.st.arrays && s in v.st.arrays[h]
    ensures s in v.made && BelongsTo(v.st, s, h) && (s in v.parked <==> !Live(v.st.table, s))
    ensures s !in v.parked ==> s in v.st.table.ticket && s in v.st.sid && Found(v.st, KindOf(v, s), v.st.sid[s]) == Some(s)
    ensures s in v.parked ==> s !in v.st.table.ticket
  {
    assert Placed(v.st, v.parked, h);
    if s in v.parked {
      assert Waits(v.st, s);
    } else {
      assert Kept(v.st, s);
    }
  }

  lemma InvVbeStep<H, S>(v: Vbe<H, S>, e: VbeEvent<H, S>)
    requires VbeInv(v) && Clean(v) && VbeEnabled(v, e)
    ensures VbeInv(VbeStep(v, e))
  {
    match e
    case Accept(h) =>
      WeakConnect(v.st, v.parked, h);
      InvOfWeak(v, VbeStep(v, e));
    case Open(kind, s, h) => InvInsertNew(v, kind, s, h, v.unchecked);
    case Reply(kind, id, deleted) =>
      if Has(v.st.table, kind, id) {
        EntryIsMade(v, kind, id);
      }
      InvTakeOut(v, kind, id, if deleted && Has(v.st.table, kind, id) then {v.st.table.maps[kind][id]} else {});
    case DirectTransfer(t, h, memory, sent) => InvDirect(v, t, h, memory, sent);
    case CheckedTransfer(t, h, memory, channels, checks, sent) => InvChecked(v, t, h, memory, channels, checks, sent);
    case CheckReply(id, ok, sent) => InvCheckReply(v, id, ok, sent);
    case TransferReply(id, ok) =>
      if Has(v.st.table, TRANSFER, id) {
        EntryIsMade(v, TRANSFER, id);
      }
      InvOfWeak(v, VbeStep(v, e));
    case TimeOut(s) =>
      assert Live(v.st.table, s) && Kept(v.st, s);
      if IsCheck(v, s) {
        WeakSilence(v.st, v.parked, s);
        InvOfWeak(v, VbeStep(v, e));
      } else {
        ExpireErases(v.st, v.parked, s);
        InvTakeOut(v, v.st.table.ticket[s].kind, IdOf(v.st.table, s), {s});
      }
    case NetError(s) =>
      var h :| h in v.st.arrays && s in v.st.arrays[h];
      SeatedIsMade(v, h, s);
      InvNetError(v, s);
  }

  // ---------- exactly when nothing deleted is referred to ----------

  /** What a caller can see before the event. */
  ghost predicate Harmless<H, S>(v: Vbe<H, S>, e: VbeEvent<H, S>) {
    match e
    case CheckedTransfer(_, _, _, _, checks, sent) => sent || checks == []
    case CheckReply(id, ok, _) => ok || !Has(v.st.table, CHECK_USER, id)
    case TransferReply(id, ok) => !ok || !Has(v.st.table, TRANSFER, id)
    case NetError(s) => s !in v.parked
    case _ => true
  }

  lemma CleanIsUntied<H, S>(v: Vbe<H, S>)
    requires VbeInv(v)
    ensures Clean(v) <==> forall x | x in v.freed :: !Tied(v, x)
  {
    forall x
      ensures Refers(v, x) <==> Tied(v, x)
    {
      RefersIff(v, x);
    }
  }

  lemma CleanTakeOut<H, S>(v: Vbe<H, S>, k: nat, id: Id, freed: set<S>)
    requires VbeInv(v) && Clean(v) && Has(v.st.table, k, id) && freed <= {v.st.table.maps[k][id]}
    ensures VbeInv(TakeOut(v, k, id, freed)) && Clean(TakeOut(v, k, id, freed))
  {
    EntryIsMade(v, k, id);
    InvTakeOut(v, k, id, freed);
    var s, v' := v.st.table.maps[k][id], TakeOut(v, k, id, freed);
    LiveAfterRemove(v.st.table, k, id);
    CleanIsUntied(v);
    CleanIsUntied(v');
    if Checked(v, s) {
      CheckedIsParked(v, s);
    }
    forall x | Checked(v', x)
      ensures Checked(v, x)
    {
      var c :| c in v'.st.table.ticket && LiveCheck(v', c) && c in v'.transferOf && v'.transferOf[c] == x;
      assert LiveCheck(v, c);
    }
  }

  lemma CleanReply<H, S>(v: Vbe<H, S>, kind: nat, id: Id, deleted: bool)
    requires VbeInv(v) && Clean(v) && VbeEnabled(v, VbeEvent.Reply(kind, id, deleted))
    ensures Clean(VbeStep(v, VbeEvent.Reply(kind, id, deleted)))
  {
    if Has(v.st.table, kind, id) {
      CleanTakeOut(v, kind, id, if deleted then {v.st.table.maps[kind][id]} else {});
    } else {
      assert VbeStep(v, VbeEvent.Reply(kind, id, deleted)) == v.(freed := v.freed + {});
      assert v.freed + {} == v.freed;
    }
  }

  /** A new session, stored or parked, ties nothing else. */
  lemma CleanInsert<H, S>(v: Vbe<H, S>, k: nat, s: S, h: H, v': Vbe<H, S>)
    requires VbeInv(v) && Clean(v) && VbeInv(v') && s !in v.made && k != CHECK_USER && h in v.st.arrays && CanIssue(v.st.table, k, s)
    requires v'.st == InsertSession(v.st, k, s, h) && v'.parked == v.parked && v'.freed == v.freed && v'.transferOf == v.transferOf
    ensures Clean(v')
  {
    LiveAfterIssue(v.st.table, k, s);
    CleanIsUntied(v);
    CleanIsUntied(v');
    forall x | Checked(v', x)
      ensures Checked(v, x)
    {
      var c :| c in v'.st.table.ticket && LiveCheck(v', c) && c in v'.transferOf && v'.transferOf[c] == x;
      assert LiveCheck(v, c);
    }
  }

  lemma CleanPark<H, S>(v: Vbe<H, S>, t: S, h: H, memory: Id)
    requires VbeInv(v) && Clean(v) && VbeEnabled(v, DirectTransfer(t, h, memory, false))
    ensures Clean(VbeStep(v, DirectTransfer(t, h, memory, false)))
  {
    var v' := VbeStep(v, DirectTransfer(t, h, memory, false));
    InvDirect(v, t, h, memory, false);
    CleanIsUntied(v);
    CleanIsUntied(v');
    forall x | Checked(v', x)
      ensures Checked(v, x)
    {
      var c :| c in v'.st.table.ticket && LiveCheck(v', c) && c in v'.transferOf && v'.transferOf[c] == x;
      assert LiveCheck(v, c);
    }
  }

  lemma CheckedAfter<H, S>(v: Vbe<H, S>, v': Vbe<H, S>, t: S, channels: set<Channel>, checks: seq<Check<S>>, x: S)
    requires VbeInv(v) && NewChecks(v.made, t, channels, checks, false) && Enters(v, v', t, channels, checks)
    ensures Checked(v', x) ==> Checked(v, x) || (x == t && checks != [])
    ensures checks != [] ==> Checked(v', t)
  {
    if Checked(v', x) {
      var c :| c in v'.st.table.ticket && LiveCheck(v', c) && c in v'.transferOf && v'.transferOf[c] == x;
      if c in SessionsOf(checks) {
        NewCheck(v, v', t, channels, checks, c);
      } else {
        OldCheck(v, v', t, channels, checks, c);
      }
    }
    if checks != [] {
      var c := checks[0].s;
      assert checks[0] in checks && c in SessionsOf(checks);
      NewCheck(v, v', t, channels, checks, c);
      assert LiveCheck(v', c);
    }
  }

  /** Who was deleted before is not tied by the new checks or their transfer. */
  lemma StaysUntied<H, S>(v: Vbe<H, S>, v': Vbe<H, S>, t: S, channels: set<Channel>, checks: seq<Check<S>>, x: S)
    requires VbeInv(v) && NewChecks(v.made, t, channels, checks, false) && Enters(v, v', t, channels, checks)
    requires v'.parked <= v.parked + {t} && x in v.made && !Tied(v, x)
    ensures !Tied(v', x)
  {
    CheckedAfter(v, v', t, channels, checks, x);
    assert x !in SessionsOf(checks);
  }

  lemma CleanCheckedIff<H, S>(v: Vbe<H, S>, t: S, h: H, memory: Id, channels: set<Channel>, checks: seq<Check<S>>, sent: bool)
    requires VbeInv(v) && Clean(v) && VbeEnabled(v, CheckedTransfer(t, h, memory, channels, checks, sent))
    ensures Clean(VbeStep(v, CheckedTransfer(t, h, memory, channels, checks, sent))) <==> sent || checks == []
  {
    var v' := VbeStep(v, CheckedTransfer(t, h, memory, channels, checks, sent));
    InvChecked(v, t, h, memory, channels, checks, sent);
    ChecksOpened(v.st, v.parked, v.made, t, channels, checks, h);
    CleanIsUntied(v);
    CleanIsUntied(v');
    forall x | x in v.freed
      ensures !Tied(v', x)
    {
      StaysUntied(v, v', t, channels, checks, x);
    }
    if !sent {
      AbortTies(v, v', t, channels, checks);
    }
  }

  /** A transfer given up while its checks are being sent is tied by those already sent. */
  lemma AbortTies<H, S>(v: Vbe<H, S>, v': Vbe<H, S>, t: S, channels: set<Channel>, checks: seq<Check<S>>)
    requires VbeInv(v) && Clean(v) && NewChecks(v.made, t, channels, checks, false) && Enters(v, v', t, channels, checks)
    requires v'.parked == v.parked
    ensures Tied(v', t) <==> checks != []
  {
    CheckedAfter(v, v', t, channels, checks, t);
    if Checked(v, t) {
      CheckedIsParked(v, t);
    }
    assert t !in SessionsOf(checks);
  }

  lemma CleanCheckReplyIff<H, S>(v: Vbe<H, S>, id: Id, ok: bool, sent: bool)
    requires VbeInv(v) && Clean(v) && VbeEnabled(v, CheckReply(id, ok, sent)) && Has(v.st.table, CHECK_USER, id)
    ensures Clean(VbeStep(v, CheckReply(id, ok, sent))) <==> ok
  {
    AnswersIff(v, id);
    InvCheckReply(v, id, ok, sent);
    var c := v.st.table.maps[CHECK_USER][id];
    var t, v' := v.transferOf[c], VbeStep(v, CheckReply(id, ok, sent));
    assert Checked(v, t);
    CheckedIsParked(v, t);
    CleanIsUntied(v');
    if !ok {
      assert Tied(v', t) && t in v'.freed;
    } else {
      CleanTakeOut(v, CHECK_USER, id, {c});
      InvConfirmed(v, id);
      CleanConfirmed(v, id);
      var left := Confirmed(v, id);
      CleanIsUntied(left);
      if sent && Remaining(v, id) == {} {
        LiveAfterIssue(left.st.table, TRANSFER, t);
        forall x | Checked(v', x)
          ensures Checked(left, x)
        {
          var d :| d in v'.st.table.ticket && LiveCheck(v', d) && d in v'.transferOf && v'.transferOf[d] == x;
          assert d != t && LiveCheck(left, d);
        }
        assert t !in v.freed && t != c;
      }
    }
  }

  lemma CleanConfirmed<H, S>(v: Vbe<H, S>, id: Id)
    requires VbeInv(v) && Answers(v, id) && Clean(TakeOut(v, CHECK_USER, id, {v.st.table.maps[CHECK_USER][id]}))
    ensures Clean(Confirmed(v, id))
  {
    var out := TakeOut(v, CHECK_USER, id, {v.st.table.maps[CHECK_USER][id]});
    var left := Confirmed(v, id);
    forall x | x in left.freed
      ensures !Refers(left, x)
    {
      assert !Refers(out, x);
    }
  }

  lemma CleanTransferReplyIff<H, S>(v: Vbe<H, S>, id: Id, ok: bool)
    requires VbeInv(v) && Clean(v)
    ensures Clean(VbeStep(v, TransferReply(id, ok))) <==> !ok || !Has(v.st.table, TRANSFER, id)
  {
    if ok && Has(v.st.table, TRANSFER, id) {
      var v' := VbeStep(v, TransferReply(id, ok));
      assert Has(v'.st.table, TRANSFER, id) && v'.st.table.maps[TRANSFER][id] in v'.freed;
      assert Refers(v', v.st.table.maps[TRANSFER][id]);
    }
  }

  lemma CleanTimeOut<H, S>(v: Vbe<H, S>, s: S)
    requires VbeInv(v) && Clean(v) && s in v.st.timers
    ensures Clean(VbeStep(v, TimeOut(s)))
  {
    assert Live(v.st.table, s) && Kept(v.st, s);
    if IsCheck(v, s) {
      var v' := VbeStep(v, TimeOut(s));
      forall x | x in v'.freed
        ensures !Refers(v', x)
      {
        assert !Refers(v, x);
      }
    } else {
      ExpireErases(v.st, v.parked, s);
      CleanTakeOut(v, v.st.table.ticket[s].kind, IdOf(v.st.table, s), {s});
    }
  }

  lemma CleanNetErrorIff<H, S>(v: Vbe<H, S>, h: H, s: S)
    requires VbeInv(v) && Clean(v) && h in v.st.arrays && s in v.st.arrays[h]
    ensures Clean(NetErrorOf(v, s)) <==> s !in v.parked
  {
    SeatedIsMade(v, h, s);
    InvNetError(v, s);
    if s in v.parked {
      var v' := NetErrorOf(v, s);
      CleanIsUntied(v');
      assert s in v'.freed && s in v'.parked;
    } else if !IsCheck(v, s) {
      CleanTakeOut(v, KindOf(v, s), v.st.sid[s], {s});
    }
  }

  lemma CleanAccept<H, S>(v: Vbe<H, S>, h: H)
    requires VbeInv(v) && Clean(v) && h !in v.st.arrays
    ensures Clean(VbeStep(v, Accept(h)))
  {
    var v' := VbeStep(v, Accept(h));
    forall x | x in v'.freed
      ensures !Refers(v', x)
    {
      assert !Refers(v, x);
    }
  }

  /** An event leaves nothing deleted referred to if and only if it is harmless. */
  lemma CleanIff<H, S>(v: Vbe<H, S>, e: VbeEvent<H, S>)
    requires VbeInv(v) && Clean(v) && VbeEnabled(v, e)
    ensures Clean(VbeStep(v, e)) <==> Harmless(v, e)
  {
    InvVbeStep(v, e);
    match e
    case Accept(h) => CleanAccept(v, h);
    case Open(kind, s, h) => CleanInsert(v, kind, s, h, VbeStep(v, e));
    case Reply(kind, id, deleted) => CleanReply(v, kind, id, deleted);
    case DirectTransfer(t, h, memory, sent) =>
      if sent {
        CleanInsert(v, TRANSFER, t, h, VbeStep(v, e));
      } else {
        CleanPark(v, t, h, memory);
      }
    case CheckedTransfer(t, h, memory, channels, checks, sent) => CleanCheckedIff(v, t, h, memory, channels, checks, sent);
    case CheckReply(id, ok, sent) =>
      AnswersIff(v, id);
      if Has(v.st.table, CHECK_USER, id) {
        CleanCheckReplyIff(v, id, ok, sent);
      }
    case TransferReply(id, ok) => CleanTransferReplyIff(v, id, ok);
    case TimeOut(s) => CleanTimeOut(v, s);
    case NetError(s) =>
      var h :| h in v.st.arrays && s in v.st.arrays[h];
      CleanNetErrorIff(v, h, s);
  }

  // ---------- runs ----------

  ghost function VbeMove<H, S>(): (Vbe<H, S>, VbeEvent<H, S>) -> Option<Vbe<H, S>> {
    (v: Vbe<H, S>, e: VbeEvent<H, S>) => if VbeEnabled(v, e) then Some(VbeStep(v, e)) else None
  }

  /** Nothing deleted is referred to in any state of the run. */
  ghost predicate AlwaysClean<H, S>(v: Vbe<H, S>, es: seq<VbeEvent<H, S>>)
    requires Valid(VbeMove(), v, es)
    decreases |es|
  {
    Clean(v) && (es == [] || AlwaysClean(VbeStep(v, es[0]), es[1..]))
  }

  ghost predicate AllHarmless<H, S>(v: Vbe<H, S>, es: seq<VbeEvent<H, S>>)
    requires Valid(VbeMove(), v, es)
    decreases |es|
  {
    es == [] || (Harmless(v, es[0]) && AllHarmless(VbeStep(v, es[0]), es[1..]))
  }

  lemma {:induction false} AlwaysCleanFrom<H, S>(v: Vbe<H, S>, es: seq<VbeEvent<H, S>>)
    requires VbeInv(v) && Clean(v) && Valid(VbeMove(), v, es)
    ensures AlwaysClean(v, es) <==> AllHarmless(v, es)
    ensures AllHarmless(v, es) ==> VbeInv(End(VbeMove(), v, es))
    decreases |es|
  {
    if es != [] {
      CleanIff(v, es[0]);
      InvVbeStep(v, es[0]);
      var next := VbeStep(v, es[0]);
      if Clean(next) {
        AlwaysCleanFrom(next, es[1..]);
      }
    }
  }

  /** Over whole runs: nothing deleted is ever referred to if and only if every event is harmless. */
  lemma AlwaysCleanIff<H, S>(es: seq<VbeEvent<H, S>>)
    requires Valid(VbeMove(), VbeInit<H, S>(), es)
    ensures AlwaysClean(VbeInit(), es) <==> AllHarmless(VbeInit(), es)
  {
    InvVbeInit<H, S>();
    AlwaysCleanFrom(VbeInit(), es);
  }

  // ---------- map, array and timer ----------

  ghost predicate Silent<H, S>(v: Vbe<H, S>, c: S) {
    LiveCheck(v, c) && c !in v.st.timers
  }

  /** Nothing is parked, and no stored check has lost its timer. */
  ghost predicate InStep<H, S>(v: Vbe<H, S>) {
    v.parked == {} && forall c | c in v.st.table.ticket :: !Silent(v, c)
  }

  /** Map, array and timer agree if and only if nothing is parked and no stored check has lost its timer. */
  lemma AgreementIff<H, S>(v: Vbe<H, S>)
    requires VbeInv(v)
    ensures Agreement(v.st) <==> InStep(v)
  {
    forall x
      ensures x in Stored(v.st) <==> Live(v.st.table, x)
    {
      StoredOnce(v.st.table, x);
      if x in Stored(v.st) {
        var k, id :| 0 <= k < |v.st.table.maps| && id in v.st.table.maps[k] && v.st.table.maps[k][id] == x;
        assert Has(v.st.table, k, id);
      }
      if Live(v.st.table, x) {
        assert Has(v.st.table, v.st.table.ticket[x].kind, IdOf(v.st.table, x));
      }
    }
    if InStep(v) {
      WeakIsInv(v);
      InvAgrees(v.st);
    }
    if t :| t in v.parked {
      ParkedDisagrees(v, t);
    }
  }

  lemma WeakIsInv<H, S>(v: Vbe<H, S>)
    requires VbeInv(v) && InStep(v)
    ensures Inv(v.st)
  {
    forall s | s in v.st.table.ticket && Live(v.st.table, s)
      ensures Recorded(v.st, s)
    {
      assert Kept(v.st, s);
      assert !Silent(v, s);
    }
    forall h | h in v.st.arrays
      ensures Seated(v.st, h)
    {
      assert Placed(v.st, v.parked, h);
    }
  }

  lemma ParkedDisagrees<H, S>(v: Vbe<H, S>, t: S)
    requires VbeInv(v) && t in v.parked && forall x :: x in Stored(v.st) <==> Live(v.st.table, x)
    ensures !Agreement(v.st)
  {
    assert Waits(v.st, t);
    var h := v.st.handler[t];
    assert t in multiset(v.st.arrays[h]);
    assert t !in multiset(set s | s in Stored(v.st) && BelongsTo(v.st, s, h));
  }

  /** What a caller can see before the event. */
  ghost predicate Undisturbing<H, S>(v: Vbe<H, S>, e: VbeEvent<H, S>) {
    match e
    case DirectTransfer(_, _, _, sent) => sent
    case CheckedTransfer(_, _, _, _, _, sent) => !sent
    case TimeOut(s) => !IsCheck(v, s)
    case _ => true
  }

  /** The agreement survives an event if and only if it is undisturbing. */
  lemma AgreementSurvivesIff<H, S>(v: Vbe<H, S>, e: VbeEvent<H, S>)
    requires VbeInv(v) && Clean(v) && Agreement(v.st) && VbeEnabled(v, e)
    ensures Agreement(VbeStep(v, e).st) <==> Undisturbing(v, e)
  {
    AgreementIff(v);
    InvVbeStep(v, e);
    AgreementIff(VbeStep(v, e));
    match e
    case Accept(h) => StaysInStep(v, VbeStep(v, e));
    case Open(kind, s, h) => InStepInsert(v, kind, s, h, VbeStep(v, e));
    case Reply(kind, id, deleted) =>
      InStepTakeOut(v, kind, id, if deleted && Has(v.st.table, kind, id) then {v.st.table.maps[kind][id]} else {});
    case DirectTransfer(t, h, memory, sent) =>
      if sent {
        InStepInsert(v, TRANSFER, t, h, VbeStep(v, e));
      }
    case CheckedTransfer(t, h, memory, channels, checks, sent) =>
      ChecksOpened(v.st, v.parked, v.made, t, channels, checks, h);
      if !sent {
        InStepChecks(v.st, v.made, t, channels, checks, h);
        InStepAbort(v, VbeStep(v, e), t, channels, checks);
      }
    case CheckReply(id, ok, sent) =>
      AnswersIff(v, id);
      if Answers(v, id) {
        assert Checked(v, v.transferOf[v.st.table.maps[CHECK_USER][id]]);
        CheckedIsParked(v, v.transferOf[v.st.table.maps[CHECK_USER][id]]);
      }
    case TransferReply(id, ok) => StaysInStep(v, VbeStep(v, e));
    case TimeOut(s) =>
      assert Live(v.st.table, s) && Kept(v.st, s);
      if IsCheck(v, s) {
        assert Silent(VbeStep(v, e), s);
      } else {
        ExpireErases(v.st, v.parked, s);
        InStepTakeOut(v, v.st.table.ticket[s].kind, IdOf(v.st.table, s), {s});
      }
    case NetError(s) =>
      if !IsCheck(v, s) && s in v.st.sid {
        InStepTakeOut(v, KindOf(v, s), v.st.sid[s], {s});
      } else {
        StaysInStep(v, VbeStep(v, e));
      }
  }

  lemma StaysInStep<H, S>(v: Vbe<H, S>, v': Vbe<H, S>)
    requires InStep(v) && v'.parked == v.parked && v'.st.table == v.st.table && v'.st.timers == v.st.timers
    ensures InStep(v')
  {
    forall c | c in v'.st.table.ticket
      ensures !Silent(v', c)
    {
      assert !Silent(v, c);
    }
  }

  lemma InStepInsert<H, S>(v: Vbe<H, S>, k: nat, s: S, h: H, v': Vbe<H, S>)
    requires VbeInv(v) && InStep(v) && h in v.st.arrays && CanIssue(v.st.table, k, s)
    requires v'.st == InsertSession(v.st, k, s, h) && v'.parked == v.parked
    ensures InStep(v')
  {
    LiveAfterIssue(v.st.table, k, s);
    forall c | c in v'.st.table.ticket
      ensures !Silent(v', c)
    {
      assert c != s ==> !Silent(v, c);
    }
  }

  lemma InStepTakeOut<H, S>(v: Vbe<H, S>, k: nat, id: Id, freed: set<S>)
    requires VbeInv(v) && InStep(v)
    ensures InStep(TakeOut(v, k, id, freed))
  {
    var v' := TakeOut(v, k, id, freed);
    if Has(v.st.table, k, id) {
      LiveAfterRemove(v.st.table, k, id);
    }
    forall c | c in v'.st.table.ticket
      ensures !Silent(v', c)
    {
      assert !Silent(v, c);
    }
  }

  /** New checks come with their timers. */
  lemma {:induction false} InStepChecks<H, S>(st: State<H, S>, made: set<S>, t: S, channels: set<Channel>, checks: seq<Check<S>>, h: H)
    requires NewChecks(made, t, channels, checks, false) && CanOpenChecks(st, checks, h) && h in st.arrays
    ensures OpenChecks(st, checks, h).timers == st.timers + SessionsOf(checks) && h in OpenChecks(st, checks, h).arrays
  {
    if checks != [] {
      ChecksPrefix(made, t, channels, checks);
      InStepChecks(st, made, t, channels, checks[..|checks| - 1], h);
    }
  }

  lemma InStepAbort<H, S>(v: Vbe<H, S>, v': Vbe<H, S>, t: S, channels: set<Channel>, checks: seq<Check<S>>)
    requires VbeInv(v) && InStep(v) && Opens(v.st, v'.st, SessionsOf(checks)) && v'.parked == v.parked
    requires v'.st.timers == v.st.timers + SessionsOf(checks)
    ensures InStep(v')
  {
    forall c | c in v'.st.table.ticket
      ensures !Silent(v', c)
    {
      assert c !in SessionsOf(checks) ==> c in v.st.table.ticket && !Silent(v, c);
    }
  }

  /** Arrays list what is stored or parked, timers belong to what is stored, and only checks may be without. */
  ghost predicate Disciplined<H, S>(v: Vbe<H, S>) {
    && (forall h | h in v.st.arrays :: multiset(v.st.arrays[h]) == multiset(set s | s in Stored(v.st) + v.parked && BelongsTo(v.st, s, h)))
    && v.st.timers <= Stored(v.st) && v.parked !! Stored(v.st)
    && forall s | s in Stored(v.st) - v.st.timers :: IsCheck(v, s)
  }

  lemma InvIsDisciplined<H, S>(v: Vbe<H, S>)
    requires VbeInv(v)
    ensures Disciplined(v)
  {
    forall x
      ensures x in Stored(v.st) <==> Live(v.st.table, x)
    {
      StoredOnce(v.st.table, x);
      if x in Stored(v.st) {
        var k, id :| 0 <= k < |v.st.table.maps| && id in v.st.table.maps[k] && v.st.table.maps[k][id] == x;
        assert Has(v.st.table, k, id);
      }
      if Live(v.st.table, x) {
        assert Has(v.st.table, v.st.table.ticket[x].kind, IdOf(v.st.table, x));
      }
    }
    forall s | s in Stored(v.st) - v.st.timers
      ensures IsCheck(v, s)
    {
      assert Kept(v.st, s);
    }
    forall t | t in v.parked
      ensures t !in Stored(v.st)
    {
      assert Waits(v.st, t);
    }
    forall h | h in v.st.arrays
      ensures multiset(v.st.arrays[h]) == multiset(set s | s in Stored(v.st) + v.parked && BelongsTo(v.st, s, h))
    {
      ArrayLists(v, h);
    }
  }

  lemma ArrayLists<H, S>(v: Vbe<H, S>, h: H)
    requires VbeInv(v) && h in v.st.arrays && forall x :: x in Stored(v.st) <==> Live(v.st.table, x)
    ensures multiset(v.st.arrays[h]) == multiset(set s | s in Stored(v.st) + v.parked && BelongsTo(v.st, s, h))
  {
    assert Placed(v.st, v.parked, h);
    var a, those := multiset(v.st.arrays[h]), multiset(set s | s in Stored(v.st) + v.parked && BelongsTo(v.st, s, h));
    forall s
      ensures a[s] == those[s]
    {
      CountInArray(v.st.arrays[h], s);
      if s in v.parked {
        assert Waits(v.st, s);
      } else if Live(v.st.table, s) {
        assert Kept(v.st, s);
      }
    }
  }

  /** In every state of a run of harmless events, with or without a last one that is not. */
  lemma VbeAgreement<H, S>(es: seq<VbeEvent<H, S>>, e: VbeEvent<H, S>)
    requires Valid(VbeMove(), VbeInit<H, S>(), es) && AllHarmless(VbeInit(), es)
    ensures var v := End(VbeMove(), VbeInit<H, S>(), es);
            && Disciplined(v) && (Agreement(v.st) <==> InStep(v))
            && (VbeEnabled(v, e) ==> Disciplined(VbeStep(v, e)) && (Agreement(VbeStep(v, e).st) <==> InStep(VbeStep(v, e))))
  {
    InvVbeInit<H, S>();
    AlwaysCleanFrom(VbeInit(), es);
    EndIsClean(VbeInit(), es);
    var v := End(VbeMove(), VbeInit<H, S>(), es);
    AgreementIff(v);
    InvIsDisciplined(v);
    if VbeEnabled(v, e) {
      InvVbeStep(v, e);
      AgreementIff(VbeStep(v, e));
      InvIsDisciplined(VbeStep(v, e));
    }
  }

  lemma {:induction false} EndIsClean<H, S>(v: Vbe<H, S>, es: seq<VbeEvent<H, S>>)
    requires Valid(VbeMove(), v, es) && AlwaysClean(v, es)
    ensures Clean(End(VbeMove(), v, es))
    decreases |es|
  {
    if es != [] {
      EndIsClean(VbeStep(v, es[0]), es[1..]);
    }
  }

  /** Parking and proposing together are `InsertSession`. */
  lemma TransferInTwoSteps<H, S>(st: State<H, S>, t: S, h: H, memory: Id)
    requires h in st.arrays && TRANSFER < |st.table.maps|
    ensures Propose(Park(st, t, h, memory), t) == InsertSession(st, TRANSFER, t, h)
  {
    assert st.sid[t := memory][t := st.table.next] == st.sid[t := st.table.next];
  }

  // ---------- a disconnect ----------

  ghost function NetErrorsOf<H, S>(v: Vbe<H, S>, order: seq<S>): Vbe<H, S>
    decreases |order|
  {
    if order == [] then v else NetErrorsOf(NetErrorOf(v, order[0]), order[1..])
  }

  ghost predicate Stays<H, S>(v: Vbe<H, S>, s: S) {
    IsCheck(v, s) || s in v.parked
  }

  lemma NetErrorShrinks<H, S>(v: Vbe<H, S>, h: H, s: S)
    requires VbeInv(v) && h in v.st.arrays && s in v.made
    ensures var v' := NetErrorOf(v, s);
            && VbeInv(v') && h in v'.st.arrays && v'.parked == v.parked && v'.made == v.made && v'.st.table.ticket == v.st.table.ticket
            && (forall x | x in v'.st.arrays[h] :: x in v.st.arrays[h])
            && (forall x | x in v.st.arrays[h] && x in v.parked :: x in v'.st.arrays[h])
            && (forall x | x in v.st.arrays[h] && IsCheck(v, x) :: x in v'.st.arrays[h])
            && (s in v.st.arrays[h] && !Stays(v, s) ==> s !in v'.st.arrays[h])
  {
    InvNetError(v, s);
    if s in v.st.arrays[h] {
      SeatedIsMade(v, h, s);
    }
    if !IsCheck(v, s) && s in v.st.sid && Has(v.st.table, KindOf(v, s), v.st.sid[s]) {
      var x := v.st.table.maps[KindOf(v, s)][v.st.sid[s]];
      EntryIsMade(v, KindOf(v, s), v.st.sid[s]);
      assert Kept(v.st, x) && Placed(v.st, v.parked, v.st.handler[x]);
      WithoutElement(v.st.arrays[v.st.handler[x]], x);
    }
  }

  /** Telling all of a handler's sessions of the error, in any order, leaves its checks and parked transfers and nothing else. */
  lemma {:induction false} NetErrorsLeave<H, S>(v: Vbe<H, S>, h: H, order: seq<S>)
    requires VbeInv(v) && h in v.st.arrays && forall s | s in order :: s in v.made
    ensures var end := NetErrorsOf(v, order);
            && h in end.st.arrays
            && (forall x | x in end.st.arrays[h] :: x in v.st.arrays[h] && (x !in order || Stays(v, x)))
            && (forall x | x in v.st.arrays[h] && Stays(v, x) :: x in end.st.arrays[h])
    decreases |order|
  {
    if order != [] {
      var s, rest := order[0], order[1..];
      assert order == [s] + rest;
      NetErrorShrinks(v, h, s);
      NetErrorsLeave(NetErrorOf(v, s), h, rest);
    }
  }

  /** So a disconnect empties the handler's array if and only if it holds no check-user session and no parked transfer. */
  lemma DisconnectEmptiesIff<H, S>(v: Vbe<H, S>, h: H)
    requires VbeInv(v) && h in v.st.arrays
    ensures var end := NetErrorsOf(v, v.st.arrays[h]);
            h in end.st.arrays && (end.st.arrays[h] == [] <==> forall s | s in v.st.arrays[h] :: !Stays(v, s))
  {
    var order: seq<S> := v.st.arrays[h];
    forall s | s in order
      ensures s in v.made
    {
      SeatedIsMade(v, h, s);
    }
    NetErrorsLeave(v, h, order);
    var left: seq<S> := NetErrorsOf(v, order).st.arrays[h];
    if left != [] {
      var s: S := left[0];
      assert s in left;
      assert s in order && Stays(v, s);
    }
  }
}
