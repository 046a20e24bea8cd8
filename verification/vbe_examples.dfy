/** Short runs of the VBE service in which its structures fall apart. */
module VbeExamples {
  import opened Options
  import opened WrappingId
  import opened SessionTable
  import opened ServerSpec
  import opened ServerRuns
  import opened Runs
  import opened VbeSpec
  import opened VbeInvariant
  import opened VbeRuns

  /** A service that has accepted one connection and nothing else. */
  ghost function OneHandler<H, S>(h: H): Vbe<H, S> {
    VbeStep(VbeInit<H, S>(), Accept(h))
  }

  lemma OneHandlerIs<H, S>(h: H)
    ensures VbeMove()(VbeInit<H, S>(), Accept(h)) == Some(OneHandler<H, S>(h)) && VbeInv(OneHandler<H, S>(h)) && Clean(OneHandler<H, S>(h))
    ensures OneHandler<H, S>(h).st.arrays == map[h := []] && OneHandler<H, S>(h).st.table == EmptyTable<S>(KINDS, 0)
  {
    InvVbeInit<H, S>();
    InvVbeStep(VbeInit<H, S>(), Accept(h));
  }

  /** A direct transfer is proposed and done: it is deleted and still in the map, in the array and in the timer queue. */
  lemma FreedTransferStays<H, S>(h: H, t: S, memory: Id)
    ensures var v := OneHandler<H, S>(h);
            var sent := DirectTransfer(t, h, memory, true);
            VbeEnabled(v, sent) &&
            var end := VbeStep(VbeStep(v, sent), TransferReply(0, true));
            && t in end.freed && !Clean(end)
            && Found(end.st, TRANSFER, 0) == Some(t) && end.st.arrays[h] == [t] && t in end.st.timers
  {
    OneHandlerIs<H, S>(h);
    var v := OneHandler<H, S>(h);
    var sent := DirectTransfer(t, h, memory, true);
    InvVbeStep(v, sent);
    CleanIff(v, sent);
    CleanIff(VbeStep(v, sent), TransferReply(0, true));
  }

  /** A direct transfer whose proposal cannot be sent is in the array alone; no check-user session is involved. */
  lemma UnsentTransferDisagrees<H, S>(h: H, t: S, memory: Id)
    ensures var v := OneHandler<H, S>(h);
            var unsent := DirectTransfer(t, h, memory, false);
            VbeEnabled(v, unsent) &&
            var end := VbeStep(v, unsent);
            && !Agreement(end.st) && end.st.arrays[h] == [t] && end.st.timers == {} && Stored(end.st) == {}
            && forall c :: !IsCheck(end, c)
  {
    OneHandlerIs<H, S>(h);
    var v := OneHandler<H, S>(h);
    var unsent := DirectTransfer(t, h, memory, false);
    InvVbeStep(v, unsent);
    AgreementIff(VbeStep(v, unsent));
  }

  lemma AskedParks<H, S>(h: H, t: S, c: S, d: S, memory: Id)
    requires t != c && t != d && c != d
    ensures var v := OneHandler<H, S>(h);
            var asked := CheckedTransfer(t, h, memory, {5, 6}, [Check(c, 5), Check(d, 6)], true);
            VbeEnabled(v, asked) &&
            var parked := VbeStep(v, asked);
            && VbeInv(parked) && Clean(parked) && Answers(parked, 0) && t in parked.parked
            && parked.st.table.maps[CHECK_USER][0] == c && parked.transferOf[c] == t
  {
    OneHandlerIs<H, S>(h);
    var v := OneHandler<H, S>(h);
    var checks := [Check(c, 5), Check(d, 6)];
    var asked := CheckedTransfer(t, h, memory, {5, 6}, checks, true);
    TwoChecks(v.st, c, d, h);
    assert checks[0] in checks && checks[1] in checks;
    assert (set x | x in checks :: x.channel) == {5, 6};
    assert VbeEnabled(v, asked);
    InvChecked(v, t, h, memory, {5, 6}, checks, true);
    CleanIff(v, asked);
    CheckOfTransfer(v, VbeStep(v, asked), t, checks, c, 0);
  }

  /** A transfer of two channels is parked; when one check fails it is deleted and still in the array. */
  lemma FailedCheckStays<H, S>(h: H, t: S, c: S, d: S, memory: Id)
    requires t != c && t != d && c != d
    ensures var v := OneHandler<H, S>(h);
            var asked := CheckedTransfer(t, h, memory, {5, 6}, [Check(c, 5), Check(d, 6)], true);
            VbeEnabled(v, asked) && VbeEnabled(VbeStep(v, asked), CheckReply(0, false, true)) &&
            var end := VbeStep(VbeStep(v, asked), CheckReply(0, false, true));
            t in end.freed && !Clean(end) && exists g :: g in end.st.arrays && t in end.st.arrays[g]
  {
    AskedParks(h, t, c, d, memory);
    var parked := VbeStep(OneHandler<H, S>(h), CheckedTransfer(t, h, memory, {5, 6}, [Check(c, 5), Check(d, 6)], true));
    FailingFrees(parked, t, c);
  }

  lemma FailingFrees<H, S>(parked: Vbe<H, S>, t: S, c: S)
    requires VbeInv(parked) && Clean(parked) && Answers(parked, 0) && t in parked.parked
    requires parked.st.table.maps[CHECK_USER][0] == c && parked.transferOf[c] == t
    ensures VbeEnabled(parked, CheckReply(0, false, true))
    ensures var end := VbeStep(parked, CheckReply(0, false, true));
            t in end.freed && !Clean(end) && exists g :: g in end.st.arrays && t in end.st.arrays[g]
  {
    var e: VbeEvent<H, S> := CheckReply(0, false, true);
    CleanIff(parked, e);
    InvVbeStep(parked, e);
    assert Waits(VbeStep(parked, e).st, t);
  }

  lemma CheckOfTransfer<H, S>(v: Vbe<H, S>, v': Vbe<H, S>, t: S, checks: seq<Check<S>>, c: S, id: Id)
    requires VbeInv(v) && NewChecks(v.made, t, {5, 6}, checks, true) && Enters(v, v', t, {5, 6}, checks)
    requires c in SessionsOf(checks) && Has(v'.st.table, CHECK_USER, id) && v'.st.table.maps[CHECK_USER][id] == c
    ensures Answers(v', id) && v'.transferOf[c] == t
  {
    NewCheck(v, v', t, {5, 6}, checks, c);
  }

  lemma TwoChecks<H, S>(st: State<H, S>, c: S, d: S, h: H)
    requires h in st.arrays && st.table == EmptyTable<S>(KINDS, 0) && c != d
    ensures var checks := [Check(c, 5), Check(d, 6)];
            CanOpenChecks(st, checks, h) && OpenChecks(st, checks, h).table.maps[CHECK_USER] == map[0 := c, 1 := d]
  {
    var checks := [Check(c, 5), Check(d, 6)];
    assert checks[..1] == [Check(c, 5)] && checks[..1][..0] == [];
    assert CanOpenChecks(st, checks[..1][..0], h) && OpenChecks(st, checks[..1][..0], h) == st;
    var one := OpenChecks(st, checks[..1], h);
    assert one == InsertSession(st, CHECK_USER, c, h);
    assert CanOpenChecks(st, checks[..1], h);
    assert one.table.next == 1 && one.table.maps[CHECK_USER] == map[0 := c];
    assert OpenChecks(st, checks, h) == InsertSession(one, CHECK_USER, d, h);
  }
}
