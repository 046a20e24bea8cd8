/**
 `CVbeIdcService` with what its own handlers do beside `InsertSession` and
 `EraseSession`: transfers are put into the array by hand, and into the map only when
 all their receivers are checked; sessions are deleted, not always from everywhere.
 */
module VbeSpec {
  import opened Options
  import opened WrappingId
  import opened SessionTable
  import opened ServerSpec
  import opened ServerRuns

  const LOGIN: nat := 0
  const CHECK_USER: nat := 1
  const TRANSFER: nat := 2
  const VBH_OPERATION: nat := 3
  const KINDS: nat := 4

  type Channel = nat

  /**
   `parked` transfers are in their handler's array and in no map. `freed` are the
   deleted sessions, `made` all there ever were. A check-user session checks one
   channel of one transfer, whose `unchecked` channels still have to be confirmed.
   */
  datatype Vbe<H, S> = Vbe(st: State<H, S>, parked: set<S>, freed: set<S>, made: set<S>,
                           transferOf: map<S, S>, channelOf: map<S, Channel>, unchecked: map<S, set<Channel>>)

  datatype Check<S> = Check(s: S, channel: Channel)

  /**
   `memory` is what the unwritten `m_nSessionID` of a new transfer holds; `sent` is
   whether the messages of the event could be sent; `deleted` whether the handler of a
   reply deletes the session.
   */
  datatype VbeEvent<H, S> =
    | Accept(h: H)
    | Open(kind: nat, s: S, h: H)
    | Reply(kind: nat, id: Id, deleted: bool)
    | DirectTransfer(t: S, h: H, memory: Id, sent: bool)
    | CheckedTransfer(t: S, h: H, memory: Id, channels: set<Channel>, checks: seq<Check<S>>, sent: bool)
    | CheckReply(id: Id, ok: bool, sent: bool)
    | TransferReply(id: Id, ok: bool)
    | TimeOut(s: S)
    | NetError(s: S)

  ghost function VbeInit<H, S>(): Vbe<H, S> {
    Vbe(Init(KINDS, 0), {}, {}, {}, map[], map[], map[])
  }

  ghost predicate IsCheck<H, S>(v: Vbe<H, S>, s: S) {
    s in v.st.table.ticket && v.st.table.ticket[s].kind == CHECK_USER
  }

  /** Into the array, and nowhere else. */
  ghost function Park<H, S>(st: State<H, S>, t: S, h: H, memory: Id): State<H, S>
    requires h in st.arrays
  {
    st.(handler := st.handler[t := h], arrays := st.arrays[h := st.arrays[h] + [t]], sid := st.sid[t := memory])
  }

  /** `DoTransferPropose`, when the proposal could be sent. */
  ghost function Propose<H, S>(st: State<H, S>, t: S): State<H, S>
    requires TRANSFER < |st.table.maps|
  {
    st.(table := Issue(st.table, TRANSFER, t), sid := st.sid[t := st.table.next], timers := st.timers + {t})
  }

  ghost function SessionsOf<S>(checks: seq<Check<S>>): set<S> {
    set c | c in checks :: c.s
  }

  ghost predicate CanOpenChecks<H, S>(st: State<H, S>, checks: seq<Check<S>>, h: H) {
    checks == [] ||
    var n := |checks| - 1;
    CanOpenChecks(st, checks[..n], h) && CanIssue(OpenChecks(st, checks[..n], h).table, CHECK_USER, checks[n].s)
  }

  ghost function OpenChecks<H, S>(st: State<H, S>, checks: seq<Check<S>>, h: H): State<H, S> {
    if checks == [] then st
    else
      var before, s := OpenChecks(st, checks[..|checks| - 1], h), checks[|checks| - 1].s;
      if CHECK_USER < |before.table.maps| && h in before.arrays then InsertSession(before, CHECK_USER, s, h) else before
  }

  /** The objects are new and distinct, each check is for another channel, and all channels are asked unless a message cannot be sent. */
  ghost predicate NewChecks<S>(made: set<S>, t: S, channels: set<Channel>, checks: seq<Check<S>>, sent: bool) {
    && t !in made
    && (forall i | 0 <= i < |checks| :: checks[i].s !in made && checks[i].s != t && checks[i].channel in channels)
    && (forall i, j | 0 <= i < j < |checks| :: checks[i].s != checks[j].s && checks[i].channel != checks[j].channel)
    && (sent ==> channels == set c | c in checks :: c.channel)
  }

  ghost function KindOf<H, S>(v: Vbe<H, S>, s: S): nat {
    if s in v.st.table.ticket then v.st.table.ticket[s].kind else TRANSFER
  }

  ghost predicate Answers<H, S>(v: Vbe<H, S>, id: Id) {
    Has(v.st.table, CHECK_USER, id) &&
    var c := v.st.table.maps[CHECK_USER][id];
    c in v.transferOf && c in v.channelOf && v.transferOf[c] in v.unchecked
  }

  /** What stays unchecked of the transfer when the check under `id` is confirmed. */
  ghost function Remaining<H, S>(v: Vbe<H, S>, id: Id): set<Channel>
    requires Answers(v, id)
  {
    var c := v.st.table.maps[CHECK_USER][id];
    v.unchecked[v.transferOf[c]] - {v.channelOf[c]}
  }

  ghost predicate VbeEnabled<H, S>(v: Vbe<H, S>, e: VbeEvent<H, S>) {
    match e
    case Accept(h) => h !in v.st.arrays
    case Open(kind, s, h) => (kind == LOGIN || kind == VBH_OPERATION) && s !in v.made && h in v.st.arrays && CanIssue(v.st.table, kind, s)
    case Reply(kind, id, _) => kind == LOGIN || kind == VBH_OPERATION
    case DirectTransfer(t, h, _, sent) => t !in v.made && h in v.st.arrays && (sent ==> CanIssue(v.st.table, TRANSFER, t))
    case CheckedTransfer(t, h, _, channels, checks, sent) =>
      h in v.st.arrays && NewChecks(v.made, t, channels, checks, sent) && CanOpenChecks(v.st, checks, h)
    case CheckReply(id, ok, sent) =>
      Answers(v, id) && ok && sent && Remaining(v, id) == {} ==>
        CanIssue(v.st.table, TRANSFER, v.transferOf[v.st.table.maps[CHECK_USER][id]])
    case TransferReply(id, _) => true
    case TimeOut(s) => s in v.st.timers
    case NetError(s) => exists h :: h in v.st.arrays && s in v.st.arrays[h]
  }

  ghost function TakeOut<H, S>(v: Vbe<H, S>, k: nat, id: Id, freed: set<S>): Vbe<H, S> {
    v.(st := EraseSession(v.st, k, id), freed := v.freed + freed)
  }

  ghost function VbeStep<H, S>(v: Vbe<H, S>, e: VbeEvent<H, S>): Vbe<H, S>
    requires VbeEnabled(v, e)
  {
    match e
    case Accept(h) => v.(st := v.st.(arrays := v.st.arrays[h := []]))
    case Open(kind, s, h) => v.(st := InsertSession(v.st, kind, s, h), made := v.made + {s})
    case Reply(kind, id, deleted) =>
      TakeOut(v, kind, id, if deleted && Has(v.st.table, kind, id) then {v.st.table.maps[kind][id]} else {})
    case DirectTransfer(t, h, memory, sent) =>
      var made := v.(made := v.made + {t}, unchecked := v.unchecked[t := {}]);
      if sent then made.(st := InsertSession(v.st, TRANSFER, t, h))
      else made.(st := Park(v.st, t, h, memory), parked := v.parked + {t})
    case CheckedTransfer(t, h, memory, channels, checks, sent) =>
      var asked := OpenChecks(v.st, checks, h);
      var made := v.(made := v.made + {t} + SessionsOf(checks),
                     unchecked := v.unchecked[t := channels],
                     transferOf := v.transferOf + map s | s in SessionsOf(checks) :: t,
                     channelOf := v.channelOf + map s | s in SessionsOf(checks) :: ChannelOf(checks, s));
      if sent && h in asked.arrays then made.(st := Park(asked, t, h, memory), parked := v.parked + {t})
      else made.(st := asked, freed := v.freed + {t})
    case CheckReply(id, ok, sent) =>
      if !Answers(v, id) then v
      else
        var c := v.st.table.maps[CHECK_USER][id];
        var t := v.transferOf[c];
        if !ok then TakeOut(v, CHECK_USER, id, {c, t})
        else
          var left := TakeOut(v, CHECK_USER, id, {c}).(unchecked := v.unchecked[t := Remaining(v, id)]);
          if Remaining(v, id) == {} && sent && TRANSFER < |left.st.table.maps|
          then left.(st := Propose(left.st, t), parked := v.parked - {t})
          else left
    case TransferReply(id, ok) =>
      if ok && Has(v.st.table, TRANSFER, id) then v.(freed := v.freed + {v.st.table.maps[TRANSFER][id]}) else v
    case TimeOut(s) =>
      if IsCheck(v, s) then v.(st := v.st.(timers := v.st.timers - {s}))
      else v.(st := Expire(v.st, s), freed := v.freed + {s})
    case NetError(s) => NetErrorOf(v, s)
  }

  /** `OnNetworkError` of one session; a transfer that was never proposed erases by the id it was never given. */
  ghost function NetErrorOf<H, S>(v: Vbe<H, S>, s: S): Vbe<H, S> {
    if IsCheck(v, s) then v
    else if s in v.st.sid then TakeOut(v, KindOf(v, s), v.st.sid[s], {s})
    else v.(freed := v.freed + {s})
  }

  ghost function ChannelOf<S>(checks: seq<Check<S>>, s: S): Channel
    requires s in SessionsOf(checks)
  {
    var c :| c in checks && c.s == s; c.channel
  }
}
