/**
 Which of the client service's sessions a response completes. The client looks a
 response up in the map of its kind, by the request id that it carries; what it
 carries is up to the services.
 */
module ClientResponses {
  import opened Options
  import opened WrappingId
  import opened SessionTable
  import opened Runs
  import opened ClientSpec
  import Server = ServerSpec
  import ServerRuns

  // The client's session maps.
  const REGISTER: nat := 0
  const LOGIN: nat := 1
  const GET_USER_INFO: nat := 2
  const UPDATE: nat := 3
  const IDC_INTERFACE: nat := 4
  const TRANSFER: nat := 5
  const CLIENT_KINDS: nat := 6

  // The VBE service's session maps.
  const VBE_TRANSFER: nat := 2
  const VBE_OPERATION: nat := 3
  const VBE_KINDS: nat := 4

  /**
   The ids that a request leads to: `own` is the client session's, `application` the
   one that the application gave, `server` the one under which the VBE service has the
   request proposed, `memory` what `m_nCltSessionID` of a transfer or a share session of
   the VBE service holds, which nothing writes.
   */
  datatype Ids = Ids(own: Id, application: Id, server: Id, memory: Id)

  /** When a service answers. `Refused` is before it opens a session; `QueryFailed` is the failed query before an update. */
  datatype Occasion = Refused | QueryFailed | CheckFailed | Finished | TimedOut

  /** The map that the response is looked up in, and the id that it carries. */
  datatype Response = Response(kind: nat, id: Id)

  /** Register and login requests carry the client session's id, the others the application's. */
  function RequestId(kind: nat, ids: Ids): Id {
    if kind == REGISTER || kind == LOGIN then ids.own else ids.application
  }

  /** The response, where there is one. A proposed request is answered by the proposal's id, not the request's. */
  function Answered(kind: nat, when: Occasion, ids: Ids): Option<Response> {
    match when
    case Refused =>
      if kind == LOGIN || kind == GET_USER_INFO then None else Some(Response(kind, RequestId(kind, ids)))
    case QueryFailed =>
      if kind == GET_USER_INFO || kind == UPDATE then Some(Response(UPDATE, RequestId(kind, ids))) else None
    case CheckFailed =>
      if kind == TRANSFER then Some(Response(TRANSFER, ids.memory)) else None
    case Finished =>
      if kind == UPDATE || kind == TRANSFER then Some(Response(kind, ids.server)) else Some(Response(kind, RequestId(kind, ids)))
    case TimedOut =>
      if kind == UPDATE then Some(Response(GET_USER_INFO, ids.application))
      else if kind == TRANSFER || kind == IDC_INTERFACE then Some(Response(kind, ids.memory))
      else Some(Response(kind, RequestId(kind, ids)))
  }

  /** The session that the client then takes out of the map. */
  ghost function Completed<S>(st: State<S>, response: Response): Option<S> {
    Lookup(st.table, response.kind, response.id)
  }

  /** Where the ids must coincide for a response to reach the session that waits for it. */
  predicate Coincide(kind: nat, when: Occasion, ids: Ids) {
    if kind == REGISTER || kind == LOGIN then true
    else if kind == GET_USER_INFO then when != QueryFailed && ids.application == ids.own
    else if kind == IDC_INTERFACE then (if when == TimedOut then ids.memory else ids.application) == ids.own
    else if kind == UPDATE then
      when != TimedOut && (if when == Finished then ids.server else ids.application) == ids.own
    else
      (if when == Finished then ids.server else if when == Refused then ids.application else ids.memory) == ids.own
  }

  /** While a session waits, an answer to its request reaches it if and only if these ids coincide. */
  lemma ResponseFindsSessionIff<S>(st: State<S>, s: S, when: Occasion, ids: Ids)
    requires Inv(st) && s in st.timers && |st.table.maps| == CLIENT_KINDS
    requires s in st.sid ==> ids.own == st.sid[s]
    ensures s in st.table.ticket && st.table.ticket[s].kind < CLIENT_KINDS
    ensures var kind := st.table.ticket[s].kind;
            var answer := Answered(kind, when, ids);
            answer.Some? ==> (Completed(st, answer.value) == Some(s) <==> Coincide(kind, when, ids))
  {
    assert Recorded(st, s);
    var kind := st.table.ticket[s].kind;
    var answer := Answered(kind, when, ids);
    if answer.Some? && Has(st.table, answer.value.kind, answer.value.id) {
      EntryIsLive(st.table, answer.value.kind, answer.value.id);
    }
  }

  /** A response that does not reach its own session completes another one exactly if that one waits under the id it carries. */
  lemma WrongSessionIff<S>(st: State<S>, s: S, other: S, response: Response)
    requires Inv(st) && other != s
    ensures Completed(st, response) == Some(other)
            <==> other in st.timers && other in st.table.ticket && other in st.sid
                 && st.table.ticket[other].kind == response.kind && st.sid[other] == response.id
  {
    if Has(st.table, response.kind, response.id) {
      EntryIsLive(st.table, response.kind, response.id);
      assert Recorded(st, st.table.maps[response.kind][response.id]);
    }
    if other in st.timers {
      assert Recorded(st, other);
    }
  }

  // ---------- responses that go astray ----------

  type VbeState = Server.State<int, int>

  function Open(kind: nat, s: int): Server.Event<int, int> {
    Server.Insert(kind, s, 0)
  }

  /** One connection, and `before` sessions opened over it. */
  function Openings(before: nat): seq<Server.Event<int, int>> {
    if before == 0 then [Server.Connect(0)] else Openings(before - 1) + [Open(VBE_OPERATION, before - 1)]
  }

  /** A VBE service that opens some other sessions and then one for a transfer. */
  function VbeRun(before: nat): seq<Server.Event<int, int>> {
    Openings(before) + [Open(VBE_TRANSFER, before)]
  }

  lemma RunSplit<S, E>(step: (S, E) -> Option<S>, s: S, es: seq<E>, e: E)
    requires Valid(step, s, es) && step(End(step, s, es), e).Some?
    ensures Valid(step, s, es + [e]) && End(step, s, es + [e]) == step(End(step, s, es), e).value
    decreases |es|
  {
    if es == [] {
      assert es + [e] == [e] && [e][1..] == [];
      assert Valid(step, step(s, e).value, []);
    } else {
      assert (es + [e])[0] == es[0] && (es + [e])[1..] == es[1..] + [e];
      RunSplit(step, step(s, es[0]).value, es[1..], e);
    }
  }

  ghost predicate Opened(st: VbeState, n: nat) {
    && Server.Inv(st) && |st.table.maps| == VBE_KINDS && 0 in st.arrays
    && st.table.first == 0 && st.table.issued == n && st.table.maps[VBE_TRANSFER] == map[]
    && (forall s | s in st.table.ticket :: s < n) && Window(st.table)
  }

  lemma OpensOne(st: VbeState, n: nat, kind: nat)
    requires Opened(st, n) && n + 1 < MODULUS && kind < VBE_KINDS
    ensures Server.Enabled(st, Open(kind, n))
    ensures Server.Step(st, Open(kind, n)).sid == st.sid[n as int := Nth(0, n)]
    ensures kind == VBE_OPERATION ==> Opened(Server.Step(st, Open(kind, n)), n + 1)
  {
    FreshWithinWindow(st.table);
    assert !Has(st.table, kind, st.table.next);
    Server.InvStep(st, Open(kind, n));
  }

  lemma {:induction false} OpensMany(before: nat)
    requires before + 1 < MODULUS
    ensures var init := Server.Init<int, int>(VBE_KINDS, 0);
            Valid(ServerRuns.Move<int, int>(), init, Openings(before)) && Opened(End(ServerRuns.Move<int, int>(), init, Openings(before)), before)
  {
    var init := Server.Init<int, int>(VBE_KINDS, 0);
    if before == 0 {
      Server.InvInit<int, int>(VBE_KINDS, 0);
      Server.InvStep(init, Server.Connect(0));
      RunSplit(ServerRuns.Move<int, int>(), init, [], Server.Connect(0));
      assert [] + [Server.Connect(0)] == Openings(0);
    } else {
      OpensMany(before - 1);
      OpensOne(End(ServerRuns.Move<int, int>(), init, Openings(before - 1)), before - 1, VBE_OPERATION);
      RunSplit(ServerRuns.Move<int, int>(), init, Openings(before - 1), Open(VBE_OPERATION, before - 1));
    }
  }

  /** The transfer's session at the VBE service then has the id that counts the sessions before it. */
  lemma VbeDraws(before: nat)
    requires before + 1 < MODULUS
    ensures var init := Server.Init<int, int>(VBE_KINDS, 0);
            Valid(ServerRuns.Move<int, int>(), init, VbeRun(before)) &&
            var st := End(ServerRuns.Move<int, int>(), init, VbeRun(before));
            before as int in st.sid && st.sid[before as int] == Nth(0, before)
  {
    OpensMany(before);
    var init := Server.Init<int, int>(VBE_KINDS, 0);
    OpensOne(End(ServerRuns.Move<int, int>(), init, Openings(before)), before, VBE_TRANSFER);
    RunSplit(ServerRuns.Move<int, int>(), init, Openings(before), Open(VBE_TRANSFER, before));
  }

  ghost function VbeId(before: nat): Id
    requires before + 1 < MODULUS
  {
    VbeDraws(before);
    End(ServerRuns.Move<int, int>(), Server.Init<int, int>(VBE_KINDS, 0), VbeRun(before)).sid[before as int]
  }

  /** The client's state with two transfers waiting, under 1 and 2. */
  lemma TwoTransfers<S>(a: S, b: S)
    requires a != b
    ensures var es := [Insert(TRANSFER, a), Insert(TRANSFER, b)];
            Valid(Move(), Init(CLIENT_KINDS, 1), es) &&
            var st := End(Move(), Init<S>(CLIENT_KINDS, 1), es);
            && |st.table.maps| == CLIENT_KINDS && st.table.maps[TRANSFER] == map[1 := a, 2 := b]
            && st.sid == map[a := 1, b := 2]
  {
    var init := Init<S>(CLIENT_KINDS, 1);
    var es := [Insert(TRANSFER, a), Insert(TRANSFER, b)];
    InvEmpty<S>(CLIENT_KINDS, 1);
    RunSplit(Move(), init, [], Insert(TRANSFER, a));
    assert [] + [Insert(TRANSFER, a)] == [Insert(TRANSFER, a)];
    RunSplit(Move(), init, [Insert(TRANSFER, a)], Insert(TRANSFER, b));
    assert [Insert(TRANSFER, a)] + [Insert(TRANSFER, b)] == es;
  }

  /**
   Two transfers through VBE services that have opened `m` and `n` sessions before are
   answered with `m` and `n`. With 0 and 1, as at one fresh service, the second answer
   completes the first transfer and the first answer none; with 2 and 1 they are swapped.
   */
  lemma ResponsesGoAstray<S>(a: S, b: S, x: Ids, y: Ids, m: nat, n: nat)
    requires a != b && m + 1 < MODULUS && n + 1 < MODULUS
    requires x.server == VbeId(m) && y.server == VbeId(n)
    ensures var st := End(Move(), Init<S>(CLIENT_KINDS, 1), [Insert(TRANSFER, a), Insert(TRANSFER, b)]);
            Valid(Move(), Init<S>(CLIENT_KINDS, 1), [Insert(TRANSFER, a), Insert(TRANSFER, b)]) &&
            var forA, forB := Completed(st, Answered(TRANSFER, Finished, x).value), Completed(st, Answered(TRANSFER, Finished, y).value);
            && (m == 0 && n == 1 ==> forA == None && forB == Some(a))
            && (m == 2 && n == 1 ==> forA == Some(b) && forB == Some(a))
  {
    VbeDraws(m);
    VbeDraws(n);
    TwoTransfers(a, b);
  }
}
