/** Short runs of the HLS service in which its transfers go wrong. */
module TransferExamples {
  import opened Options
  import opened WrappingId
  import opened TransferOrder
  import opened TransferRelease
  import opened TransferSpec
  import opened TransferRuns
  import opened Runs

  lemma FirstOfOne(t: Transfer)
    ensures First([t], t) && NoRepeats([t])
    ensures forall u :: Project([t], u) == Copies(t, t.users, u)
  {
    OldestEligible([t]);
    HeadsAllIff([t], t);
    forall u
      ensures Project([t], u) == Copies(t, t.users, u)
    {
      ProjectOne(t, u);
    }
  }

  /** The first request ever is proposed at once. */
  lemma FirstRequest(own: Channel, r: Transfer, key: Id)
    ensures Move(own)(Empty, Request(r, key, {})) == Some(Empty.(arrived := [r], table := map[key := r]))
  {
    InvEmptyState();
    RequestCases(own, Empty, r, key, {});
    FirstOfOne(r);
    assert Empty.arrived + [r] == [r];
  }

  lemma InvEmptyState()
    ensures Inv(Empty)
  {
  }

  /** A request behind one with a common user is only queued. */
  lemma SecondRequest(own: Channel, st: State, r: Transfer, t: Transfer, key: Id, refused: set<Transfer>)
    requires Inv(st) && Enabled(st, Request(t, key, refused)) && r in st.arrived && Share(r, t)
    ensures Move(own)(st, Request(t, key, refused)) == Some(Queued(st, t))
  {
    RequestCases(own, st, t, key, refused);
    QueuedIsSound(st, t);
    var all := Queued(st, t).arrived;
    HeadsAllIff(all, t);
    var j :| 0 <= j < |st.arrived| && st.arrived[j] == r;
    assert all[j] == r && Share(all[j], t);
    assert forall i: nat | i < |all| && all[i] == t :: j < i;
  }

  lemma FrontOfOne(t: Transfer, u: User)
    requires u in t.users
    ensures Project([t], u) != [] && Project([t], u)[0] == t
  {
    FirstOfOne(t);
    CopiesAre(t, t.users, u);
    assert Copies(t, t.users, u)[0] in Copies(t, t.users, u);
  }

  /** One wake-up. */
  lemma OneTurn(q: Queues, due: seq<User>, refused: set<Transfer>, t: Transfer, rest: seq<User>)
    requires due != [] && due[1..] == rest
    requires Project(q.arrived, due[0]) != [] && Project(q.arrived, due[0])[0] == t && t in q.arrived
    ensures Drain(q, due, refused) == Resume(q, t, rest, refused)
  {
  }

  /** Two transfers of the same users: the first is in progress, the second queued behind it. */
  lemma TwoRequests(own: Channel, r: Transfer, t: Transfer)
    requires r != t && Share(r, t)
    ensures var es := [Request(r, 1, {}), Request(t, 2, {})];
            Valid(Move(own), Empty, es) && End(Move(own), Empty, es) == Empty.(arrived := [r, t], table := map[1 := r])
  {
    var es := [Request(r, 1, {}), Request(t, 2, {})];
    FirstRequest(own, r, 1);
    InvEmptyState();
    InvStep(own, Empty, es[0]);
    SecondRequest(own, Empty.(arrived := [r], table := map[1 := r]), r, t, 2, {});
    TwoSteps(own, Empty, es);
  }

  /** The second of two transfers of the users 1 and 2 is proposed twice when the first is done: two wake-ups find it in front. */
  lemma ProposedTwiceHappens(own: Channel, r: Transfer, t: Transfer)
    requires r != t && r.users == [1, 2] && t.users == [1, 2] && !r.main && t.fieldId != 3
    ensures var es := [Request(r, 1, {}), Request(t, 2, {})];
            Valid(Move(own), Empty, es) &&
            var st := End(Move(own), Empty, es);
            Enabled(st, Result(1, true, 3, {})) && Step(own, st, Result(1, true, 3, {})) == Faulty(ProposedTwice)
  {
    assert 1 in r.users && 1 in t.users && Share(r, t);
    TwoRequests(own, r, t);
    var q, q' := Queues([t], map[], 3), Queues([t], map[3 := t], 4);
    assert Without([r, t], r) == [t] && map[1 := r] - {1} == map[];
    FirstOfOne(t);
    FrontOfOne(t, 1);
    FrontOfOne(t, 2);
    assert q'.table[3] == t;
    assert [1, 2][1..] == [2] && [2][1..] == [];
    OneTurn(q, [1, 2], {}, t, [2]);
    OneTurn(q', [2], {}, t, []);
  }

  /**
   One transfer leaves a successor in both its queues, and still runs into an empty
   one: the successor is refused and released before the second queue is looked at.
   */
  lemma CascadeBreaks(own: Channel, t: Transfer, x: Transfer)
    requires t != x && t.users == [1, 2] && x.users == [1, 2] && !t.main && x.main
    ensures var es := [Request(t, 1, {}), Request(x, 2, {})];
            Valid(Move(own), Empty, es) &&
            var st := End(Move(own), Empty, es);
            && (forall u | u in t.users :: Project(Without(st.arrived, t), u) != [])
            && Enabled(st, Result(1, true, 3, {x})) && Step(own, st, Result(1, true, 3, {x})) == Faulty(EmptyFront)
  {
    assert 1 in t.users && 1 in x.users && Share(t, x);
    TwoRequests(own, t, x);
    var q := Queues([x], map[], 3);
    assert Without([t, x], t) == [x] && map[1 := t] - {1} == map[];
    FirstOfOne(x);
    FrontOfOne(x, 1);
    FrontOfOne(x, 2);
    assert Without([x], x) == [];
    assert [1, 2][1..] == [2];
    OneTurn(q, [1, 2], {x}, x, [2]);
    assert Resume(q, x, [2], {x}) == Drain(q.(arrived := []), [1, 2] + [2], {x});
  }

  /**
   The map is asked for the id in the field of `t`, and that is the key of `z`: when `t`
   becomes entitled it is passed over, and by `BlockedRun` for ever.
   */
  lemma HeldHappens(own: Channel, z: Transfer, r: Transfer, t: Transfer)
    requires z != r && z != t && r != t && z.users == [2] && r.users == [1] && t.users == [1]
    requires !r.main && r.fieldId != 1 && t.fieldId == 1
    ensures var es := [Request(z, 1, {}), Request(r, 2, {})];
            Valid(Move(own), Empty, es) &&
            var es' := [Request(t, 3, {}), Result(2, true, 4, {})];
            Valid(Move(own), End(Move(own), Empty, es), es') &&
            Blocked(End(Move(own), End(Move(own), Empty, es), es'), t)
  {
    var one := Empty.(arrived := [z], table := map[1 := z]);
    FirstRequest(own, z, 1);
    InvEmptyState();
    InvStep(own, Empty, Request(z, 1, {}));
    var two := State([z, r], map[1 := z, 2 := r], map[], {}, map[], {});
    ApartRequest(own, one, z, r, 2);
    InvStep(own, one, Request(r, 2, {}));
    TwoSteps(own, Empty, [Request(z, 1, {}), Request(r, 2, {})]);
    assert 1 in r.users && 1 in t.users && Share(r, t);
    SecondRequest(own, two, r, t, 3, {});
    InvStep(own, two, Request(t, 3, {}));
    var three := State([z, r, t], map[1 := z, 2 := r], map[], {}, map[], {});
    assert Queued(two, t) == three;
    PassedOver(own, z, r, t);
    TwoSteps(own, two, [Request(t, 3, {}), Result(2, true, 4, {})]);
  }

  /** A request that shares no user with the only one before it is proposed at once. */
  lemma ApartRequest(own: Channel, one: State, z: Transfer, r: Transfer, key: Id)
    requires z != r && z.users == [2] && r.users == [1] && r.fieldId != 1 && key != 1
    requires one == Empty.(arrived := [z], table := map[1 := z]) && Inv(one)
    ensures Move(own)(one, Request(r, key, {})) == Some(one.(arrived := [z, r], table := map[1 := z, key := r]))
  {
    RequestCases(own, one, r, key, {});
    QueuedIsSound(one, r);
    assert one.arrived + [r] == [z, r];
    assert !Share(z, r);
    assert ClearAt([z, r], r, 1);
    HeadsAllIff([z, r], r);
  }

  lemma PassedOver(own: Channel, z: Transfer, r: Transfer, t: Transfer)
    requires z != r && z != t && r != t && z.users == [2] && r.users == [1] && t.users == [1]
    requires !r.main && t.fieldId == 1
    ensures var st := State([z, r, t], map[1 := z, 2 := r], map[], {}, map[], {});
            Move(own)(st, Result(2, true, 4, {})).Some? && Blocked(Move(own)(st, Result(2, true, 4, {})).value, t)
  {
    var st := State([z, r, t], map[1 := z, 2 := r], map[], {}, map[], {});
    var left := st.(table := map[1 := z]);
    assert st.table - {2} == map[1 := z];
    assert Without([z, r, t], r) == [z, t] by {
      assert [z, r, t][1..] == [r, t] && [r, t][1..] == [t];
    }
    var q := Queues([z, t], map[1 := z], 4);
    ProjectConcat([z], [t], 1);
    assert [z] + [t] == [z, t];
    ProjectOne(z, 1);
    CopiesAre(z, z.users, 1);
    FrontOfOne(t, 1);
    assert Project([z, t], 1)[0] == t;
    assert [1][1..] == [];
    OneTurn(q, [1], {}, t, []);
    assert Resume(q, t, [], {}) == Done(q);
    assert !Share(z, t);
    assert ClearAt([z, t], t, 1);
  }

  lemma TwoSteps(own: Channel, st: State, es: seq<Event>)
    requires |es| == 2 && Move(own)(st, es[0]).Some? && Move(own)(Move(own)(st, es[0]).value, es[1]).Some?
    ensures Valid(Move(own), st, es) && End(Move(own), st, es) == Move(own)(Move(own)(st, es[0]).value, es[1]).value
  {
    var one := Move(own)(st, es[0]).value;
    var two := Move(own)(one, es[1]).value;
    assert es[1..][0] == es[1] && es[1..][1..] == [];
    assert Valid(Move(own), two, []);
    assert Valid(Move(own), one, es[1..]);
    assert End(Move(own), one, es[1..]) == End(Move(own), two, []);
  }
}
