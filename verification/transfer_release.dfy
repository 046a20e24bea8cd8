/**
 What happens to the queues when a transfer leaves them: the wake-ups that follow,
 the proposals they lead to and the releases that failed proposals lead to. The
 nested calls of the service are unrolled into one list of the users still due.
 */
module TransferRelease {
  import opened WrappingId
  import opened TransferOrder

  /** Steps after which the program has no defined state any more, or two of its structures disagree. */
  datatype Fault =
    | EmptyFront     // `front()` of an empty queue
    | ProposedTwice  // a transfer in `m_mapTransfer` is proposed and inserted once more
    | KeyTaken       // the counter has come round to a key in use
    | LinkedTwice    // a transfer that is in `m_mapTransfer` is inserted again by its retry
    | FreedInMap     // a transfer is deleted and still in `m_mapTransfer`

  /** `table` is `m_mapTransfer`, `next` the counter `m_nHlsSessionID`. */
  datatype Queues = Queues(arrived: seq<Transfer>, table: map<Id, Transfer>, next: Id)

  datatype Turn = Go(q: Queues, due: seq<User>) | Stop(why: Fault)

  datatype Outcome = Done(q: Queues) | Broken(why: Fault, q: Queues)

  /** `t` is at the front of the queue of each of its users. */
  ghost predicate First(arrived: seq<Transfer>, t: Transfer) {
    forall u | u in t.users :: Heads(arrived, t, u)
  }

  lemma WithoutShorter(arrived: seq<Transfer>, t: Transfer)
    requires t in arrived
    ensures |Without(arrived, t)| < |arrived|
  {
  }

  /**
   `MaybePropose`: the map is asked for the id in the transfer's field. `refused` are
   the transfers whose proposal the block chain does not take. A main transfer is
   then released, and its users' queues are due next.
   */
  ghost function Ask(q: Queues, t: Transfer, due: seq<User>, refused: set<Transfer>): (turn: Turn)
    requires t in q.arrived
    ensures turn.Go? ==> |turn.q.arrived| < |q.arrived| || (turn.q.arrived == q.arrived && turn.due == due)
  {
    if t.fieldId in q.table || !First(q.arrived, t) then Go(q, due)
    else if t in q.table.Values then Stop(ProposedTwice)
    else if t.main && t in refused then
      WithoutShorter(q.arrived, t);
      Go(q.(arrived := Without(q.arrived, t)), t.users + due)
    else if q.next in q.table then Stop(KeyTaken)
    else Go(q.(table := q.table[q.next := t], next := Next(q.next)), due)
  }

  /** The front of each due user's queue gets its chance, one after the other. */
  ghost function Drain(q: Queues, due: seq<User>, refused: set<Transfer>): Outcome
    decreases |q.arrived|, |due|
  {
    if due == [] then Done(q)
    else
      var line := Project(q.arrived, due[0]);
      if line == [] then Broken(EmptyFront, q)
      else
        ProjectHas(q.arrived, due[0]);
        Resume(q, line[0], due[1..], refused)
  }

  ghost function Resume(q: Queues, t: Transfer, due: seq<User>, refused: set<Transfer>): Outcome
    requires t in q.arrived
    decreases |q.arrived|, |due| + 1, 0
  {
    match Ask(q, t, due, refused)
    case Go(next, rest) => Drain(next, rest, refused)
    case Stop(why) => Broken(why, q)
  }

  // ---------- what the map is asked, and what it should be ----------

  /** What the turn is meant to be: nothing if the transfer itself is in the map. */
  ghost function Intended(q: Queues, t: Transfer, due: seq<User>, refused: set<Transfer>): Turn {
    if t in q.table.Values || !First(q.arrived, t) then Go(q, due)
    else if t.main && t in refused then Go(q.(arrived := Without(q.arrived, t)), t.users + due)
    else if q.next in q.table then Stop(KeyTaken)
    else Go(q.(table := q.table[q.next := t], next := Next(q.next)), due)
  }

  /** For a transfer in front, the code does what is meant if and only if its field is a key in use exactly when it is in the map. */
  lemma GuardRightIff(q: Queues, t: Transfer, due: seq<User>, refused: set<Transfer>)
    requires t in q.arrived && First(q.arrived, t)
    ensures Ask(q, t, due, refused) == Intended(q, t, due, refused) <==> (t.fieldId in q.table <==> t in q.table.Values)
  {
    WithoutShorter(q.arrived, t);
    NextDiffers(q.next);
  }

  lemma NextDiffers(x: Id)
    ensures Next(x) != x
  {
  }

  // ---------- what every turn keeps ----------

  /** Whatever is in progress is entitled to be; `aside` are those in progress outside `m_mapTransfer`. */
  ghost predicate Sound(q: Queues, aside: set<Transfer>) {
    && NoRepeats(q.arrived)
    && (forall b | b in q.table.Values + aside :: Eligible(q.arrived, b))
    && q.table.Values !! aside
    && (forall i, j | i in q.table && j in q.table && q.table[i] == q.table[j] :: i == j)
  }

  ghost predicate Apart(due: seq<User>, aside: set<Transfer>) {
    forall u, b | u in due && b in aside :: u !in b.users
  }

  lemma EligibleIsApart(q: Queues, t: Transfer, aside: set<Transfer>)
    requires Eligible(q.arrived, t) && t !in aside && forall b | b in aside :: Eligible(q.arrived, b)
    ensures Apart(t.users, aside)
  {
    forall u, b | u in t.users && b in aside
      ensures u !in b.users
    {
      EligibleApart(q.arrived, t, b);
      assert u in b.users ==> Share(t, b);
    }
  }

  /** The front of a due queue has that user, is queued, and is not set aside. */
  lemma FrontOfDue(q: Queues, due: seq<User>, aside: set<Transfer>)
    requires due != [] && Project(q.arrived, due[0]) != [] && Apart(due, aside)
    ensures var t := Project(q.arrived, due[0])[0]; t in q.arrived && due[0] in t.users && t !in aside
    ensures Apart(due[1..], aside)
  {
    ProjectHas(q.arrived, due[0]);
    assert due[0] in due && forall u | u in due[1..] :: u in due;
    assert Project(q.arrived, due[0])[0] in Project(q.arrived, due[0]);
  }

  lemma AskSound(q: Queues, t: Transfer, due: seq<User>, refused: set<Transfer>, aside: set<Transfer>)
    requires Sound(q, aside) && t in q.arrived && t !in aside && Apart(due, aside) && Ask(q, t, due, refused).Go?
    ensures var turn := Ask(q, t, due, refused); Sound(turn.q, aside) && Apart(turn.due, aside)
  {
    var turn := Ask(q, t, due, refused);
    if turn.q != q {
      HeadsAllIff(q.arrived, t);
      EligibleIsApart(q, t, aside);
      if turn.q.arrived != q.arrived {
        var i := WithoutPositions(q.arrived, t);
        WithoutSplit(q.arrived, t, i);
        forall b | b in turn.q.table.Values + aside
          ensures Eligible(turn.q.arrived, b)
        {
          StaysEligible(q.arrived, t, b);
        }
      }
    }
  }

  /** What a turn may change: it inserts or releases the transfer that it asks, or does nothing. */
  lemma AskChanges(q: Queues, t: Transfer, due: seq<User>, refused: set<Transfer>)
    requires t in q.arrived && NoRepeats(q.arrived) && Ask(q, t, due, refused).Go?
    ensures var q' := Ask(q, t, due, refused).q;
            && (forall id | id in q.table :: id in q'.table && q'.table[id] == q.table[id])
            && q.table.Values <= q'.table.Values <= q.table.Values + {t}
            && (t in q'.table.Values ==> t in q.table.Values || !(t.main && t in refused))
            && (forall j | 0 <= j < |q'.arrived| :: q'.arrived[j] in q.arrived)
            && (forall j | 0 <= j < |q.arrived| :: q.arrived[j] in q'.arrived || q.arrived[j] == t)
            && (q'.arrived == q.arrived || t !in q'.arrived)
            && (q'.arrived != q.arrived ==> t.main && t in refused && t !in q.table.Values)
  {
    var q' := Ask(q, t, due, refused).q;
    WithoutMembers(q.arrived, t);
    forall x | x in q.table.Values
      ensures x in q'.table.Values
    {
      var id :| id in q.table && q.table[id] == x;
      assert id in q'.table && q'.table[id] == x;
    }
  }

  lemma WithoutMembers(a: seq<Transfer>, t: Transfer)
    requires t in a && NoRepeats(a)
    ensures var rest := Without(a, t);
            && (forall j | 0 <= j < |rest| :: rest[j] in a)
            && (forall j | 0 <= j < |a| :: a[j] in rest || a[j] == t)
            && t !in rest
  {
    var i := WithoutPositions(a, t);
    WithoutSplit(a, t, i);
    var rest := Without(a, t);
    forall j | 0 <= j < |a|
      ensures a[j] in rest || a[j] == t
    {
      assert j < i ==> rest[j] == a[j];
      assert j > i ==> rest[j - 1] == a[j];
    }
    forall j | 0 <= j < |rest|
      ensures rest[j] in a
    {
      assert rest[j] == a[if j < i then j else j + 1];
    }
  }

  /** Only refused main transfers have left, only others have entered the map, and nothing has left it. */
  ghost predicate Follows(q: Queues, q': Queues, refused: set<Transfer>, aside: set<Transfer>) {
    && (forall id | id in q.table :: id in q'.table && q'.table[id] == q.table[id])
    && q.table.Values <= q'.table.Values
    && (forall id | id in q'.table && q'.table[id] !in q.table.Values ::
          q'.table[id] in q.arrived && q'.table[id] !in aside && !(q'.table[id].main && q'.table[id] in refused))
    && (forall j | 0 <= j < |q'.arrived| :: q'.arrived[j] in q.arrived)
    && (forall j | 0 <= j < |q.arrived| && q.arrived[j] !in q'.arrived ::
          q.arrived[j].main && q.arrived[j] in refused && q.arrived[j] !in q.table.Values && q.arrived[j] !in aside)
  }

  lemma FollowsOn(q: Queues, q': Queues, q'': Queues, refused: set<Transfer>, aside: set<Transfer>)
    requires Follows(q, q', refused, aside) && Follows(q', q'', refused, aside)
    ensures Follows(q, q'', refused, aside)
  {
    PartOfPart(q.arrived, q'.arrived, q''.arrived);
    forall id | id in q''.table && q''.table[id] !in q.table.Values
      ensures q''.table[id] in q.arrived && q''.table[id] !in aside && !(q''.table[id].main && q''.table[id] in refused)
    {
      EnteredBetween(q, q', q'', refused, aside, id);
    }
    forall j | 0 <= j < |q.arrived| && q.arrived[j] !in q''.arrived
      ensures q.arrived[j].main && q.arrived[j] in refused && q.arrived[j] !in q.table.Values && q.arrived[j] !in aside
    {
      LeftBetween(q, q', q'', refused, aside, j);
    }
  }

  lemma PartOfPart(a: seq<Transfer>, b: seq<Transfer>, c: seq<Transfer>)
    requires forall j | 0 <= j < |b| :: b[j] in a
    requires forall j | 0 <= j < |c| :: c[j] in b
    ensures forall j | 0 <= j < |c| :: c[j] in a
  {
    forall j | 0 <= j < |c|
      ensures c[j] in a
    {
      assert c[j] in b;
      var k :| 0 <= k < |b| && b[k] == c[j];
    }
  }

  lemma EnteredBetween(q: Queues, q': Queues, q'': Queues, refused: set<Transfer>, aside: set<Transfer>, id: Id)
    requires Follows(q, q', refused, aside) && Follows(q', q'', refused, aside)
    requires id in q''.table && q''.table[id] !in q.table.Values
    ensures q''.table[id] in q.arrived && q''.table[id] !in aside && !(q''.table[id].main && q''.table[id] in refused)
  {
    var x: Transfer := q''.table[id];
    if x in q'.table.Values {
      var i :| i in q'.table && q'.table[i] == x;
      assert q'.table[i] !in q.table.Values;
    } else {
      assert q''.table[id] in q'.arrived;
      var k :| 0 <= k < |q'.arrived| && q'.arrived[k] == x;
      assert q'.arrived[k] in q.arrived;
    }
  }

  lemma LeftBetween(q: Queues, q': Queues, q'': Queues, refused: set<Transfer>, aside: set<Transfer>, j: nat)
    requires Follows(q, q', refused, aside) && Follows(q', q'', refused, aside)
    requires j < |q.arrived| && q.arrived[j] !in q''.arrived
    ensures q.arrived[j].main && q.arrived[j] in refused && q.arrived[j] !in q.table.Values && q.arrived[j] !in aside
  {
    var x: Transfer := q.arrived[j];
    if x in q'.arrived {
      var k :| 0 <= k < |q'.arrived| && q'.arrived[k] == x;
      assert q'.arrived[k] !in q''.arrived;
      assert q'.arrived[k] !in q'.table.Values;
    }
  }

  lemma AskFollows(q: Queues, t: Transfer, due: seq<User>, refused: set<Transfer>, aside: set<Transfer>)
    requires t in q.arrived && NoRepeats(q.arrived) && t !in aside && Ask(q, t, due, refused).Go?
    ensures Follows(q, Ask(q, t, due, refused).q, refused, aside)
  {
    AskChanges(q, t, due, refused);
  }

  lemma {:induction false} DrainFollows(q: Queues, due: seq<User>, refused: set<Transfer>, aside: set<Transfer>)
    requires Sound(q, aside) && Apart(due, aside)
    ensures Sound(Drain(q, due, refused).q, aside) && Follows(q, Drain(q, due, refused).q, refused, aside)
    decreases |q.arrived|, |due|
  {
    if due != [] && Project(q.arrived, due[0]) != [] {
      FrontOfDue(q, due, aside);
      var t := Project(q.arrived, due[0])[0];
      var turn := Ask(q, t, due[1..], refused);
      if turn.Go? {
        AskSound(q, t, due[1..], refused, aside);
        AskFollows(q, t, due[1..], refused, aside);
        DrainFollows(turn.q, turn.due, refused, aside);
        FollowsOn(q, turn.q, Drain(turn.q, turn.due, refused).q, refused, aside);
      }
    }
  }

  /** The same over all wake-ups. */
  lemma DrainChanges(q: Queues, due: seq<User>, refused: set<Transfer>, aside: set<Transfer>)
    requires Sound(q, aside) && Apart(due, aside)
    ensures var q' := Drain(q, due, refused).q;
            && Sound(q', aside)
            && (forall id | id in q.table :: id in q'.table && q'.table[id] == q.table[id])
            && (forall x | x in q'.table.Values && x !in q.table.Values :: x in q.arrived && x !in aside && !(x.main && x in refused))
            && (forall x | x in q'.arrived :: x in q.arrived)
            && (forall x | x in q.arrived && x !in q'.arrived :: x.main && x in refused && x !in q.table.Values && x !in aside)
  {
    DrainFollows(q, due, refused, aside);
  }

  // ---------- no wake-up is lost ----------

  /** Entitled to be in progress, and not. */
  ghost predicate Idle(q: Queues, aside: set<Transfer>, y: Transfer) {
    y in q.arrived && y !in aside && y !in q.table.Values && Eligible(q.arrived, y)
  }

  /** Who is idle, apart from `x`, is still due, or its field happens to be a key in use. */
  ghost predicate Reached(q: Queues, due: seq<User>, aside: set<Transfer>, x: Transfer?) {
    forall y | y in q.arrived && Idle(q, aside, y) && y != x && y.fieldId !in q.table :: exists u :: u in due && u in y.users
  }

  lemma AskServes(q: Queues, t: Transfer, due: seq<User>, refused: set<Transfer>)
    requires t in q.arrived && Ask(q, t, due, refused).Go?
    ensures var q' := Ask(q, t, due, refused).q;
            q'.arrived == q.arrived ==> t.fieldId in q'.table || !First(q.arrived, t) || t in q'.table.Values
  {
    WithoutShorter(q.arrived, t);
    var q' := Ask(q, t, due, refused).q;
    if q'.arrived == q.arrived && q'.table != q.table {
      assert q'.table[q.next] == t;
    }
  }

  lemma AskReaches(q: Queues, t: Transfer, due: seq<User>, refused: set<Transfer>, aside: set<Transfer>)
    requires Sound(q, aside) && t in q.arrived && Reached(q, due, aside, t) && Ask(q, t, due, refused).Go?
    ensures var turn := Ask(q, t, due, refused); Reached(turn.q, turn.due, aside, null)
  {
    var turn := Ask(q, t, due, refused);
    HeadsAllIff(q.arrived, t);
    AskChanges(q, t, due, refused);
    AskServes(q, t, due, refused);
    forall y | y in turn.q.arrived && Idle(turn.q, aside, y) && y.fieldId !in turn.q.table
      ensures exists u :: u in turn.due && u in y.users
    {
      if turn.q.arrived != q.arrived {
        NewlyEligible(q.arrived, t, y);
        if Share(t, y) {
          var u :| u in t.users && u in y.users;
          assert u in turn.due;
        } else {
          var u :| u in due && u in y.users;
          assert u in turn.due;
        }
      } else {
        assert y !in q.table.Values;
        assert Idle(q, aside, y);
        assert y != t;
      }
    }
  }

  /** When a due user has been popped, only the front of that queue lost its call. */
  lemma PopReaches(q: Queues, due: seq<User>, aside: set<Transfer>)
    requires Sound(q, aside) && due != [] && Project(q.arrived, due[0]) != [] && Reached(q, due, aside, null)
    ensures Reached(q, due[1..], aside, Project(q.arrived, due[0])[0])
  {
    var t := Project(q.arrived, due[0])[0];
    forall y | y in q.arrived && Idle(q, aside, y) && y != t && y.fieldId !in q.table
      ensures exists u :: u in due[1..] && u in y.users
    {
      var u :| u in due && u in y.users;
      HeadsAllIff(q.arrived, y);
      assert due == [due[0]] + due[1..];
      assert u == due[0] ==> Heads(q.arrived, y, u);
    }
  }

  /** After the last wake-up, everything entitled is in progress or has a field that is a key in use. */
  lemma {:induction false} DrainReaches(q: Queues, due: seq<User>, refused: set<Transfer>, aside: set<Transfer>)
    requires Sound(q, aside) && Apart(due, aside) && Reached(q, due, aside, null)
    ensures var outcome := Drain(q, due, refused); outcome.Done? ==> Reached(outcome.q, [], aside, null)
    decreases |q.arrived|, |due|
  {
    if due != [] && Project(q.arrived, due[0]) != [] {
      FrontOfDue(q, due, aside);
      var t := Project(q.arrived, due[0])[0];
      PopReaches(q, due, aside);
      var turn := Ask(q, t, due[1..], refused);
      if turn.Go? {
        AskSound(q, t, due[1..], refused, aside);
        AskReaches(q, t, due[1..], refused, aside);
        DrainReaches(turn.q, turn.due, refused, aside);
      }
    }
  }

  // ---------- empty queues ----------

  /** Somebody queued has `u`, or `u` is due. */
  ghost predicate Wanted(q: Queues, due: seq<User>, u: User) {
    Project(q.arrived, u) != [] || u in due
  }

  lemma WithoutElsewhere(arrived: seq<Transfer>, t: Transfer, u: User)
    requires NoRepeats(arrived) && t in arrived && u !in t.users
    ensures Project(Without(arrived, t), u) == Project(arrived, u)
  {
    var i: nat :| i < |arrived| && arrived[i] == t;
    WithoutAt(arrived, t, i);
    assert arrived == arrived[..i] + [t] + arrived[i + 1..];
    ProjectAround(arrived[..i], t, arrived[i + 1..], u);
    CopiesAre(t, t.users, u);
  }

  lemma ReleaseWanted(q: Queues, t: Transfer, due: seq<User>, u: User)
    requires NoRepeats(q.arrived) && t in q.arrived
    ensures Wanted(q.(arrived := Without(q.arrived, t)), t.users + due, u) <==> Wanted(q, due, u)
  {
    if u in t.users {
      ProjectHas(q.arrived, u);
    } else {
      WithoutElsewhere(q.arrived, t, u);
    }
  }

  /** A turn leaves the same users wanted: those of a released transfer are due. */
  lemma TurnWanted(q: Queues, due: seq<User>, refused: set<Transfer>, u: User)
    requires NoRepeats(q.arrived) && due != [] && Project(q.arrived, due[0]) != []
    ensures var t := Project(q.arrived, due[0])[0];
            t in q.arrived &&
            var turn := Ask(q, t, due[1..], refused);
            turn.Go? ==> (Wanted(turn.q, turn.due, u) <==> Wanted(q, due, u))
  {
    FrontOfDue(q, due, {});
    var t := Project(q.arrived, due[0])[0];
    assert Wanted(q, due[1..], u) <==> Wanted(q, due, u) by {
      assert due == [due[0]] + due[1..];
    }
    ReleaseWanted(q, t, due[1..], u);
  }

  /**
   The wake-ups end well only if every user who was wanted is still served by
   somebody queued; they reach an empty queue only if some wanted user is not.
   */
  lemma {:induction false} DrainEmpties(q: Queues, due: seq<User>, refused: set<Transfer>, aside: set<Transfer>)
    requires Sound(q, aside) && Apart(due, aside)
    ensures var outcome := Drain(q, due, refused);
            && (outcome.Done? ==> forall u | Wanted(q, due, u) :: Project(outcome.q.arrived, u) != [])
            && (outcome.Broken? && outcome.why == EmptyFront ==>
                  exists u :: Wanted(q, due, u) && Project(outcome.q.arrived, u) == [])
    decreases |q.arrived|, |due|
  {
    if due != [] {
      if Project(q.arrived, due[0]) == [] {
        assert Wanted(q, due, due[0]);
      } else {
        FrontOfDue(q, due, aside);
        var t := Project(q.arrived, due[0])[0];
        var turn := Ask(q, t, due[1..], refused);
        if turn.Go? {
          AskSound(q, t, due[1..], refused, aside);
          forall u
            ensures Wanted(turn.q, turn.due, u) <==> Wanted(q, due, u)
          {
            TurnWanted(q, due, refused, u);
          }
          DrainEmpties(turn.q, turn.due, refused, aside);
        }
      }
    }
  }

  // ---------- who survives a release ----------

  /**
   Going through the queue in order of arrival: a doomed transfer goes unless one
   that stays has a user in common with it.
   */
  ghost function Survivors(arrived: seq<Transfer>, doomed: set<Transfer>): seq<Transfer> {
    if arrived == [] then []
    else
      var x, before := arrived[|arrived| - 1], Survivors(arrived[..|arrived| - 1], doomed);
      if x in doomed && forall y | y in before :: !Share(y, x) then before else before + [x]
  }

  lemma {:induction false} SurvivorsArePart(arrived: seq<Transfer>, doomed: set<Transfer>)
    ensures forall x | x in Survivors(arrived, doomed) :: x in arrived
    ensures forall x | x in arrived && x !in doomed :: x in Survivors(arrived, doomed)
  {
    if arrived != [] {
      SurvivorsArePart(arrived[..|arrived| - 1], doomed);
    }
  }

  lemma SurvivorsAppend(before: seq<Transfer>, x: Transfer, doomed: set<Transfer>)
    ensures var s := Survivors(before, doomed);
            Survivors(before + [x], doomed) == if x in doomed && forall y | y in s :: !Share(y, x) then s else s + [x]
  {
    assert (before + [x])[..|before|] == before;
  }

  lemma EligibleLastGoes(before: seq<Transfer>, t: Transfer, doomed: set<Transfer>)
    requires t in doomed && forall j | 0 <= j < |before| :: !Share(before[j], t)
    ensures Survivors(before + [t], doomed) == Survivors(before, doomed)
  {
    SurvivorsAppend(before, t, doomed);
    SurvivorsArePart(before, doomed);
  }

  lemma {:induction false} WithoutAppend(before: seq<Transfer>, t: Transfer, x: Transfer)
    requires t in before
    ensures Without(before + [x], t) == Without(before, t) + [x]
  {
    assert (before + [x])[0] == before[0] && (before + [x])[1..] == before[1..] + [x];
    if before[0] != t {
      WithoutAppend(before[1..], t, x);
    }
  }

  /** The order in which doomed transfers go does not matter. */
  lemma {:induction false} SurvivorsWithout(arrived: seq<Transfer>, t: Transfer, doomed: set<Transfer>, i: nat)
    requires NoRepeats(arrived) && t in doomed && ClearAt(arrived, t, i)
    ensures Survivors(Without(arrived, t), doomed) == Survivors(arrived, doomed)
    decreases |arrived|
  {
    var n := |arrived| - 1;
    var before, x := arrived[..n], arrived[n];
    assert arrived == before + [x];
    if i == n {
      WithoutAt(arrived, t, i);
      assert Without(arrived, t) == before;
      EligibleLastGoes(before, t, doomed);
    } else {
      SurvivorsWithout(before, t, doomed, i);
      WithoutAppend(before, t, x);
      SurvivorsAppend(before, x, doomed);
      SurvivorsAppend(Without(before, t), x, doomed);
    }
  }

  /** If no doomed transfer is eligible, all stay. */
  lemma {:induction false} SurvivorsAll(arrived: seq<Transfer>, doomed: set<Transfer>)
    requires forall x | x in arrived && x in doomed :: !Eligible(arrived, x)
    ensures Survivors(arrived, doomed) == arrived
  {
    if arrived != [] {
      var n := |arrived| - 1;
      var before, x := arrived[..n], arrived[n];
      forall y | y in before && y in doomed
        ensures !Eligible(before, y)
      {
        if Eligible(before, y) {
          var i: nat :| ClearAt(before, y, i);
          assert ClearAt(arrived, y, i);
        }
      }
      SurvivorsAll(before, doomed);
      assert (forall y | y in before :: !Share(y, x)) ==> ClearAt(arrived, x, n);
    }
  }

  /** Who is released as soon as it is asked. */
  ghost predicate IsDoomed(q: Queues, refused: set<Transfer>, aside: set<Transfer>, x: Transfer) {
    x in q.arrived && x.main && x in refused && x !in aside && x !in q.table.Values && x.fieldId !in q.table
  }

  ghost function Doomed(q: Queues, refused: set<Transfer>, aside: set<Transfer>): set<Transfer> {
    set x | x in q.arrived && IsDoomed(q, refused, aside, x)
  }

  // ---------- room for the next keys ----------

  ghost function Unproposed(q: Queues): set<Transfer> {
    set x | x in q.arrived && x !in q.table.Values
  }

  /** The keys that the wake-ups could use are in nobody's field and not in use. */
  ghost predicate Spare(q: Queues) {
    |Unproposed(q)| <= MODULUS && forall i: nat | i < |Unproposed(q)| :: Unused(q, Nth(q.next, i))
  }

  ghost predicate Unused(q: Queues, id: Id) {
    id !in q.table && forall x | x in q.arrived :: x.fieldId != id
  }

  lemma FewerUnproposed(q: Queues, q': Queues, t: Transfer)
    requires Unproposed(q') <= Unproposed(q) && t in Unproposed(q) && t !in Unproposed(q')
    ensures |Unproposed(q')| < |Unproposed(q)|
  {
    assert Unproposed(q') <= Unproposed(q) - {t};
    SubsetSize(Unproposed(q'), Unproposed(q) - {t});
  }

  lemma SubsetSize(a: set<Transfer>, b: set<Transfer>)
    requires a <= b
    ensures |a| <= |b|
  {
    assert b == a + (b - a);
  }

  lemma SpareAfterInsert(q: Queues, t: Transfer)
    requires Spare(q) && t in Unproposed(q) && q.next !in q.table
    ensures Spare(q.(table := q.table[q.next := t], next := Next(q.next)))
  {
    var q' := q.(table := q.table[q.next := t], next := Next(q.next));
    assert q'.table[q.next] == t;
    forall x | x in q.table.Values
      ensures x in q'.table.Values
    {
      var id :| id in q.table && q.table[id] == x;
      assert q'.table[id] == x;
    }
    FewerUnproposed(q, q', t);
    forall i: nat | i < |Unproposed(q')|
      ensures Unused(q', Nth(q'.next, i))
    {
      NthOfNext(q.next, i);
      SameIdIff(q.next, 0, i + 1);
      assert Unused(q, Nth(q.next, i + 1));
    }
  }

  lemma AskSpare(q: Queues, t: Transfer, due: seq<User>, refused: set<Transfer>, aside: set<Transfer>)
    requires Sound(q, aside) && Spare(q) && t in q.arrived
    ensures var turn := Ask(q, t, due, refused);
            && (turn.Stop? ==> turn.why == ProposedTwice)
            && (turn.Go? ==> Spare(turn.q) && forall x | x in q.arrived :: x.fieldId in turn.q.table <==> x.fieldId in q.table)
  {
    var turn := Ask(q, t, due, refused);
    if t.fieldId !in q.table && First(q.arrived, t) && t !in q.table.Values {
      assert t in Unproposed(q);
      FewerUnproposed(q, q.(arrived := []), t);
      assert Unused(q, Nth(q.next, 0)) && Nth(q.next, 0) == q.next;
      if turn.q.arrived != q.arrived {
        var i := WithoutPositions(q.arrived, t);
        SubsetSize(Unproposed(turn.q), Unproposed(q));
        forall j: nat | j < |Unproposed(turn.q)|
          ensures Unused(turn.q, Nth(turn.q.next, j))
        {
          assert Unused(q, Nth(q.next, j));
        }
      } else {
        SpareAfterInsert(q, t);
      }
    }
  }

  // ---------- the whole release ----------

  /** `doomed` are those that go as soon as they are asked. */
  ghost predicate Matches(q: Queues, refused: set<Transfer>, aside: set<Transfer>, doomed: set<Transfer>) {
    forall x | x in q.arrived :: x in doomed <==> IsDoomed(q, refused, aside, x)
  }

  lemma AskMatches(q: Queues, t: Transfer, due: seq<User>, refused: set<Transfer>, aside: set<Transfer>, doomed: set<Transfer>)
    requires Sound(q, aside) && Spare(q) && t in q.arrived && t !in aside
    requires Matches(q, refused, aside, doomed) && Ask(q, t, due, refused).Go?
    ensures var turn := Ask(q, t, due, refused);
            Matches(turn.q, refused, aside, doomed) && Survivors(turn.q.arrived, doomed) == Survivors(q.arrived, doomed)
  {
    var turn := Ask(q, t, due, refused);
    AskSpare(q, t, due, refused, aside);
    AskChanges(q, t, due, refused);
    forall x | x in turn.q.arrived
      ensures x in doomed <==> IsDoomed(turn.q, refused, aside, x)
    {
      assert IsDoomed(turn.q, refused, aside, x) <==> IsDoomed(q, refused, aside, x);
    }
    if turn.q.arrived != q.arrived {
      HeadsAllIff(q.arrived, t);
      var i: nat :| ClearAt(q.arrived, t, i);
      SurvivorsWithout(q.arrived, t, doomed, i);
    }
  }

  /** At every stage the same transfers are bound to survive; at the end they are what is left. */
  lemma {:induction false} DrainSurvivors(q: Queues, due: seq<User>, refused: set<Transfer>, aside: set<Transfer>, doomed: set<Transfer>)
    requires Sound(q, aside) && Apart(due, aside) && Spare(q)
    requires Reached(q, due, aside, null) && Matches(q, refused, aside, doomed)
    ensures var outcome := Drain(q, due, refused);
            && Survivors(outcome.q.arrived, doomed) == Survivors(q.arrived, doomed)
            && (outcome.Done? ==> outcome.q.arrived == Survivors(q.arrived, doomed))
            && (outcome.Broken? ==> outcome.why == EmptyFront || outcome.why == ProposedTwice)
    decreases |q.arrived|, |due|
  {
    if due == [] {
      SurvivorsAll(q.arrived, doomed);
    } else if Project(q.arrived, due[0]) != [] {
      FrontOfDue(q, due, aside);
      var t := Project(q.arrived, due[0])[0];
      PopReaches(q, due, aside);
      AskSpare(q, t, due[1..], refused, aside);
      var turn := Ask(q, t, due[1..], refused);
      if turn.Go? {
        AskSound(q, t, due[1..], refused, aside);
        AskReaches(q, t, due[1..], refused, aside);
        AskMatches(q, t, due[1..], refused, aside, doomed);
        DrainSurvivors(turn.q, turn.due, refused, aside, doomed);
      }
    }
  }

  // ---------- proposed at most once ----------

  /** On the way some transfer is proposed, and goes into the map, while one of its own users is still due. */
  ghost predicate Hasty(q: Queues, due: seq<User>, refused: set<Transfer>)
    decreases |q.arrived|, |due|
  {
    due != [] && Project(q.arrived, due[0]) != [] &&
    (ProjectHas(q.arrived, due[0]);
     var t := Project(q.arrived, due[0])[0];
     match Ask(q, t, due[1..], refused)
     case Go(next, rest) => (next.table != q.table && exists u :: u in rest && u in t.users) || Hasty(next, rest, refused)
     case Stop(_) => false)
  }

  /** `b` is in the map, its field does not show it, and one of its users is due. */
  ghost predicate Marked(q: Queues, due: seq<User>, b: Transfer) {
    b in q.table.Values && b.fieldId !in q.table && exists u :: u in due && u in b.users
  }

  lemma EligibleIsFront(q: Queues, b: Transfer, u: User)
    requires NoRepeats(q.arrived) && Eligible(q.arrived, b) && u in b.users
    ensures b in q.arrived && First(q.arrived, b) && Project(q.arrived, u) != [] && Project(q.arrived, u)[0] == b
  {
    EligibleIsQueued(q.arrived, b);
    HeadsAllIff(q.arrived, b);
    assert Heads(q.arrived, b, u);
  }

  /** Asking another transfer leaves the mark. */
  lemma MarkedStays(q: Queues, t: Transfer, due: seq<User>, refused: set<Transfer>, aside: set<Transfer>, b: Transfer)
    requires Sound(q, aside) && Spare(q) && t in q.arrived && Marked(q, due, b)
    ensures var turn := Ask(q, t, due, refused); turn.Go? ==> Marked(turn.q, turn.due, b)
  {
    var turn := Ask(q, t, due, refused);
    if turn.Go? {
      EligibleIsQueued(q.arrived, b);
      AskSpare(q, t, due, refused, aside);
      AskChanges(q, t, due, refused);
      var u :| u in due && u in b.users;
      assert u in turn.due;
    }
  }

  /** A turn finds the marked transfer and breaks, or leaves the mark. */
  lemma MarkedTurn(q: Queues, due: seq<User>, refused: set<Transfer>, aside: set<Transfer>, b: Transfer)
    requires Sound(q, aside) && Spare(q) && Marked(q, due, b) && Project(q.arrived, due[0]) != []
    requires Project(q.arrived, due[0])[0] in q.arrived
    ensures var turn := Ask(q, Project(q.arrived, due[0])[0], due[1..], refused);
            turn == Stop(ProposedTwice) || (turn.Go? ==> Marked(turn.q, turn.due, b))
  {
    if due[0] in b.users {
      EligibleIsFront(q, b, due[0]);
    } else {
      var u :| u in due && u in b.users;
      assert due == [due[0]] + due[1..];
      assert u in due[1..];
      MarkedStays(q, Project(q.arrived, due[0])[0], due[1..], refused, aside, b);
    }
  }

  lemma {:induction false} MarkedBreaks(q: Queues, due: seq<User>, refused: set<Transfer>, aside: set<Transfer>, b: Transfer)
    requires Sound(q, aside) && Apart(due, aside) && Spare(q) && Marked(q, due, b)
    ensures Drain(q, due, refused).Broken?
    decreases |q.arrived|, |due|
  {
    if Project(q.arrived, due[0]) != [] {
      FrontOfDue(q, due, aside);
      var t := Project(q.arrived, due[0])[0];
      MarkedTurn(q, due, refused, aside, b);
      var turn := Ask(q, t, due[1..], refused);
      if turn.Go? {
        AskSound(q, t, due[1..], refused, aside);
        AskSpare(q, t, due[1..], refused, aside);
        MarkedBreaks(turn.q, turn.due, refused, aside, b);
      }
    }
  }

  /** A hasty proposal is repeated, unless the program breaks even before. */
  lemma {:induction false} HastyBreaks(q: Queues, due: seq<User>, refused: set<Transfer>, aside: set<Transfer>)
    requires Sound(q, aside) && Apart(due, aside) && Spare(q) && Hasty(q, due, refused)
    ensures Drain(q, due, refused).Broken?
    decreases |q.arrived|, |due|
  {
    FrontOfDue(q, due, aside);
    var t := Project(q.arrived, due[0])[0];
    var turn := Ask(q, t, due[1..], refused);
    AskSound(q, t, due[1..], refused, aside);
    AskSpare(q, t, due[1..], refused, aside);
    if Hasty(turn.q, turn.due, refused) {
      HastyBreaks(turn.q, turn.due, refused, aside);
    } else {
      assert turn.q.table[q.next] == t;
      MarkedBreaks(turn.q, turn.due, refused, aside, t);
    }
  }

  /** If no user of a transfer in the map is due, and nothing is proposed hastily, nothing is proposed twice. */
  lemma {:induction false} PatientIsOnce(q: Queues, due: seq<User>, refused: set<Transfer>, aside: set<Transfer>)
    requires Sound(q, aside) && Apart(due, aside) && Apart(due, q.table.Values) && !Hasty(q, due, refused)
    ensures var outcome := Drain(q, due, refused); outcome.Broken? ==> outcome.why != ProposedTwice
    decreases |q.arrived|, |due|
  {
    if due != [] && Project(q.arrived, due[0]) != [] {
      FrontOfDue(q, due, aside + q.table.Values);
      var t := Project(q.arrived, due[0])[0];
      var turn := Ask(q, t, due[1..], refused);
      if turn.Go? {
        AskSound(q, t, due[1..], refused, aside);
        AskChanges(q, t, due[1..], refused);
        if turn.q.arrived != q.arrived {
          HeadsAllIff(q.arrived, t);
          EligibleIsApart(q, t, q.table.Values);
        }
        PatientIsOnce(turn.q, turn.due, refused, aside);
      }
    }
  }

  /** The map never contradicts itself about a field, and only transfers enter it for which it had said no. */
  lemma {:induction false} DrainFields(q: Queues, due: seq<User>, refused: set<Transfer>, aside: set<Transfer>)
    requires Sound(q, aside) && Apart(due, aside) && Spare(q)
    ensures var q' := Drain(q, due, refused).q;
            && (forall x | x in q'.arrived :: x in q.arrived && (x.fieldId in q'.table <==> x.fieldId in q.table))
            && (forall x | x in q'.table.Values && x !in q.table.Values :: x.fieldId !in q.table)
    decreases |q.arrived|, |due|
  {
    if due != [] && Project(q.arrived, due[0]) != [] {
      FrontOfDue(q, due, aside);
      var t := Project(q.arrived, due[0])[0];
      var turn := Ask(q, t, due[1..], refused);
      if turn.Go? {
        AskSound(q, t, due[1..], refused, aside);
        AskSpare(q, t, due[1..], refused, aside);
        AskChanges(q, t, due[1..], refused);
        DrainFields(turn.q, turn.due, refused, aside);
        var last := Drain(q, due, refused).q;
        assert last == Drain(turn.q, turn.due, refused).q;
        forall x | x in last.arrived
          ensures x in q.arrived && (x.fieldId in last.table <==> x.fieldId in q.table)
        {
          assert x in turn.q.arrived;
        }
      }
    }
  }

  // ---------- exactly when a release ends well ----------

  /** Every user who is queued or due still has somebody queued after all the doomed have gone. */
  ghost predicate NobodyDeserted(q: Queues, due: seq<User>, refused: set<Transfer>, aside: set<Transfer>) {
    forall u | Wanted(q, due, u) :: Project(Survivors(q.arrived, Doomed(q, refused, aside)), u) != []
  }

  lemma ProjectOfPart(a: seq<Transfer>, b: seq<Transfer>, u: User)
    requires Project(b, u) == [] && forall x | x in a :: x in b
    ensures Project(a, u) == []
  {
    ProjectHas(a, u);
    ProjectHas(b, u);
  }

  /** The wake-ups after a release end well if and only if no user is deserted and nothing is proposed hastily. */
  lemma DoneIff(q: Queues, due: seq<User>, refused: set<Transfer>, aside: set<Transfer>)
    requires Sound(q, aside) && Spare(q) && Apart(due, aside + q.table.Values) && Reached(q, due, aside, null)
    ensures Drain(q, due, refused).Done? <==> NobodyDeserted(q, due, refused, aside) && !Hasty(q, due, refused)
    ensures NobodyDeserted(q, due, refused, aside) ==>
              (Hasty(q, due, refused) <==> Drain(q, due, refused).Broken? && Drain(q, due, refused).why == ProposedTwice)
    ensures !Hasty(q, due, refused) ==>
              (!NobodyDeserted(q, due, refused, aside) <==> Drain(q, due, refused).Broken? && Drain(q, due, refused).why == EmptyFront)
  {
    var doomed := Doomed(q, refused, aside);
    var outcome := Drain(q, due, refused);
    DrainSurvivors(q, due, refused, aside, doomed);
    DrainEmpties(q, due, refused, aside);
    SurvivorsArePart(outcome.q.arrived, doomed);
    if outcome.Broken? && outcome.why == EmptyFront {
      var u :| Wanted(q, due, u) && Project(outcome.q.arrived, u) == [];
      ProjectOfPart(Survivors(q.arrived, doomed), outcome.q.arrived, u);
    }
    if Hasty(q, due, refused) {
      HastyBreaks(q, due, refused, aside);
    } else {
      PatientIsOnce(q, due, refused, aside);
    }
  }

  /** Two of the wake-ups due are for users of `y`; a user that is listed twice counts twice. */
  ghost predicate TwoDue(due: seq<User>, y: Transfer) {
    exists i, j :: 0 <= i < j < |due| && due[i] in y.users && due[j] in y.users
  }

  /** Idle, and the map will not be mistaken about it. */
  ghost predicate Free(q: Queues, aside: set<Transfer>, y: Transfer) {
    Idle(q, aside, y) && y.fieldId !in q.table
  }

  lemma TwoDuePop(due: seq<User>, y: Transfer)
    requires due != []
    ensures TwoDue(due, y) <==> TwoDue(due[1..], y) || (due[0] in y.users && exists u :: u in due[1..] && u in y.users)
  {
    var rest := due[1..];
    if TwoDue(due, y) {
      var i, j :| 0 <= i < j < |due| && due[i] in y.users && due[j] in y.users;
      assert rest[j - 1] in rest;
      if i > 0 {
        assert rest[i - 1] in y.users && rest[j - 1] in y.users;
      }
    }
    if TwoDue(rest, y) {
      var i, j :| 0 <= i < j < |rest| && rest[i] in y.users && rest[j] in y.users;
      assert due[i + 1] in y.users && due[j + 1] in y.users;
    }
    if u :| due[0] in y.users && u in rest && u in y.users {
      var j :| 0 <= j < |rest| && rest[j] == u;
      assert due[j + 1] in y.users;
    }
  }

  /** Only the front can be free among those whose user has just been popped. */
  lemma OthersNotPopped(q: Queues, due: seq<User>, aside: set<Transfer>, y: Transfer)
    requires NoRepeats(q.arrived) && due != [] && Project(q.arrived, due[0]) != []
    requires Free(q, aside, y) && y != Project(q.arrived, due[0])[0]
    ensures TwoDue(due, y) <==> TwoDue(due[1..], y)
  {
    TwoDuePop(due, y);
    if due[0] in y.users {
      EligibleIsFront(q, y, due[0]);
    }
  }

  ghost predicate SomeTwoDue(q: Queues, due: seq<User>, aside: set<Transfer>) {
    exists y :: y in q.arrived && Free(q, aside, y) && TwoDue(due, y)
  }

  /** The front is not free: the turn changes nothing, and the pop costs nobody a wake-up. */
  lemma PopUnfree(q: Queues, due: seq<User>, refused: set<Transfer>, aside: set<Transfer>)
    requires Sound(q, aside) && Apart(due, aside + q.table.Values) && due != [] && Project(q.arrived, due[0]) != []
    requires !Free(q, aside, Project(q.arrived, due[0])[0])
    ensures Hasty(q, due, refused) <==> Hasty(q, due[1..], refused)
    ensures SomeTwoDue(q, due, aside) <==> SomeTwoDue(q, due[1..], aside)
  {
    FrontOfDue(q, due, aside + q.table.Values);
    HeadsAllIff(q.arrived, Project(q.arrived, due[0])[0]);
    forall y | y in q.arrived && Free(q, aside, y)
      ensures TwoDue(due, y) <==> TwoDue(due[1..], y)
    {
      OthersNotPopped(q, due, aside, y);
    }
  }

  /** The front is free and goes into the map. */
  lemma PopFree(q: Queues, due: seq<User>, refused: set<Transfer>, aside: set<Transfer>, q': Queues)
    requires Sound(q, aside) && Spare(q) && due != [] && Project(q.arrived, due[0]) != []
    requires var t := Project(q.arrived, due[0])[0];
             Free(q, aside, t) && !IsDoomed(q, refused, aside, t) && q' == q.(table := q.table[q.next := t], next := Next(q.next))
    ensures var t := Project(q.arrived, due[0])[0];
            && Hasty(q, due, refused) == ((exists u :: u in due[1..] && u in t.users) || Hasty(q', due[1..], refused))
            && SomeTwoDue(q, due, aside) == ((exists u :: u in due[1..] && u in t.users) || SomeTwoDue(q', due[1..], aside))
            && Ask(q, t, due[1..], refused) == Go(q', due[1..])
  {
    var t := Project(q.arrived, due[0])[0];
    var rest := due[1..];
    HeadsAllIff(q.arrived, t);
    AskSpare(q, t, rest, refused, aside);
    assert Ask(q, t, rest, refused) == Go(q', rest);
    AskChanges(q, t, rest, refused);
    assert q'.table[q.next] == t;
    assert q'.table != q.table;
    ProjectHas(q.arrived, due[0]);
    assert t in Project(q.arrived, due[0]);
    TwoDuePop(due, t);
    forall y | y in q.arrived && y != t
      ensures Free(q, aside, y) == Free(q', aside, y)
      ensures Free(q, aside, y) ==> TwoDue(due, y) == TwoDue(rest, y)
    {
      if Free(q, aside, y) {
        OthersNotPopped(q, due, aside, y);
      }
    }
    if exists u :: u in rest && u in t.users {
      assert TwoDue(due, t);
    }
    assert TwoDue(rest, t) ==> exists u :: u in rest && u in t.users;
  }

  /** If no release follows, something is proposed hastily exactly if two of the wake-ups are for one free transfer. */
  lemma {:induction false} HastyIff(q: Queues, due: seq<User>, refused: set<Transfer>, aside: set<Transfer>)
    requires Sound(q, aside) && Spare(q) && Apart(due, aside + q.table.Values)
    requires forall u | u in due :: Project(q.arrived, u) != []
    requires forall x | x in q.arrived :: !IsDoomed(q, refused, aside, x)
    ensures Hasty(q, due, refused) <==> SomeTwoDue(q, due, aside)
    decreases |due|
  {
    if due != [] {
      assert due[0] in due;
      FrontOfDue(q, due, aside + q.table.Values);
      var t, rest := Project(q.arrived, due[0])[0], due[1..];
      if Free(q, aside, t) {
        var q' := q.(table := q.table[q.next := t], next := Next(q.next));
        PopFree(q, due, refused, aside, q');
        AskSound(q, t, rest, refused, aside);
        AskChanges(q, t, rest, refused);
        AskSpare(q, t, rest, refused, aside);
        if !exists u :: u in rest && u in t.users {
          HastyIff(q', rest, refused, aside);
        }
      } else {
        PopUnfree(q, due, refused, aside);
        HastyIff(q, rest, refused, aside);
      }
    }
  }
}
