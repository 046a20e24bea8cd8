/**
 The HLS service's transfer queues. Every user has a queue of transfers; a transfer
 is to be proposed only when it heads the queues of all its users. Behind all the
 queues there is one order, the order of arrival.
 */
module TransferOrder {
  import opened WrappingId

  type User = nat

  type Channel = nat

  class Transfer {
    /** `m_lstUserHashKey`: nothing keeps a user from being listed twice. */
    const users: seq<User>
    /** `m_bMain`: this channel coordinates the transfer. */
    const main: bool
    /** `m_lstChannelID`: one entry for each listed user. */
    const channels: seq<Channel>
    /** `m_nHlsSessionID`: nothing ever writes it, so it holds whatever was in memory. */
    const fieldId: Id
    var retries: nat

    constructor (users: seq<User>, main: bool, channels: seq<Channel>, memory: Id)
      ensures this.users == users && this.main == main && this.channels == channels && fieldId == memory && retries == 0
    {
      this.users, this.main, this.channels, fieldId, retries := users, main, channels, memory, 0;
    }
  }

  const MAX_RETRY_PROPOSE_TIMES: nat := 3

  ghost predicate Share(a: Transfer, b: Transfer) {
    exists u :: u in a.users && u in b.users
  }

  ghost predicate NoRepeats(a: seq<Transfer>) {
    forall i, j | 0 <= i < j < |a| :: a[i] != a[j]
  }

  // ---------- one global order behind all the queues ----------

  /** `t`, once for each time that `users` lists `u`. */
  ghost function Copies(t: Transfer, users: seq<User>, u: User): seq<Transfer> {
    if users == [] then [] else (if users[0] == u then [t] else []) + Copies(t, users[1..], u)
  }

  /** The queue of `u`, if the transfers came in the order `arrived`. */
  ghost function Project(arrived: seq<Transfer>, u: User): seq<Transfer> {
    if arrived == [] then [] else Copies(arrived[0], arrived[0].users, u) + Project(arrived[1..], u)
  }

  lemma {:induction false} CopiesAre(t: Transfer, users: seq<User>, u: User)
    ensures forall x | x in Copies(t, users, u) :: x == t
    ensures Copies(t, users, u) == [] <==> u !in users
  {
    if users != [] {
      CopiesAre(t, users[1..], u);
    }
  }

  lemma {:induction false} CopiesConcat(t: Transfer, a: seq<User>, b: seq<User>, u: User)
    ensures Copies(t, a + b, u) == Copies(t, a, u) + Copies(t, b, u)
  {
    if a == [] {
      assert a + b == b;
    } else {
      CopiesConcat(t, a[1..], b, u);
      assert (a + b)[0] == a[0] && (a + b)[1..] == a[1..] + b;
      Associates(if a[0] == u then [t] else [], Copies(t, a[1..], u), Copies(t, b, u));
    }
  }

  lemma Associates<T>(a: seq<T>, b: seq<T>, c: seq<T>)
    ensures a + (b + c) == (a + b) + c
  {
  }

  lemma {:induction false} ProjectConcat(a: seq<Transfer>, b: seq<Transfer>, u: User)
    ensures Project(a + b, u) == Project(a, u) + Project(b, u)
  {
    if a == [] {
      assert a + b == b;
    } else {
      ProjectConcat(a[1..], b, u);
      assert (a + b)[0] == a[0] && (a + b)[1..] == a[1..] + b;
      Associates(Copies(a[0], a[0].users, u), Project(a[1..], u), Project(b, u));
    }
  }

  lemma {:induction false} ProjectHas(a: seq<Transfer>, u: User)
    ensures forall x | x in Project(a, u) :: x in a && u in x.users
    ensures Project(a, u) == [] <==> forall x | x in a :: u !in x.users
  {
    if a != [] {
      CopiesAre(a[0], a[0].users, u);
      ProjectHas(a[1..], u);
      assert a == [a[0]] + a[1..];
    }
  }

  /** No transfer that came before `t` and is still queued has a user in common with it. */
  ghost predicate Eligible(arrived: seq<Transfer>, t: Transfer) {
    exists i: nat :: ClearAt(arrived, t, i)
  }

  ghost predicate ClearAt(arrived: seq<Transfer>, t: Transfer, i: nat) {
    i < |arrived| && arrived[i] == t && forall j | 0 <= j < i :: !Share(arrived[j], t)
  }

  ghost function Without(arrived: seq<Transfer>, t: Transfer): seq<Transfer> {
    if arrived == [] then [] else if arrived[0] == t then arrived[1..] else [arrived[0]] + Without(arrived[1..], t)
  }

  lemma {:induction false} WithoutAt(arrived: seq<Transfer>, t: Transfer, i: nat)
    requires NoRepeats(arrived) && i < |arrived| && arrived[i] == t
    ensures Without(arrived, t) == arrived[..i] + arrived[i + 1..]
  {
    if i > 0 {
      WithoutAt(arrived[1..], t, i - 1);
    }
  }

  lemma CutKeepsApart(a: seq<Transfer>, i: nat)
    requires NoRepeats(a) && i < |a|
    ensures NoRepeats(a[..i] + a[i + 1..])
  {
    var rest := a[..i] + a[i + 1..];
    forall j, k | 0 <= j < k < |rest|
      ensures rest[j] != rest[k]
    {
      assert rest[j] == a[if j < i then j else j + 1];
      assert rest[k] == a[if k < i then k else k + 1];
    }
  }

  lemma WithoutSplit(arrived: seq<Transfer>, t: Transfer, i: nat)
    requires NoRepeats(arrived) && i < |arrived| && arrived[i] == t
    ensures Without(arrived, t) == arrived[..i] + arrived[i + 1..]
    ensures NoRepeats(Without(arrived, t)) && t !in Without(arrived, t)
  {
    WithoutAt(arrived, t, i);
    CutKeepsApart(arrived, i);
    SplitMembers(arrived, i);
  }

  /** An eligible transfer's copies are what heads each queue, and removing them leaves the queue of the others. */
  lemma EligibleHeads(arrived: seq<Transfer>, t: Transfer, u: User)
    requires NoRepeats(arrived) && Eligible(arrived, t)
    ensures Project(arrived, u) == Copies(t, t.users, u) + Project(Without(arrived, t), u)
  {
    var i: nat :| ClearAt(arrived, t, i);
    var a, b := arrived[..i], arrived[i + 1..];
    WithoutAt(arrived, t, i);
    ProjectAround(a, t, b, u);
    assert arrived == a + [t] + b;
    NothingBefore(a, t, u);
    EmptyCommutes(Project(a, u), Copies(t, t.users, u), Project(b, u));
  }

  lemma EmptyCommutes<T>(a: seq<T>, b: seq<T>, c: seq<T>)
    requires a == [] || b == []
    ensures a + b + c == b + (a + c)
  {
  }

  lemma NothingBefore(a: seq<Transfer>, t: Transfer, u: User)
    requires forall j | 0 <= j < |a| :: !Share(a[j], t)
    ensures Project(a, u) == [] || Copies(t, t.users, u) == []
  {
    CopiesAre(t, t.users, u);
    if u in t.users {
      assert forall x | x in a :: u !in x.users by {
        forall j | 0 <= j < |a|
          ensures u !in a[j].users
        {
          assert !Share(a[j], t);
        }
      }
      ProjectHas(a, u);
    }
  }

  lemma ProjectAround(a: seq<Transfer>, t: Transfer, b: seq<Transfer>, u: User)
    ensures Project(a + [t] + b, u) == Project(a, u) + Copies(t, t.users, u) + Project(b, u)
    ensures Project(a + b, u) == Project(a, u) + Project(b, u)
  {
    ProjectConcat(a + [t], b, u);
    ProjectConcat(a, [t], u);
    ProjectConcat(a, b, u);
    ProjectOne(t, u);
  }

  lemma ProjectOne(t: Transfer, u: User)
    ensures Project([t], u) == Copies(t, t.users, u)
  {
    assert Project([t], u) == Copies(t, t.users, u) + [];
  }

  /** `t` is at the front of the queue of `u`. */
  ghost predicate Heads(arrived: seq<Transfer>, t: Transfer, u: User) {
    Project(arrived, u) != [] && Project(arrived, u)[0] == t
  }

  /** What the code checks, heading the queues of all its users, is eligibility. */
  lemma HeadsAllIff(arrived: seq<Transfer>, t: Transfer)
    requires NoRepeats(arrived) && t in arrived
    ensures (forall u | u in t.users :: Heads(arrived, t, u)) <==> Eligible(arrived, t)
  {
    if Eligible(arrived, t) {
      forall u | u in t.users
        ensures Heads(arrived, t, u)
      {
        EligibleHeads(arrived, t, u);
        CopiesAre(t, t.users, u);
        assert Copies(t, t.users, u)[0] in Copies(t, t.users, u);
      }
    } else {
      var i: nat :| i < |arrived| && arrived[i] == t;
      assert !ClearAt(arrived, t, i);
      var j :| 0 <= j < i && Share(arrived[j], t);
      var u :| u in arrived[j].users && u in t.users;
      var a, b := arrived[..i], arrived[i..];
      assert arrived == a + b;
      ProjectConcat(a, b, u);
      ProjectHas(a, u);
      assert arrived[j] in a;
      assert Project(arrived, u)[0] == Project(a, u)[0];
      assert Project(a, u)[0] in Project(a, u);
      assert !Heads(arrived, t, u);
    }
  }

  lemma WithoutPositions(arrived: seq<Transfer>, t: Transfer) returns (i: nat)
    requires NoRepeats(arrived) && t in arrived
    ensures i < |arrived| && arrived[i] == t && |Without(arrived, t)| == |arrived| - 1
    ensures forall j | 0 <= j < i :: Without(arrived, t)[j] == arrived[j]
    ensures forall j | i < j < |arrived| :: Without(arrived, t)[j - 1] == arrived[j]
    ensures forall x :: x in Without(arrived, t) <==> x in arrived && x != t
  {
    i :| 0 <= i < |arrived| && arrived[i] == t;
    WithoutAt(arrived, t, i);
    SplitMembers(arrived, i);
  }

  lemma SplitMembers(a: seq<Transfer>, i: nat)
    requires NoRepeats(a) && i < |a|
    ensures forall x :: x in a[..i] + a[i + 1..] <==> x in a && x != a[i]
  {
    var rest := a[..i] + a[i + 1..];
    forall x
      ensures x in rest <==> x in a && x != a[i]
    {
      if x in a && x != a[i] {
        var j :| 0 <= j < |a| && a[j] == x;
        assert rest[if j < i then j else j - 1] == x;
      }
    }
  }

  /** Removing a transfer makes only transfers eligible that have a user in common with it. */
  lemma NewlyEligible(arrived: seq<Transfer>, t: Transfer, x: Transfer)
    requires NoRepeats(arrived) && t in arrived && Eligible(Without(arrived, t), x)
    ensures x in arrived && x != t && (Eligible(arrived, x) || Share(t, x))
  {
    var i := WithoutPositions(arrived, t);
    var rest := Without(arrived, t);
    var k: nat :| ClearAt(rest, x, k);
    assert x in rest;
    if !Share(t, x) {
      if k < i {
        assert ClearAt(arrived, x, k);
      } else {
        assert arrived[k + 1] == x;
        forall j | 0 <= j < k + 1
          ensures !Share(arrived[j], x)
        {
          assert j < i ==> arrived[j] == rest[j];
          assert j > i ==> arrived[j] == rest[j - 1];
        }
        assert ClearAt(arrived, x, k + 1);
      }
    }
  }

  /** Removing a transfer takes eligibility from no other. */
  lemma StaysEligible(arrived: seq<Transfer>, t: Transfer, x: Transfer)
    requires NoRepeats(arrived) && t in arrived && x != t && Eligible(arrived, x)
    ensures Eligible(Without(arrived, t), x)
  {
    var i := WithoutPositions(arrived, t);
    var rest := Without(arrived, t);
    var k: nat :| ClearAt(arrived, x, k);
    if k < i {
      assert ClearAt(rest, x, k);
    } else {
      forall j | 0 <= j < k - 1
        ensures !Share(rest[j], x)
      {
        assert j < i ==> rest[j] == arrived[j];
        assert j >= i ==> rest[j] == arrived[j + 1];
      }
      assert ClearAt(rest, x, k - 1);
    }
  }

  /** A new arrival goes to the end and disturbs nobody. */
  lemma ArrivalKeepsEligible(arrived: seq<Transfer>, t: Transfer, x: Transfer)
    requires t !in arrived && x != t
    ensures Eligible(arrived + [t], x) <==> Eligible(arrived, x)
  {
    if Eligible(arrived, x) {
      var k: nat :| ClearAt(arrived, x, k);
      assert ClearAt(arrived + [t], x, k);
    }
    if Eligible(arrived + [t], x) {
      var k: nat :| ClearAt(arrived + [t], x, k);
      assert forall j | 0 <= j <= k :: (arrived + [t])[j] == arrived[j];
      assert ClearAt(arrived, x, k);
    }
  }

  /** Two eligible transfers have no user in common. */
  lemma EligibleApart(arrived: seq<Transfer>, x: Transfer, y: Transfer)
    requires Eligible(arrived, x) && Eligible(arrived, y) && x != y
    ensures !Share(x, y)
  {
    var i: nat :| ClearAt(arrived, x, i);
    var k: nat :| ClearAt(arrived, y, k);
    assert i < k ==> !Share(arrived[i], y);
    assert k < i ==> !Share(arrived[k], x);
    assert Share(x, y) ==> Share(y, x);
  }

  lemma EligibleIsQueued(arrived: seq<Transfer>, t: Transfer)
    requires Eligible(arrived, t)
    ensures t in arrived
  {
    var i: nat :| ClearAt(arrived, t, i);
  }

  /** The oldest queued transfer is always eligible. */
  lemma OldestEligible(arrived: seq<Transfer>)
    requires arrived != []
    ensures Eligible(arrived, arrived[0])
  {
    assert ClearAt(arrived, arrived[0], 0);
  }

  // ---------- small functions of the service ----------

  function RemoveFirst(q: seq<Transfer>, t: Transfer): seq<Transfer> {
    if q == [] then [] else if q[0] == t then q[1..] else [q[0]] + RemoveFirst(q[1..], t)
  }

  function CountRemote(channels: seq<Channel>, own: Channel): nat {
    if channels == [] then 0 else (if channels[0] == own then 0 else 1) + CountRemote(channels[1..], own)
  }

  /** No other channel takes part exactly if every listed channel is the service's own. */
  lemma {:induction false} NoRemoteIff(channels: seq<Channel>, own: Channel)
    ensures CountRemote(channels, own) == 0 <==> forall i | 0 <= i < |channels| :: channels[i] == own
  {
    if channels != [] {
      var rest := channels[1..];
      NoRemoteIff(rest, own);
      assert forall i | 0 < i < |channels| :: channels[i] == rest[i - 1];
      if forall i | 0 <= i < |rest| :: rest[i] == own {
        assert channels[0] == own ==> forall i | 0 <= i < |channels| :: channels[i] == own;
      } else {
        var i :| 0 <= i < |rest| && rest[i] != own;
        assert channels[i + 1] != own;
      }
    }
  }
}
