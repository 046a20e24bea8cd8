/**
 The transfer handling of `CVbeIdcHlsService` with its own nested calls. A method that
 comes to a step with no defined result reports the fault and stops there.
 */
module TransferService {
  import opened Options
  import opened WrappingId
  import opened TransferOrder
  import opened TransferRelease
  import opened TransferSpec

  /** How often `t` has just been retried: once if its proposal was refused and it went into the map all the same. */
  ghost function Bump(q: Queues, q': Queues, refused: set<Transfer>, t: Transfer): nat {
    if t in q'.table.Values && t !in q.table.Values && t in refused then 1 else 0
  }

  /** What remains is part of what was there, and nothing has left the map. */
  ghost predicate Later(q: Queues, q': Queues) {
    && |q'.arrived| <= |q.arrived|
    && (forall x | x in q'.arrived :: x in q.arrived)
    && (forall x | x in q.table.Values :: x in q'.table.Values)
  }

  /** Only what is queued goes into the map, so the retries of two stretches add up. */
  lemma BumpsAdd(q: Queues, q': Queues, q'': Queues, refused: set<Transfer>, aside: set<Transfer>, t: Transfer)
    requires Later(q, q') && Later(q', q'') && Sound(q'', aside)
    ensures Bump(q, q', refused, t) + Bump(q', q'', refused, t) == Bump(q, q'', refused, t)
    ensures t !in q'.arrived ==> Bump(q', q'', refused, t) == 0
  {
    if t in q''.table.Values {
      EligibleIsQueued(q''.arrived, t);
    }
  }

  class Service {
    const channelId: Channel
    /** `m_mapUserTransferQueue`. */
    var queues: map<User, seq<Transfer>>
    var mapTransfer: map<Id, Transfer>
    /** `m_nHlsSessionID`; the other maps of the service use it, too, so nothing is known of it between events. */
    var hlsSessionId: Id
    /** The length of `m_lstChannelID` of a main transfer whose proposal succeeded. */
    var waiting: map<Transfer, nat>

    ghost var st: State

    ghost function Queue(u: User): seq<Transfer>
      reads this
    {
      if u in queues then queues[u] else []
    }

    ghost predicate QueuesAre(arrived: seq<Transfer>)
      reads this
    {
      forall u :: Queue(u) == Project(arrived, u)
    }

    ghost predicate Holds(q: Queues)
      reads this
    {
      QueuesAre(q.arrived) && mapTransfer == q.table && hlsSessionId == q.next
    }

    static ghost predicate Untried(q: Queues, aside: set<Transfer>)
      reads (set t | t in q.arrived)`retries
    {
      forall t | t in q.arrived && t !in q.table.Values && t !in aside :: t.retries == 0
    }

    /** The fields hold the abstract state `st`. */
    ghost predicate Matches()
      reads this, (set t | t in st.arrived)`retries
    {
      && QueuesAre(st.arrived) && mapTransfer == st.table && waiting == st.waiting
      && (forall t | t in st.arrived :: t.retries == Tries(st, t))
    }

    ghost predicate Valid()
      reads this, (set t | t in st.arrived)`retries
    {
      Matches() && Inv(st)
    }

    constructor (channelId: Channel)
      ensures Valid() && st == Empty && this.channelId == channelId
      ensures queues == map[] && mapTransfer == map[] && waiting == map[] && hlsSessionId == 1
    {
      this.channelId := channelId;
      queues, mapTransfer, hlsSessionId, waiting := map[], map[], 1, map[];
      st := Empty;
    }

    // ---------- proposing ----------

    lemma HeadOfQueue(t: Transfer, user: User, arrived: seq<Transfer>)
      requires QueuesAre(arrived) && t in arrived && user in t.users
      ensures user in queues && queues[user] != [] && (queues[user][0] == t <==> Heads(arrived, t, user))
    {
      ProjectHas(arrived, user);
      assert Queue(user) == Project(arrived, user);
    }

    /** The check in `MaybePropose`: `t` heads the queue of each of its users. */
    method HeadsAllQueues(t: Transfer, ghost arrived: seq<Transfer>) returns (first: bool)
      requires QueuesAre(arrived) && t in arrived
      ensures first <==> First(arrived, t)
    {
      forall user | user in t.users
        ensures user in queues && queues[user] != [] && (queues[user][0] == t <==> Heads(arrived, t, user))
      {
        HeadOfQueue(t, user, arrived);
      }
      for i := 0 to |t.users|
        invariant forall j | 0 <= j < i :: Heads(arrived, t, t.users[j])
      {
        var user := t.users[i];
        if user in queues {
          if queues[user][0] != t {
            return false;
          }
        }
      }
      return true;
    }

    method InsertTransfer(t: Transfer) returns (fault: Option<Fault>)
      modifies this`mapTransfer, this`hlsSessionId
      ensures fault == if old(hlsSessionId) in old(mapTransfer) then Some(KeyTaken) else None
      ensures fault.None? ==> mapTransfer == old(mapTransfer)[old(hlsSessionId) := t] && hlsSessionId == Next(old(hlsSessionId))
      ensures fault.Some? ==> mapTransfer == old(mapTransfer) && hlsSessionId == old(hlsSessionId)
    {
      if hlsSessionId in mapTransfer {
        return Some(KeyTaken);
      }
      mapTransfer := mapTransfer[hlsSessionId := t];
      hlsSessionId := Next(hlsSessionId);
      return None;
    }

    method MaybePropose(t: Transfer, refused: set<Transfer>, ghost q: Queues, ghost due: seq<User>, ghost aside: set<Transfer>)
      returns (fault: Option<Fault>, ghost q': Queues)
      requires Holds(q) && Sound(q, aside) && Untried(q, aside) && t in q.arrived && t !in aside
      modifies this`queues, this`mapTransfer, this`hlsSessionId, (set x | x in q.arrived)`retries
      ensures fault.None? ==> Holds(q') && Sound(q', aside) && Untried(q', aside) && Resume(q, t, due, refused) == Drain(q', due, refused)
      ensures fault.None? ==> Later(q, q')
      ensures fault.None? ==> forall x | x in q.arrived :: x.retries == old(x.retries) + Bump(q, q', refused, x)
      ensures fault.Some? ==> Resume(q, t, due, refused).Broken? && Resume(q, t, due, refused).why == fault.value
      decreases |q.arrived|, 2
    {
      fault, q' := None, q;
      if t.fieldId in mapTransfer {
        return;
      }
      var first := HeadsAllQueues(t, q.arrived);
      if !first {
        return;
      }
      if t in mapTransfer.Values {
        return Some(ProposedTwice), q;
      }
      HeadsAllIff(q.arrived, t);
      if t in refused && t.main {
        fault, q' := ReleaseTransferSession(t, refused, q, due, aside);
      } else {
        InsertKeeps(q, t, aside);
        q' := Queues(q.arrived, q.table[q.next := t], Next(q.next));
        if t in refused {
          fault := RetryLater(t);
        } else {
          fault := InsertTransfer(t);
        }
      }
    }

    lemma InsertKeeps(q: Queues, t: Transfer, aside: set<Transfer>)
      requires Sound(q, aside) && t in q.arrived && t !in aside && t !in q.table.Values && Eligible(q.arrived, t)
      ensures q.next !in q.table ==>
                var table := q.table[q.next := t];
                Sound(Queues(q.arrived, table, Next(q.next)), aside) && table.Values == q.table.Values + {t}
    {
      if q.next !in q.table {
        ValuesAfterInsert(q.table, q.next, t);
      }
    }

    /** The part of `OnProposeFailed` for a channel that cannot give the transfer up; after too many retries it is only logged. */
    method RetryLater(t: Transfer) returns (fault: Option<Fault>)
      modifies this`mapTransfer, this`hlsSessionId, t`retries
      ensures old(t.retries) > MAX_RETRY_PROPOSE_TIMES ==>
                fault.None? && mapTransfer == old(mapTransfer) && hlsSessionId == old(hlsSessionId) && t.retries == old(t.retries)
      ensures old(t.retries) <= MAX_RETRY_PROPOSE_TIMES ==>
                t.retries == old(t.retries) + 1 && fault == if old(hlsSessionId) in old(mapTransfer) then Some(KeyTaken) else None
      ensures old(t.retries) <= MAX_RETRY_PROPOSE_TIMES && fault.None? ==>
                mapTransfer == old(mapTransfer)[old(hlsSessionId) := t] && hlsSessionId == Next(old(hlsSessionId))
    {
      fault := None;
      if t.retries <= MAX_RETRY_PROPOSE_TIMES {
        t.retries := t.retries + 1;
        fault := InsertTransfer(t);
      }
    }

    // ---------- releasing ----------

    /** Out of each of its users' queues, one copy a time. */
    method TakeOut(t: Transfer, ghost arrived: seq<Transfer>)
      requires NoRepeats(arrived) && Eligible(arrived, t) && QueuesAre(arrived)
      modifies this`queues
      ensures QueuesAre(Without(arrived, t))
    {
      ghost var rest := Without(arrived, t);
      assert t.users[0..] == t.users;
      forall u
        ensures Queue(u) == Copies(t, t.users[0..], u) + Project(rest, u)
      {
        EligibleHeads(arrived, t, u);
      }
      for i := 0 to |t.users|
        invariant forall u :: Queue(u) == Copies(t, t.users[i..], u) + Project(rest, u)
      {
        var user := t.users[i];
        assert t.users[i..][0] == user && t.users[i..][1..] == t.users[i + 1..];
        assert Queue(user) == [t] + (Copies(t, t.users[i + 1..], user) + Project(rest, user));
        if user in queues {
          queues := queues[user := RemoveFirst(queues[user], t)];
        }
        forall u
          ensures Queue(u) == Copies(t, t.users[i + 1..], u) + Project(rest, u)
        {
          assert u != user ==> Copies(t, t.users[i..], u) == Copies(t, t.users[i + 1..], u);
        }
      }
    }

    /** The front of one queue gets its chance; of an empty queue there is no front. */
    method WakeUp(user: User, refused: set<Transfer>, ghost q: Queues, ghost due: seq<User>, ghost aside: set<Transfer>)
      returns (fault: Option<Fault>, ghost q': Queues)
      requires Holds(q) && Sound(q, aside) && Untried(q, aside) && Apart([user], aside)
      modifies this`queues, this`mapTransfer, this`hlsSessionId, (set x | x in q.arrived)`retries
      ensures fault.None? ==> Holds(q') && Sound(q', aside) && Untried(q', aside) && Drain(q, [user] + due, refused) == Drain(q', due, refused)
      ensures fault.None? ==> Later(q, q')
      ensures fault.None? ==> forall x | x in q.arrived :: x.retries == old(x.retries) + Bump(q, q', refused, x)
      ensures fault.Some? ==> var outcome := Drain(q, [user] + due, refused); outcome.Broken? && outcome.why == fault.value
      decreases |q.arrived|, 3
    {
      q' := q;
      assert Queue(user) == Project(q.arrived, user);
      assert ([user] + due)[0] == user && ([user] + due)[1..] == due;
      if user !in queues || queues[user] == [] {
        return Some(EmptyFront), q;
      }
      FrontOfDue(q, [user], aside);
      fault, q' := MaybePropose(queues[user][0], refused, q, due, aside);
    }

    method ReleaseTransferSession(t: Transfer, refused: set<Transfer>, ghost q: Queues, ghost due: seq<User>, ghost aside: set<Transfer>)
      returns (fault: Option<Fault>, ghost q': Queues)
      requires Holds(q) && Sound(q, aside) && t in q.arrived && t !in aside && t !in q.table.Values && Eligible(q.arrived, t)
      requires Untried(q, aside + {t})
      modifies this`queues, this`mapTransfer, this`hlsSessionId, (set x | x in q.arrived)`retries
      ensures fault.None? ==> Holds(q') && Sound(q', aside) && Untried(q', aside)
      ensures var outcome := Drain(q.(arrived := Without(q.arrived, t)), t.users + due, refused);
              if fault.None? then outcome == Drain(q', due, refused) else outcome.Broken? && outcome.why == fault.value
      ensures fault.None? ==> Later(q, q') && t !in q'.arrived
      ensures fault.None? ==> forall x | x in q.arrived && x != t :: x.retries == old(x.retries) + Bump(q, q', refused, x)
      ensures fault.None? ==> t !in q'.table.Values && t.retries == old(t.retries)
      decreases |q.arrived|, 1
    {
      ghost var left := q.(arrived := Without(q.arrived, t));
      LeftKeeps(q, t, aside);
      TakeOut(t, q.arrived);
      fault, q' := WakeAll(t.users, refused, left, due, aside);
      if fault.None? {
        NotBack(left, q', t, aside);
      }
    }

    static lemma SplitDue(users: seq<User>, due: seq<User>)
      ensures users[0..] + due == users + due && users[|users|..] + due == due
      ensures forall i | 0 <= i < |users| :: users[i] in users && users[i..] + due == [users[i]] + (users[i + 1..] + due)
    {
      forall i | 0 <= i < |users|
        ensures users[i..] + due == [users[i]] + (users[i + 1..] + due)
      {
        assert users[i..] == [users[i]] + users[i + 1..];
      }
    }

    method WakeAll(users: seq<User>, refused: set<Transfer>, ghost left: Queues, ghost due: seq<User>, ghost aside: set<Transfer>)
      returns (fault: Option<Fault>, ghost q': Queues)
      requires Holds(left) && Sound(left, aside) && Untried(left, aside) && Apart(users, aside)
      modifies this`queues, this`mapTransfer, this`hlsSessionId, (set x | x in left.arrived)`retries
      ensures fault.None? ==> Holds(q') && Sound(q', aside) && Untried(q', aside) && Drain(left, users + due, refused) == Drain(q', due, refused)
      ensures fault.None? ==> Later(left, q')
      ensures fault.None? ==> forall x | x in left.arrived :: x.retries == old(x.retries) + Bump(left, q', refused, x)
      ensures fault.Some? ==> var outcome := Drain(left, users + due, refused); outcome.Broken? && outcome.why == fault.value
      decreases |left.arrived|, 5
    {
      q', fault := left, None;
      ghost var tries := map x | x in left.arrived :: x.retries;
      ghost var goal := Drain(left, users + due, refused);
      SplitDue(users, due);
      for i := 0 to |users|
        invariant fault.None?
        invariant Holds(q') && Sound(q', aside) && Untried(q', aside) && Later(left, q') && TriesAre(left, q', refused, tries)
        invariant Drain(q', users[i..] + due, refused) == goal
      {
        fault, q' := WakeNext(users[i], refused, q', users[i + 1..] + due, aside, left, tries, goal);
        if fault.Some? {
          return;
        }
      }
    }

    lemma NotBack(q: Queues, q': Queues, t: Transfer, aside: set<Transfer>)
      requires Sound(q', aside) && t !in q'.arrived
      ensures t !in q'.table.Values
    {
      if t in q'.table.Values {
        EligibleIsQueued(q'.arrived, t);
      }
    }

    static ghost predicate TriesAre(q: Queues, q': Queues, refused: set<Transfer>, tries: map<Transfer, nat>)
      reads (set t | t in q.arrived)`retries
    {
      forall t | t in q.arrived :: t in tries && t.retries == tries[t] + Bump(q, q', refused, t)
    }

    /** One of several wake-ups; `left` is how the queues were at the first, `tries` the retries then. */
    method WakeNext(user: User, refused: set<Transfer>, ghost q: Queues, ghost due: seq<User>, ghost aside: set<Transfer>,
                    ghost left: Queues, ghost tries: map<Transfer, nat>, ghost goal: Outcome)
      returns (fault: Option<Fault>, ghost q': Queues)
      requires Holds(q) && Sound(q, aside) && Untried(q, aside) && Apart([user], aside)
      requires Later(left, q) && TriesAre(left, q, refused, tries) && Drain(q, [user] + due, refused) == goal
      modifies this`queues, this`mapTransfer, this`hlsSessionId, (set x | x in left.arrived)`retries
      ensures fault.None? ==> Holds(q') && Sound(q', aside) && Untried(q', aside) && Drain(q', due, refused) == goal
      ensures fault.None? ==> Later(left, q') && TriesAre(left, q', refused, tries)
      ensures fault.Some? ==> goal.Broken? && goal.why == fault.value
      decreases |q.arrived|, 4
    {
      fault, q' := WakeUp(user, refused, q, due, aside);
      if fault.None? {
        forall x | x in left.arrived
          ensures x.retries == tries[x] + Bump(left, q', refused, x)
        {
          BumpsAdd(left, q, q', refused, aside, x);
          assert old(x.retries) == tries[x] + Bump(left, q, refused, x);
        }
      }
    }

    lemma LeftKeeps(q: Queues, t: Transfer, aside: set<Transfer>)
      requires Sound(q, aside) && t in q.arrived && t !in aside && t !in q.table.Values && Eligible(q.arrived, t)
      ensures var left := q.(arrived := Without(q.arrived, t));
              && Sound(left, aside) && |left.arrived| < |q.arrived|
              && (forall x | x in left.arrived :: x in q.arrived && x != t)
              && (forall x | x in q.arrived && x != t :: x in left.arrived)
      ensures Apart(t.users, aside)
    {
      var i := WithoutPositions(q.arrived, t);
      WithoutSplit(q.arrived, t, i);
      forall b | b in q.table.Values + aside
        ensures Eligible(Without(q.arrived, t), b)
      {
        StaysEligible(q.arrived, t, b);
      }
      EligibleIsApart(q, t, aside);
    }

    // ---------- the events ----------

    /** Settling after the wake-ups makes the recorded retries those in the objects. */
    lemma TriesSettle(before: State, q: Queues, q': Queues, refused: set<Transfer>, t: Transfer, retries: nat)
      requires t in q.arrived && q.table == before.table && Settle(before, Done(q'), refused).Fine?
      requires retries == Tries(before, t) && (t in q'.table.Values && t !in q.table.Values ==> retries == 0)
      ensures Tries(Settle(before, Done(q'), refused).st, t) == retries + Bump(q, q', refused, t)
    {
    }

    /** The wake-ups after a release, and the new state. */
    method ReleaseNow(t: Transfer, refused: set<Transfer>) returns (fault: Option<Fault>)
      requires Matches() && Leaving(st, t)
      modifies this, (set x | x in st.arrived)`retries
      ensures fault.None? ==> Valid() && Release(old(st), t, old(hlsSessionId), refused) == Fine(st)
      ensures fault.Some? ==> Release(old(st), t, old(hlsSessionId), refused) == Faulty(fault.value)
    {
      ghost var q, aside := Queues(st.arrived, st.table, hlsSessionId), Aside(st);
      LeftIsSound(st, t, hlsSessionId);
      ghost var q';
      fault, q' := ReleaseTransferSession(t, refused, q, [], aside);
      assert t.users + [] == t.users;
      if fault.None? {
        InvRelease(st, t, q.next, refused);
        forall x | x in q'.arrived
          ensures x.retries == Tries(Settle(st, Done(q'), refused).st, x)
        {
          TriesSettle(st, q, q', refused, x, old(x.retries));
        }
        st := Settle(st, Done(q'), refused).st;
      }
    }

    method Push(user: User, t: Transfer)
      modifies this`queues
      ensures forall u :: Queue(u) == old(Queue(u)) + if u == user then [t] else []
    {
      queues := queues[user := (if user in queues then queues[user] else []) + [t]];
    }

    /** `m_mapUserTransferQueue[nHashKey].push_back(pTransferSession)` for each listed user. */
    method Enqueue(t: Transfer, ghost arrived: seq<Transfer>)
      requires QueuesAre(arrived)
      modifies this`queues
      ensures QueuesAre(arrived + [t])
    {
      for i := 0 to |t.users|
        invariant forall u :: Queue(u) == Project(arrived, u) + Copies(t, t.users[..i], u)
      {
        var user := t.users[i];
        Push(user, t);
        forall u
          ensures Queue(u) == Project(arrived, u) + Copies(t, t.users[..i + 1], u)
        {
          OneMoreCopy(t, i, u);
          Associates(Project(arrived, u), Copies(t, t.users[..i], u), if u == user then [t] else []);
        }
      }
      assert t.users[..|t.users|] == t.users;
      forall u
        ensures Queue(u) == Project(arrived + [t], u)
      {
        ProjectConcat(arrived, [t], u);
        ProjectOne(t, u);
      }
    }

    lemma OneMoreCopy(t: Transfer, i: nat, u: User)
      requires i < |t.users|
      ensures Copies(t, t.users[..i + 1], u) == Copies(t, t.users[..i], u) + if u == t.users[i] then [t] else []
    {
      assert t.users[..i + 1] == t.users[..i] + [t.users[i]];
      CopiesConcat(t, t.users[..i], [t.users[i]], u);
    }

    /** A decoded request, from a client's service or from another channel, becomes a queued transfer. */
    method OnTransferRequest(t: Transfer, refused: set<Transfer>) returns (fault: Option<Fault>)
      requires Valid() && Enabled(st, Request(t, hlsSessionId, refused)) && t.retries == 0
      modifies this, t`retries, (set x | x in st.arrived)`retries
      ensures fault.None? ==> Valid() && Step(channelId, old(st), Request(t, old(hlsSessionId), refused)) == Fine(st)
      ensures fault.Some? ==> Step(channelId, old(st), Request(t, old(hlsSessionId), refused)) == Faulty(fault.value)
    {
      QueuedIsSound(st, t);
      InvRequest(channelId, st, t, hlsSessionId, refused);
      Enqueue(t, st.arrived);
      st := Queued(st, t);
      fault := ProposeQueued(t, refused);
    }

    /** The request's own chance, and the new state. */
    method ProposeQueued(t: Transfer, refused: set<Transfer>) returns (fault: Option<Fault>)
      requires Matches() && Sound(Queues(st.arrived, st.table, 0), Aside(st)) && t in st.arrived && t !in Busy(st)
      requires forall x | x in st.arrived && x !in Busy(st) :: Tries(st, x) == 0
      modifies this, (set x | x in st.arrived)`retries
      ensures var after := Settle(old(st), Resume(Queues(old(st.arrived), old(st.table), old(hlsSessionId)), t, [], refused), refused);
              if fault.None? then Matches() && after == Fine(st) else after == Faulty(fault.value)
    {
      ghost var q := Queues(st.arrived, st.table, hlsSessionId);
      ghost var q';
      fault, q' := MaybePropose(t, refused, q, [], Aside(st));
      if fault.None? {
        forall x | x in q'.arrived
          ensures x.retries == Tries(Settle(st, Done(q'), refused).st, x)
        {
          TriesSettle(st, q, q', refused, x, old(x.retries));
        }
        st := Settle(st, Done(q'), refused).st;
      }
    }

    /** `OnProposeResultNotify`, and `OnProposeResponse` when it reports an error. */
    method OnProposeResult(nRequestID: Id, ok: bool, refused: set<Transfer>) returns (fault: Option<Fault>)
      requires Valid()
      modifies this, (set x | x in st.arrived)`retries
      ensures fault.None? ==> Valid() && Step(channelId, old(st), Result(nRequestID, ok, old(hlsSessionId), refused)) == Fine(st)
      ensures fault.Some? ==> Step(channelId, old(st), Result(nRequestID, ok, old(hlsSessionId), refused)) == Faulty(fault.value)
    {
      if nRequestID !in mapTransfer {
        return None;
      }
      var t := mapTransfer[nRequestID];
      LeavesMap(st, nRequestID);
      mapTransfer := mapTransfer - {nRequestID};
      st := st.(table := st.table - {nRequestID});
      if ok {
        fault := OnProposeSuccess(t, refused);
      } else {
        fault := OnProposeFailed(t, refused);
      }
    }

    method OnProposeFailed(t: Transfer, refused: set<Transfer>) returns (fault: Option<Fault>)
      requires Matches() && Leaving(st, t)
      modifies this, (set x | x in st.arrived)`retries
      ensures fault.None? ==> Valid() && Fail(old(st), t, old(hlsSessionId), refused) == Fine(st)
      ensures fault.Some? ==> Fail(old(st), t, old(hlsSessionId), refused) == Faulty(fault.value)
    {
      InvFail(st, t, hlsSessionId, refused);
      if t.main {
        fault := ReleaseNow(t, refused);
      } else {
        ghost var next := Fail(st, t, hlsSessionId, refused);
        fault := RetryLater(t);
        if fault.None? {
          st := next.st;
        }
      }
    }

    method OnProposeSuccess(t: Transfer, refused: set<Transfer>) returns (fault: Option<Fault>)
      requires Matches() && Leaving(st, t)
      modifies this, (set x | x in st.arrived)`retries
      ensures fault.None? ==> Valid() && Succeed(channelId, old(st), t, old(hlsSessionId), refused) == Fine(st)
      ensures fault.Some? ==> Succeed(channelId, old(st), t, old(hlsSessionId), refused) == Faulty(fault.value)
    {
      InvSucceed(channelId, st, t, hlsSessionId, refused);
      if t.main && |t.channels| != 1 {
        waiting := waiting[t := CountRemote(t.channels, channelId)];
        st := st.(waiting := waiting);
        fault := None;
      } else {
        fault := ReleaseNow(t, refused);
      }
    }

    /** Another channel has taken its part of the transfer over. */
    method OnTransferHlsHlsRsp(t: Transfer, refused: set<Transfer>) returns (fault: Option<Fault>)
      requires Valid() && Enabled(st, Answer(t, hlsSessionId, refused))
      modifies this, (set x | x in st.arrived)`retries
      ensures fault.None? ==> Valid() && Step(channelId, old(st), Answer(t, old(hlsSessionId), refused)) == Fine(st)
      ensures fault.Some? ==> Step(channelId, old(st), Answer(t, old(hlsSessionId), refused)) == Faulty(fault.value)
    {
      InvStep(channelId, st, Answer(t, hlsSessionId, refused));
      if waiting[t] > 1 {
        waiting := waiting[t := waiting[t] - 1];
        st := st.(waiting := waiting);
        fault := None;
      } else {
        fault := Complete(t, refused);
      }
    }

    /** All the answers are there. */
    method Complete(t: Transfer, refused: set<Transfer>) returns (fault: Option<Fault>)
      requires Valid() && t in st.waiting
      modifies this, (set x | x in st.arrived)`retries
      ensures var after := Release(old(st).(waiting := old(st.waiting) - {t}), t, old(hlsSessionId), refused);
              if fault.None? then Valid() && after == Fine(st) else after == Faulty(fault.value)
    {
      LeavesWaiting(st, t);
      waiting := waiting - {t};
      st := st.(waiting := waiting);
      fault := ReleaseNow(t, refused);
    }

    /** A proposal has timed out. */
    method OnTimeOut(t: Transfer, refused: set<Transfer>) returns (fault: Option<Fault>)
      requires Valid() && Enabled(st, TimeOut(t, hlsSessionId, refused))
      modifies this, (set x | x in st.arrived)`retries
      ensures fault.None? ==> Valid() && Step(channelId, old(st), TimeOut(t, old(hlsSessionId), refused)) == Fine(st)
      ensures fault.Some? ==> Step(channelId, old(st), TimeOut(t, old(hlsSessionId), refused)) == Faulty(fault.value)
    {
      InvStep(channelId, st, TimeOut(t, hlsSessionId, refused));
      EligibleIsQueued(st.arrived, t);
      if t.main {
        fault := GiveUp(t, refused);
      } else {
        fault := ProposeAgain(t, refused);
      }
    }

    /** A main transfer is given up; the map is told to forget the id in its field. */
    method GiveUp(t: Transfer, refused: set<Transfer>) returns (fault: Option<Fault>)
      requires Valid() && t in st.table.Values && t.main
      modifies this, (set x | x in st.arrived)`retries
      ensures var after := Expire(old(st), t, old(hlsSessionId), refused);
              if fault.None? then Valid() && after == Fine(st) else after == Faulty(fault.value)
    {
      if t.fieldId !in mapTransfer || mapTransfer[t.fieldId] != t {
        return Some(FreedInMap);
      }
      LeavesMap(st, t.fieldId);
      mapTransfer := mapTransfer - {t.fieldId};
      st := st.(table := mapTransfer);
      fault := ReleaseNow(t, refused);
    }

    /** Another one is proposed again, and would go into the map once more. */
    method ProposeAgain(t: Transfer, refused: set<Transfer>) returns (fault: Option<Fault>)
      requires Valid() && t in st.table.Values && t in st.arrived && !t.main
      modifies this`st, t`retries
      ensures var after := Expire(old(st), t, hlsSessionId, refused);
              if fault.None? then Matches() && after == Fine(st) else after == Faulty(fault.value)
    {
      ghost var after := Expire(st, t, hlsSessionId, refused);
      fault := None;
      if t.retries <= MAX_RETRY_PROPOSE_TIMES {
        t.retries := t.retries + 1;
        if t !in refused || t.retries <= MAX_RETRY_PROPOSE_TIMES {
          return Some(LinkedTwice);
        }
        st := after.st;
      }
    }
  }
}
