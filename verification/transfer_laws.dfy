/** What each event does to the transfer that it is about, and when a waiting transfer is released. */
module TransferLaws {
  import opened Options
  import opened WrappingId
  import opened TransferOrder
  import opened TransferRelease
  import opened TransferSpec
  import opened TransferRuns
  import opened Runs

  /** The positions of the list that name another channel. */
  ghost function Elsewhere(channels: seq<Channel>, own: Channel): set<nat> {
    set i: nat | i < |channels| && channels[i] != own
  }

  lemma {:induction false} RemoteAppend(channels: seq<Channel>, own: Channel, x: Channel)
    ensures CountRemote(channels + [x], own) == CountRemote(channels, own) + if x == own then 0 else 1
  {
    if channels == [] {
      assert [] + [x] == [x];
    } else {
      assert (channels + [x])[0] == channels[0] && (channels + [x])[1..] == channels[1..] + [x];
      RemoteAppend(channels[1..], own, x);
    }
  }

  /** What the service counts are these positions. */
  lemma {:induction false} RemoteIsElsewhere(channels: seq<Channel>, own: Channel)
    ensures CountRemote(channels, own) == |Elsewhere(channels, own)|
  {
    if channels != [] {
      var n := |channels| - 1;
      var before, x := channels[..n], channels[n];
      assert channels == before + [x];
      RemoteIsElsewhere(before, own);
      RemoteAppend(before, own, x);
      assert Elsewhere(channels, own) == Elsewhere(before, own) + if x == own then {} else {n};
    }
  }

  // ---------- a release ----------

  /** Out of the queues, for good. */
  ghost predicate Gone(st': State, t: Transfer) {
    t in st'.released && t !in st'.arrived
  }

  /**
   Besides the released transfer only refused main transfers go; others that are now
   in the map had not been there, with one try if they were refused; the rest is as before.
   */
  ghost predicate OnlyWakes(st: State, st': State, t: Transfer, refused: set<Transfer>) {
    && st'.waiting == st.waiting && st'.stuck == st.stuck
    && (forall x | x in st'.arrived :: x in st.arrived)
    && (forall x | x in st.arrived && x !in st'.arrived :: x in st'.released && (x == t || (x.main && x in refused)))
    && (forall x | x in st'.released :: x in st.released || x in st.arrived)
    && (forall x | x in st.released :: x in st'.released)
    && (forall id | id in st.table :: id in st'.table && st'.table[id] == st.table[id])
    && (forall x | x in st'.table.Values && x !in st.table.Values ::
          x in st.arrived && x != t && !(x.main && x in refused) && Tries(st', x) == if x in refused then 1 else 0)
    && (forall x | x in st'.arrived && (x !in st'.table.Values || x in st.table.Values) :: Tries(st', x) == Tries(st, x))
  }

  lemma TriesAfterSettle(st: State, q': Queues, refused: set<Transfer>, x: Transfer)
    requires x !in st.table.Values ==> Tries(st, x) == 0
    ensures var tries := st.tries + FirstTries(st.table, q', refused);
            (if x in tries then tries[x] else 0)
            == if x in q'.table.Values && x !in st.table.Values then (if x in refused then 1 else 0) else Tries(st, x)
  {
  }

  lemma SettleWakes(st: State, q: Queues, q': Queues, refused: set<Transfer>, t: Transfer)
    requires Leaving(st, t) && q.table == st.table
    requires forall x | x in q.arrived :: x in st.arrived && x != t
    requires forall x | x in st.arrived && x != t :: x in q.arrived
    requires forall id | id in q.table :: id in q'.table && q'.table[id] == q.table[id]
    requires forall x | x in q'.table.Values && x !in q.table.Values :: x in q.arrived && x !in Aside(st) && !(x.main && x in refused)
    requires forall x | x in q'.arrived :: x in q.arrived
    requires forall x | x in q.arrived && x !in q'.arrived :: x.main && x in refused
    ensures var st' := Settle(st, Done(q'), refused).st; Gone(st', t) && OnlyWakes(st, st', t, refused)
  {
    var st' := Settle(st, Done(q'), refused).st;
    assert t in st.arrived && t !in q'.arrived;
    forall x | x in st'.table.Values && x !in st.table.Values
      ensures x in st.arrived && x != t && !(x.main && x in refused) && Tries(st', x) == if x in refused then 1 else 0
    {
      assert x in q.arrived;
      TriesAfterSettle(st, q', refused, x);
    }
    forall x | x in st'.arrived && (x !in st'.table.Values || x in st.table.Values)
      ensures Tries(st', x) == Tries(st, x)
    {
    }
  }

  lemma ReleaseLaw(st: State, t: Transfer, next: Id, refused: set<Transfer>)
    requires Leaving(st, t) && Release(st, t, next, refused).Fine?
    ensures var st' := Release(st, t, next, refused).st; Gone(st', t) && OnlyWakes(st, st', t, refused)
  {
    LeftIsSound(st, t, next);
    var q := Left(st, t, next);
    DrainChanges(q, t.users, refused, Aside(st));
    SettleWakes(st, q, Drain(q, t.users, refused).q, refused, t);
  }

  // ---------- the result of a proposal ----------

  /** `t` is queued as before and has left the map; apart from what `waiting` says, nothing has changed. */
  ghost predicate OnlyWaits(st: State, st': State, id: Id, t: Transfer, answers: nat) {
    st' == st.(table := st.table - {id}, waiting := st.waiting[t := answers])
  }

  /**
   A proposal that succeeded releases its transfer if and only if the transfer is not
   main or has exactly one receiver. Otherwise the transfer waits for one answer for
   each position of its list that names another channel.
   */
  lemma SuccessReleasesIff(own: Channel, st: State, id: Id, next: Id, refused: set<Transfer>)
    requires Inv(st) && id in st.table && Step(own, st, Result(id, true, next, refused)).Fine?
    ensures var t, st' := st.table[id], Step(own, st, Result(id, true, next, refused)).st;
            && (Gone(st', t) <==> !t.main || |t.channels| == 1)
            && (t in st'.arrived <==> t.main && |t.channels| != 1)
            && (Gone(st', t) ==> OnlyWakes(st.(table := st.table - {id}), st', t, refused))
            && (!Gone(st', t) ==> OnlyWaits(st, st', id, t, |Elsewhere(t.channels, own)|))
  {
    var t, left := st.table[id], st.(table := st.table - {id});
    LeavesMap(st, id);
    RemoteIsElsewhere(t.channels, own);
    if !t.main || |t.channels| == 1 {
      ReleaseLaw(left, t, next, refused);
    }
  }

  /**
   A proposal that failed releases a main transfer. Another one goes back into the map
   under the next key with one more try, or stays out if it has had too many.
   */
  lemma FailureReleasesIff(own: Channel, st: State, id: Id, next: Id, refused: set<Transfer>)
    requires Inv(st) && id in st.table && Step(own, st, Result(id, false, next, refused)).Fine?
    ensures var t, st' := st.table[id], Step(own, st, Result(id, false, next, refused)).st;
            && (Gone(st', t) <==> t.main)
            && (t.main ==> OnlyWakes(st.(table := st.table - {id}), st', t, refused))
            && (!t.main && Tries(st, t) <= 3 ==>
                  && st' == st.(table := (st.table - {id})[next := t], tries := st.tries[t := Tries(st, t) + 1])
                  && Tries(st', t) == Tries(st, t) + 1)
            && (!t.main && Tries(st, t) > 3 ==> st' == st.(table := st.table - {id}, stuck := st.stuck + {t}))
  {
    var t, left := st.table[id], st.(table := st.table - {id});
    LeavesMap(st, id);
    if t.main {
      ReleaseLaw(left, t, next, refused);
    }
  }

  /** A result for a key that is not in the map changes nothing. */
  lemma UnknownResult(own: Channel, st: State, id: Id, ok: bool, next: Id, refused: set<Transfer>)
    requires id !in st.table
    ensures Step(own, st, Result(id, ok, next, refused)) == Fine(st)
  {
  }

  // ---------- requests, answers and timeouts ----------

  /** A request that goes well is queued last. It is proposed if it is entitled and its field is no key in use, and then released if it is main and refused. */
  lemma RequestLaw(own: Channel, st: State, t: Transfer, next: Id, refused: set<Transfer>)
    requires Inv(st) && Enabled(st, Request(t, next, refused)) && Step(own, st, Request(t, next, refused)).Fine?
    ensures var st', all := Step(own, st, Request(t, next, refused)).st, st.arrived + [t];
            var asked := Eligible(all, t) && t.fieldId !in st.table;
            && (Gone(st', t) <==> asked && t.main && t in refused)
            && (!asked ==> st' == st.(arrived := all))
            && (asked && !Gone(st', t) ==>
                  && st'.arrived == all && st'.table == st.table[next := t] && Tries(st', t) == (if t in refused then 1 else 0)
                  && st'.waiting == st.waiting && st'.stuck == st.stuck && st'.released == st.released)
            && (Gone(st', t) ==> OnlyWakes(st.(arrived := all), st', t, refused))
  {
    RequestCases(own, st, t, next, refused);
    QueuedIsSound(st, t);
    HeadsAllIff(st.arrived + [t], t);
    if t.fieldId !in st.table && First(Queued(st, t).arrived, t) && t.main && t in refused {
      ReleaseLaw(Queued(st, t), t, next, refused);
    }
  }

  /** An answer of another channel lowers the count by one; the last one releases the transfer. */
  lemma AnswerLaw(own: Channel, st: State, t: Transfer, next: Id, refused: set<Transfer>)
    requires Inv(st) && Enabled(st, Answer(t, next, refused)) && Step(own, st, Answer(t, next, refused)).Fine?
    ensures var st' := Step(own, st, Answer(t, next, refused)).st;
            && (Gone(st', t) <==> st.waiting[t] == 1)
            && (st.waiting[t] != 1 ==> st' == st.(waiting := st.waiting[t := st.waiting[t] - 1]))
            && (st.waiting[t] == 1 ==> OnlyWakes(st.(waiting := st.waiting - {t}), st', t, refused))
  {
    LeavesWaiting(st, t);
    EligibleIsQueued(st.arrived, t);
    if st.waiting[t] == 1 {
      ReleaseLaw(st.(waiting := st.waiting - {t}), t, next, refused);
    }
  }

  /** A timeout goes well for a main transfer exactly if its field is its key and its release goes well; for another one only once its retries are used up. */
  lemma TimeOutLaw(own: Channel, st: State, t: Transfer, next: Id, refused: set<Transfer>)
    requires Inv(st) && Enabled(st, TimeOut(t, next, refused))
    ensures var after := Step(own, st, TimeOut(t, next, refused));
            && (after == Faulty(FreedInMap) <==> t.main && !(t.fieldId in st.table && st.table[t.fieldId] == t))
            && (t.main && after.Fine? ==> Gone(after.st, t) && OnlyWakes(st.(table := st.table - {t.fieldId}), after.st, t, refused))
            && (!t.main ==> (after.Fine? <==> Tries(st, t) > 3 || (t in refused && Tries(st, t) == 3)))
            && (!t.main && !after.Fine? ==> after == Faulty(LinkedTwice))
            && (!t.main && after.Fine? ==>
                  after.st == if Tries(st, t) > 3 then st else st.(tries := st.tries[t := Tries(st, t) + 1]))
  {
    if t.main && t.fieldId in st.table && st.table[t.fieldId] == t {
      LeavesMap(st, t.fieldId);
      var left := st.(table := st.table - {t.fieldId});
      if Release(left, t, next, refused).Fine? {
        ReleaseLaw(left, t, next, refused);
      }
      NeverFreedInMap(left, t, next, refused);
    }
  }

  lemma NeverFreedInMap(st: State, t: Transfer, next: Id, refused: set<Transfer>)
    ensures Release(st, t, next, refused) != Faulty(FreedInMap)
  {
    DrainFaults(Left(st, t, next), t.users, refused);
  }

  lemma {:induction false} DrainFaults(q: Queues, due: seq<User>, refused: set<Transfer>)
    ensures var outcome := Drain(q, due, refused); outcome.Broken? ==> outcome.why != FreedInMap && outcome.why != LinkedTwice
    decreases |q.arrived|, |due|
  {
    if due != [] && Project(q.arrived, due[0]) != [] {
      ProjectHas(q.arrived, due[0]);
      var turn := Ask(q, Project(q.arrived, due[0])[0], due[1..], refused);
      if turn.Go? {
        DrainFaults(turn.q, turn.due, refused);
      }
    }
  }

  // ---------- a waiting transfer over a run ----------

  ghost function AnswersTo(es: seq<Event>, t: Transfer): nat {
    if es == [] then 0 else (if es[0].Answer? && es[0].t == t then 1 else 0) + AnswersTo(es[1..], t)
  }

  /** Waiting for `n` more answers, or released for good when there are none to come. */
  ghost predicate Awaits(st: State, t: Transfer, n: nat) {
    if n == 0 then Gone(st, t) && t !in st.waiting else t in st.waiting && st.waiting[t] == n && t in st.arrived && t !in st.released
  }

  lemma AwaitsStep(own: Channel, st: State, e: Event, t: Transfer, n: nat)
    requires Inv(st) && Awaits(st, t, n) && Move(own)(st, e).Some?
    ensures var now := if e.Answer? && e.t == t then 1 else 0;
            now <= n && Awaits(Move(own)(st, e).value, t, n - now)
  {
    InvStep(own, st, e);
    var st' := Move(own)(st, e).value;
    if t in st'.waiting {
      EligibleIsQueued(st'.arrived, t);
    }
    match e
    case Request(x, next, refused) => RequestLaw(own, st, x, next, refused);
    case Result(id, ok, next, refused) =>
      if id in st.table {
        EligibleIsQueued(st.arrived, st.table[id]);
        if ok {
          SuccessReleasesIff(own, st, id, next, refused);
        } else {
          FailureReleasesIff(own, st, id, next, refused);
        }
      }
    case Answer(x, next, refused) =>
      EligibleIsQueued(st.arrived, x);
      AnswerLaw(own, st, x, next, refused);
    case TimeOut(x, next, refused) => TimeOutLaw(own, st, x, next, refused);
  }

  /** A transfer that waits for `n` answers is released with the n-th answer, not earlier and not later, whatever else happens. */
  lemma {:induction false} ReleasedAtLastAnswer(own: Channel, st: State, es: seq<Event>, t: Transfer, n: nat)
    requires Inv(st) && Awaits(st, t, n) && Valid(Move(own), st, es)
    ensures AnswersTo(es, t) <= n && Awaits(End(Move(own), st, es), t, n - AnswersTo(es, t))
    decreases |es|
  {
    if es != [] {
      AwaitsStep(own, st, es[0], t, n);
      InvStep(own, st, es[0]);
      ReleasedAtLastAnswer(own, Move(own)(st, es[0]).value, es[1..], t, n - if es[0].Answer? && es[0].t == t then 1 else 0);
    }
  }

  /** So after its success a main transfer is released by exactly as many answers as its list has positions of other channels. */
  lemma SuccessAwaits(own: Channel, st: State, id: Id, next: Id, refused: set<Transfer>)
    requires Inv(st) && id in st.table && st.table[id].main && |st.table[id].channels| != 1 && Elsewhere(st.table[id].channels, own) != {}
    ensures var after := Step(own, st, Result(id, true, next, refused));
            after.Fine? && Inv(after.st) && Awaits(after.st, st.table[id], |Elsewhere(st.table[id].channels, own)|)
  {
    var t := st.table[id];
    LeavesMap(st, id);
    EligibleIsQueued(st.arrived, t);
    SuccessReleasesIff(own, st, id, next, refused);
    InvStep(own, st, Result(id, true, next, refused));
  }
}
