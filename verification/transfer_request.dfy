/**
 The client's transfer request at the VBE service: the receivers are sorted by
 channel, their coins are added up in an `ACE_UINT32`, and the request goes
 straight to the block chain if a single channel is involved.
 */
module TransferRequest {
  import opened Options
  import opened WrappingId

  type Channel = nat

  type UserKey = nat

  /** A decoded receiver key; keys that do not decode are `None`. */
  datatype Receiver = Receiver(channel: Channel, key: UserKey)

  datatype Outcome = ParamError | Direct(lists: map<Channel, seq<UserKey>>) | CheckFirst(lists: map<Channel, seq<UserKey>>)

  ghost function Sum(coins: seq<Id>): nat {
    if coins == [] then 0 else Sum(coins[..|coins| - 1]) + coins[|coins| - 1] as nat
  }

  /** The keys of one channel, in the order of the request. */
  ghost function OfChannel(receivers: seq<Receiver>, ch: Channel): seq<UserKey> {
    if receivers == [] then []
    else
      var n := |receivers| - 1;
      OfChannel(receivers[..n], ch) + if receivers[n].channel == ch then [receivers[n].key] else []
  }

  /** `at` are, in order, exactly the positions of the receivers of one channel. */
  ghost predicate PositionsOf(receivers: seq<Receiver>, ch: Channel, at: seq<nat>) {
    && (forall j, k | 0 <= j < k < |at| :: at[j] < at[k])
    && (forall j | 0 <= j < |at| :: at[j] < |receivers| && receivers[at[j]].channel == ch)
    && (forall i: nat | i < |receivers| && receivers[i].channel == ch :: i in at)
  }

  /** `list` holds the keys of one channel's receivers, in the order of the request. */
  ghost predicate Holds(list: seq<UserKey>, receivers: seq<Receiver>, ch: Channel) {
    exists at: seq<nat> :: HoldsAt(list, receivers, ch, at)
  }

  ghost predicate HoldsAt(list: seq<UserKey>, receivers: seq<Receiver>, ch: Channel, at: seq<nat>) {
    PositionsOf(receivers, ch, at) && |at| == |list| && forall j | 0 <= j < |at| :: list[j] == receivers[at[j]].key
  }

  lemma HoldsSkip(list: seq<UserKey>, before: seq<Receiver>, r: Receiver, ch: Channel, at: seq<nat>)
    requires HoldsAt(list, before, ch, at) && r.channel != ch
    ensures HoldsAt(list, before + [r], ch, at)
  {
  }

  lemma HoldsOneMore(list: seq<UserKey>, before: seq<Receiver>, r: Receiver, at: seq<nat>)
    requires HoldsAt(list, before, r.channel, at)
    ensures HoldsAt(list + [r.key], before + [r], r.channel, at + [|before|])
  {
    var all, more := at + [|before|], before + [r];
    forall i: nat | i < |more| && more[i].channel == r.channel
      ensures i in all
    {
      assert i == |before| || i in at;
    }
  }

  lemma {:induction false} OfChannelHolds(receivers: seq<Receiver>, ch: Channel)
    ensures Holds(OfChannel(receivers, ch), receivers, ch)
  {
    if receivers == [] {
      var none: seq<nat> := [];
      assert HoldsAt([], receivers, ch, none);
    } else {
      var n := |receivers| - 1;
      var before, r := receivers[..n], receivers[n];
      OfChannelHolds(before, ch);
      var at: seq<nat> :| HoldsAt(OfChannel(before, ch), before, ch, at);
      assert receivers == before + [r];
      if r.channel == ch {
        HoldsOneMore(OfChannel(before, ch), before, r, at);
      } else {
        assert OfChannel(receivers, ch) == OfChannel(before, ch);
        HoldsSkip(OfChannel(before, ch), before, r, ch, at);
      }
    }
  }

  /** One list for each channel that occurs, holding that channel's receivers. */
  ghost predicate ListsHold(lists: map<Channel, seq<UserKey>>, receivers: seq<Receiver>) {
    && (forall ch :: ch in lists <==> exists i :: 0 <= i < |receivers| && receivers[i].channel == ch)
    && (forall ch | ch in lists :: Holds(lists[ch], receivers, ch))
  }

  lemma SortedHold(lists: map<Channel, seq<UserKey>>, receivers: seq<Receiver>)
    requires Sorted(lists, receivers)
    ensures ListsHold(lists, receivers)
  {
    forall ch
      ensures ch in lists <==> exists i :: 0 <= i < |receivers| && receivers[i].channel == ch
    {
      if i :| 0 <= i < |receivers| && receivers[i].channel == ch {
        assert receivers[i] in receivers;
      }
    }
    forall ch | ch in lists
      ensures Holds(lists[ch], receivers, ch)
    {
      OfChannelHolds(receivers, ch);
    }
  }

  /** The sum of one list is the coin, and that of two together is the sum of their sums. */
  lemma {:induction false} SumAdds(a: seq<Id>, b: seq<Id>)
    ensures Sum(a + b) == Sum(a) + Sum(b)
    ensures |b| == 1 ==> Sum(b) == b[0] as nat
  {
    if b == [] {
      assert a + b == a;
    } else {
      var n := |b| - 1;
      assert (a + b)[..|a + b| - 1] == a + b[..n];
      SumAdds(a, b[..n]);
    }
  }

  ghost function ChannelsOf(receivers: seq<Receiver>): set<Channel> {
    set r | r in receivers :: r.channel
  }

  /** One list a channel, each with exactly that channel's keys in order. */
  ghost predicate Sorted(lists: map<Channel, seq<UserKey>>, receivers: seq<Receiver>) {
    && lists.Keys == ChannelsOf(receivers)
    && forall ch | ch in lists :: lists[ch] == OfChannel(receivers, ch)
  }

  function Append(lists: map<Channel, seq<UserKey>>, r: Receiver): map<Channel, seq<UserKey>> {
    lists[r.channel := (if r.channel in lists then lists[r.channel] else []) + [r.key]]
  }

  lemma {:induction false} NoneOfChannel(receivers: seq<Receiver>, ch: Channel)
    requires ch !in ChannelsOf(receivers)
    ensures OfChannel(receivers, ch) == []
  {
    if receivers != [] {
      var n := |receivers| - 1;
      assert receivers[n].channel in ChannelsOf(receivers);
      assert ChannelsOf(receivers[..n]) <= ChannelsOf(receivers);
      NoneOfChannel(receivers[..n], ch);
    }
  }

  lemma SortedAppend(lists: map<Channel, seq<UserKey>>, receivers: seq<Receiver>, r: Receiver)
    requires Sorted(lists, receivers)
    ensures Sorted(Append(lists, r), receivers + [r])
  {
    var more := receivers + [r];
    assert more[..|more| - 1] == receivers;
    assert ChannelsOf(more) == ChannelsOf(receivers) + {r.channel};
    if r.channel !in lists {
      NoneOfChannel(receivers, r.channel);
    }
  }

  lemma SortedStep(lists: map<Channel, seq<UserKey>>, receivers: seq<Receiver>, i: nat)
    requires i < |receivers| && Sorted(lists, receivers[..i])
    ensures Sorted(Append(lists, receivers[i]), receivers[..i + 1])
  {
    SortedAppend(lists, receivers[..i], receivers[i]);
    assert receivers[..i + 1] == receivers[..i] + [receivers[i]];
  }

  lemma SumStep(total: Id, coins: seq<Id>, i: nat)
    requires i < |coins| && total as int == Sum(coins[..i]) % MODULUS
    ensures (total as int + coins[i] as int) % MODULUS == Sum(coins[..i + 1]) % MODULUS
  {
    assert coins[..i + 1][..i] == coins[..i];
    AddInsideMod(Sum(coins[..i]), coins[i] as int);
  }

  /** `sponsor` is the online user who pays; it goes to the end of its own channel's list. */
  method SortReceivers(receivers: seq<Receiver>, coins: seq<Id>, sponsor: Receiver, nTotalCoin: Id) returns (outcome: Outcome)
    requires |receivers| == |coins|
    ensures outcome.ParamError? <==> Sum(coins) % MODULUS != nTotalCoin as int
    ensures !outcome.ParamError? ==> Sorted(outcome.lists, receivers + [sponsor]) && ListsHold(outcome.lists, receivers + [sponsor])
    ensures !outcome.ParamError? ==> (outcome.Direct? <==> forall r | r in receivers :: r.channel == sponsor.channel)
  {
    var lists: map<Channel, seq<UserKey>> := map[];
    var total: Id := 0;
    for i := 0 to |receivers|
      invariant Sorted(lists, receivers[..i])
      invariant total as int == Sum(coins[..i]) % MODULUS
    {
      SortedStep(lists, receivers, i);
      lists := Append(lists, receivers[i]);
      SumStep(total, coins, i);
      total := ((total as int + coins[i] as int) % MODULUS) as Id;
    }
    assert receivers[..|receivers|] == receivers && coins[..|coins|] == coins;
    if total != nTotalCoin {
      return ParamError;
    }
    outcome := AddSponsor(lists, receivers, sponsor);
  }

  method AddSponsor(sorted: map<Channel, seq<UserKey>>, receivers: seq<Receiver>, sponsor: Receiver) returns (outcome: Outcome)
    requires Sorted(sorted, receivers)
    ensures !outcome.ParamError? && Sorted(outcome.lists, receivers + [sponsor]) && ListsHold(outcome.lists, receivers + [sponsor])
    ensures outcome.Direct? <==> forall r | r in receivers :: r.channel == sponsor.channel
  {
    SortedAppend(sorted, receivers, sponsor);
    var lists := Append(sorted, sponsor);
    SortedHold(lists, receivers + [sponsor]);
    OneChannelIff(receivers, sponsor);
    return if |lists| == 1 then Direct(lists) else CheckFirst(lists);
  }

  lemma OneChannelIff(receivers: seq<Receiver>, sponsor: Receiver)
    ensures |ChannelsOf(receivers + [sponsor])| == 1 <==> forall r | r in receivers :: r.channel == sponsor.channel
  {
    var all := ChannelsOf(receivers + [sponsor]);
    assert sponsor in receivers + [sponsor];
    assert sponsor.channel in all;
    if forall r | r in receivers :: r.channel == sponsor.channel {
      assert all == {sponsor.channel};
    } else {
      var r :| r in receivers && r.channel != sponsor.channel;
      assert r in receivers + [sponsor];
      assert {sponsor.channel, r.channel} <= all;
      SubsetSize({sponsor.channel, r.channel}, all);
    }
  }

  lemma SubsetSize(a: set<Channel>, b: set<Channel>)
    requires a <= b
    ensures |a| <= |b|
  {
    assert |b| == |a| + |b - a| by {
      assert b == a + (b - a);
    }
  }

  ghost function Decoded(keys: seq<Option<Receiver>>): seq<Receiver>
    requires forall i | 0 <= i < |keys| :: keys[i].Some?
  {
    seq(|keys|, i requires 0 <= i < |keys| => keys[i].value)
  }

  /** What a request must be for the service to accept it. */
  ghost predicate Accepted(keys: seq<Option<Receiver>>, coins: seq<Id>, nTotalCoin: Id) {
    |keys| == |coins| && coins != [] && (forall i | 0 <= i < |keys| :: keys[i].Some?) && Sum(coins) % MODULUS == nTotalCoin as int
  }

  /** The whole request: the counts must agree and be positive, every key must decode, the coins must add up. */
  method OnTransferReq(keys: seq<Option<Receiver>>, coins: seq<Id>, sponsor: Receiver, nTotalCoin: Id) returns (outcome: Outcome)
    ensures outcome.ParamError? <==> !Accepted(keys, coins, nTotalCoin)
    ensures !outcome.ParamError? ==> (forall i | 0 <= i < |keys| :: keys[i].Some?) && ListsHold(outcome.lists, Decoded(keys) + [sponsor])
    ensures !outcome.ParamError? ==>
              (outcome.Direct? <==> forall i | 0 <= i < |keys| :: keys[i].value.channel == sponsor.channel)
  {
    if |coins| != |keys| || |coins| == 0 {
      return ParamError;
    }
    var receivers: seq<Receiver> := [];
    for i := 0 to |keys|
      invariant |receivers| == i && forall j | 0 <= j < i :: keys[j] == Some(receivers[j])
    {
      if keys[i].None? {
        return ParamError;
      }
      receivers := receivers + [keys[i].value];
    }
    assert receivers == Decoded(keys);
    outcome := SortReceivers(receivers, coins, sponsor, nTotalCoin);
    assert forall j | 0 <= j < |keys| :: keys[j].value == receivers[j] && receivers[j] in receivers;
  }

  /** An accepted request announces the true sum of its coins if and only if that sum fits into 32 bits. */
  lemma TotalIsTrueSumIff(keys: seq<Option<Receiver>>, coins: seq<Id>, nTotalCoin: Id)
    requires Accepted(keys, coins, nTotalCoin)
    ensures Sum(coins) == nTotalCoin as int <==> Sum(coins) < MODULUS
  {
  }

  /** Two receivers of 2^31 coins each are accepted with an announced total of zero. */
  lemma OverflowingTotalAccepted(a: Receiver, b: Receiver)
    ensures Accepted([Some(a), Some(b)], [0x8000_0000, 0x8000_0000], 0) && Sum([0x8000_0000, 0x8000_0000]) == MODULUS
  {
    var coins: seq<Id> := [0x8000_0000, 0x8000_0000];
    assert coins[..1] == [0x8000_0000] && coins[..1][..0] == [];
  }
}
