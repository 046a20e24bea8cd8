/**
 The channel router and the round-robin channel allocator built on it. The rows are
 those of the HLS_CFG table; `None` stands for a database that could not be read.
 */
module ChannelRouting {
  import opened Options

  type Channel = nat

  datatype Row = Row(nodeId: int, hlsId: int, channel: Channel)

  datatype Address = Address(node: int, service: int)

  /** Assignment of an `ACE_INT32` to an `ACE_INT16`. */
  function ToInt16(x: int): (y: int)
    ensures -0x8000 <= y < 0x8000 && (y - x) % 0x1_0000 == 0
  {
    (x + 0x8000) % 0x1_0000 - 0x8000
  }

  /** Each field comes from its own column; a column value that fits is kept. */
  function AddressOf(row: Row): (a: Address)
    ensures -0x8000 <= row.nodeId < 0x8000 ==> a.node == row.nodeId
    ensures -0x8000 <= row.hlsId < 0x8000 ==> a.service == row.hlsId
    ensures (a.node - row.nodeId) % 0x1_0000 == 0 && (a.service - row.hlsId) % 0x1_0000 == 0
  {
    Address(ToInt16(row.nodeId), ToInt16(row.hlsId))
  }

  function Channels(rows: seq<Row>): set<Channel> {
    set row | row in rows :: row.channel
  }

  /** What the table says about a channel: its last row. */
  ghost function Configured(rows: seq<Row>, ch: Channel): Address
    requires ch in Channels(rows)
  {
    var n := |rows| - 1;
    if rows[n].channel == ch then AddressOf(rows[n])
    else
      assert forall row | row in rows && row.channel == ch :: row in rows[..n];
      Configured(rows[..n], ch)
  }

  /** A row that no later row of the same channel replaces. */
  ghost predicate Counts(rows: seq<Row>, i: nat)
    requires i < |rows|
  {
    forall j | i < j < |rows| :: rows[j].channel != rows[i].channel
  }

  lemma CountsStill(rows: seq<Row>, i: nat)
    requires i < |rows| - 1 && Counts(rows[..|rows| - 1], i) && rows[|rows| - 1].channel != rows[i].channel
    ensures Counts(rows, i)
  {
    var before := rows[..|rows| - 1];
    forall j | i < j < |rows|
      ensures rows[j].channel != rows[i].channel
    {
      assert j < |before| ==> before[j] == rows[j];
    }
  }

  lemma {:induction false} ConfiguredByCounting(rows: seq<Row>, ch: Channel)
    requires ch in Channels(rows)
    ensures exists i: nat | i < |rows| :: rows[i].channel == ch && Counts(rows, i) && Configured(rows, ch) == AddressOf(rows[i])
  {
    var n := |rows| - 1;
    if rows[n].channel == ch {
      assert Counts(rows, n);
    } else {
      assert forall row | row in rows && row.channel == ch :: row in rows[..n];
      ConfiguredByCounting(rows[..n], ch);
      var i: nat :| i < n && rows[..n][i].channel == ch && Counts(rows[..n], i) && Configured(rows[..n], ch) == AddressOf(rows[..n][i]);
      CountsStill(rows, i);
    }
  }

  lemma CountsConfigures(rows: seq<Row>, i: nat)
    requires i < |rows| && Counts(rows, i)
    ensures rows[i].channel in Channels(rows) && Configured(rows, rows[i].channel) == AddressOf(rows[i])
  {
    assert rows[i] in rows;
    ConfiguredByCounting(rows, rows[i].channel);
    var j: nat :| j < |rows| && rows[j].channel == rows[i].channel && Counts(rows, j) && Configured(rows, rows[i].channel) == AddressOf(rows[j]);
    assert i == j;
  }

  /** All channels get the last row's address: that is what is configured if and only if every row that counts has it. */
  lemma AllLikeLastIff(rows: seq<Row>)
    requires rows != []
    ensures (forall ch | ch in Channels(rows) :: Configured(rows, ch) == AddressOf(rows[|rows| - 1]))
            <==> forall i: nat | i < |rows| && Counts(rows, i) :: AddressOf(rows[i]) == AddressOf(rows[|rows| - 1])
  {
    forall i: nat | i < |rows| && Counts(rows, i)
      ensures rows[i].channel in Channels(rows) && Configured(rows, rows[i].channel) == AddressOf(rows[i])
    {
      CountsConfigures(rows, i);
    }
    forall ch | ch in Channels(rows)
      ensures exists i: nat | i < |rows| :: rows[i].channel == ch && Counts(rows, i) && Configured(rows, ch) == AddressOf(rows[i])
    {
      ConfiguredByCounting(rows, ch);
    }
  }

  /** `CDscAddr`: the map holds pointers to these. */
  class DscAddr {
    var nodeId: int
    var serviceId: int

    constructor () {
    }
  }

  class HlsRouter {
    var channelMap: map<Channel, DscAddr>

    /** Where a channel is routed now. */
    ghost function Route(ch: Channel): Address
      requires ch in channelMap
      reads this, channelMap.Values
    {
      Address(channelMap[ch].nodeId, channelMap[ch].serviceId)
    }

    constructor ()
      ensures channelMap == map[]
    {
      channelMap := map[];
    }

    /** One address object is allocated, before the loop; every row writes to it. */
    method LoadChannelMapHlsAddr(config: Option<seq<Row>>) returns (nRet: int)
      modifies this
      ensures nRet == 0 <==> config.Some? && config.value != []
      ensures config.Some? ==> channelMap.Keys == Channels(config.value)
      ensures config.Some? ==> forall ch | ch in channelMap :: Route(ch) == AddressOf(config.value[|config.value| - 1])
      ensures config.None? ==> channelMap == old(channelMap)
      ensures nRet == 0 ==> ((forall ch | ch in channelMap :: Route(ch) == Configured(config.value, ch))
                <==> forall i: nat | i < |config.value| && Counts(config.value, i) ::
                       AddressOf(config.value[i]) == AddressOf(config.value[|config.value| - 1]))
    {
      if config.None? {
        return -1;
      }
      var rows := config.value;
      var pAddr := new DscAddr();
      channelMap := map[];
      for i := 0 to |rows|
        invariant channelMap.Keys == Channels(rows[..i])
        invariant forall ch | ch in channelMap :: channelMap[ch] == pAddr
        invariant i > 0 ==> Address(pAddr.nodeId, pAddr.serviceId) == AddressOf(rows[i - 1])
      {
        pAddr.nodeId := ToInt16(rows[i].nodeId);
        pAddr.serviceId := ToInt16(rows[i].hlsId);
        channelMap := channelMap[rows[i].channel := pAddr];
        assert rows[..i + 1] == rows[..i] + [rows[i]];
      }
      assert rows[..|rows|] == rows;
      assert rows != [] ==> rows[0].channel in Channels(rows);
      if |channelMap| == 0 {
        return -1;
      }
      assert rows != [];
      AllLikeLastIff(rows);
      return 0;
    }

    method GetHlsAddr(nChannelID: Channel) returns (nRet: int, addr: Address)
      ensures nRet == if nChannelID in channelMap then 0 else -1
      ensures nRet == 0 ==> addr == Address(channelMap[nChannelID].nodeId, channelMap[nChannelID].serviceId)
    {
      if nChannelID in channelMap {
        return 0, Address(channelMap[nChannelID].nodeId, channelMap[nChannelID].serviceId);
      }
      return -1, Address(0, 0);
    }
  }

  // ---------- round robin ----------

  ghost predicate Distinct(a: seq<Channel>) {
    forall i, j | 0 <= i < j < |a| :: a[i] != a[j]
  }

  /** The position that the next call reads, given an cursor that may stand at `end()`. */
  function Slot(n: nat, it: nat): nat
    requires 0 < n && it <= n
    ensures Slot(n, it) < n
  {
    if it == n then 0 else it
  }

  /** The cursor after `k` calls. */
  ghost function Cursor(n: nat, k: nat): nat
    requires 0 < n
    ensures Cursor(n, k) <= n
  {
    if k == 0 then 0 else Slot(n, Cursor(n, k - 1)) + 1
  }

  /** The results of the first `k` calls. */
  ghost function Results(order: seq<Channel>, k: nat): seq<Channel>
    requires order != []
    ensures |Results(order, k)| == k
  {
    if k == 0 then [] else Results(order, k - 1) + [order[Slot(|order|, Cursor(|order|, k - 1))]]
  }

  /**
   `CVbeIdcRrChannelAllocator`. `order` is the sequence in which the unordered map
   iterates over its keys, fixed as long as the map does not change.
   */
  class RrChannelAllocator {
    const router: HlsRouter
    var order: seq<Channel>
    var cursor: nat
    ghost var history: seq<Channel>

    ghost predicate Ready()
      reads this, router
    {
      && order != [] && Distinct(order) && (set ch | ch in order) == router.channelMap.Keys
      && cursor == Cursor(|order|, |history|)
      && history == Results(order, |history|)
    }

    constructor () {
      router := new HlsRouter();
      order, cursor, history := [], 0, [];
    }

    /** `keys` is the iteration order that the loaded map happens to have. */
    method Init(config: Option<seq<Row>>, keys: seq<Channel>) returns (nRet: int)
      requires config.Some? ==> Distinct(keys) && (set ch | ch in keys) == Channels(config.value)
      modifies this, router
      ensures nRet == 0 <==> config.Some? && config.value != []
      ensures nRet == 0 ==> Ready() && order == keys && history == []
    {
      nRet := router.LoadChannelMapHlsAddr(config);
      if nRet != 0 {
        return -1;
      }
      assert config.value[0].channel in Channels(config.value);
      order, cursor, history := keys, 0, [];
    }

    method AllocChannel() returns (ch: Channel)
      requires Ready()
      modifies this`cursor, this`history
      ensures Ready() && history == old(history) + [ch]
      ensures ch in router.channelMap
    {
      if cursor == |order| {
        cursor := 0;
      }
      ch := order[cursor];
      cursor := cursor + 1;
      history := history + [ch];
      assert ch in (set c | c in order);
    }
  }

  lemma ModStep(k: nat, n: nat)
    requires 0 < n
    ensures (k + 1) % n == if k % n + 1 == n then 0 else k % n + 1
  {
    var q, r := k / n, k % n;
    assert k == q * n + r;
    if r + 1 == n {
      assert k + 1 == (q + 1) * n;
      DivUnique(k + 1, n, q + 1, 0);
    } else {
      DivUnique(k + 1, n, q, r + 1);
    }
  }

  lemma DivUnique(x: nat, n: nat, q: nat, r: nat)
    requires 0 < n && x == q * n + r && r < n
    ensures x / n == q && x % n == r
  {
    var q', r' := x / n, x % n;
    assert x == q' * n + r';
    Distribute(q, q', n);
    if q' < q {
      AtLeastOnce(q - q', n);
    } else if q < q' {
      AtLeastOnce(q' - q, n);
      Distribute(q', q, n);
    }
  }

  lemma Distribute(a: int, b: int, n: int)
    ensures (a - b) * n == a * n - b * n
  {
  }

  lemma AtLeastOnce(d: nat, n: nat)
    requires 0 < d
    ensures d * n >= n
  {
  }

  lemma {:induction false} ModShift(i: nat, j: nat, n: nat)
    requires j < n
    ensures (i + j) % n == if i % n + j < n then i % n + j else i % n + j - n
  {
    if j > 0 {
      ModShift(i, j - 1, n);
      ModStep(i + j - 1, n);
    }
  }

  /** The lazily wrapped cursor reads positions 0, 1, ..., n - 1 over and over. */
  lemma {:induction false} SlotIsModular(n: nat, k: nat)
    requires 0 < n
    ensures Slot(n, Cursor(n, k)) == k % n
  {
    if k == 0 {
      DivUnique(0, n, 0, 0);
    } else {
      SlotIsModular(n, k - 1);
      ModStep(k - 1, n);
    }
  }

  /** The k-th call, counted from 0, returns the key at position k mod N. */
  lemma {:induction false} KthResult(order: seq<Channel>, k: nat, i: nat)
    requires order != [] && i < k
    ensures Results(order, k)[i] == order[i % |order|]
  {
    if i == k - 1 {
      SlotIsModular(|order|, i);
    } else {
      KthResult(order, k - 1, i);
    }
  }

  /** Any N consecutive results, wherever they start, are the N channels in some order. */
  lemma WindowIsPermutation(order: seq<Channel>, k: nat, i: nat)
    requires order != [] && i + |order| <= k
    ensures multiset(Results(order, k)[i..i + |order|]) == multiset(order)
  {
    var n := |order|;
    var r := i % n;
    var w := Results(order, k)[i..i + n];
    forall j | 0 <= j < n
      ensures w[j] == (order[r..] + order[..r])[j]
    {
      KthResult(order, k, i + j);
      ModShift(i, j, n);
    }
    assert w == order[r..] + order[..r];
    assert order == order[..r] + order[r..];
  }

  /** How often the cursor has gone all the way round in `k` calls. */
  ghost function Rounds(n: nat, k: nat): nat
    requires 0 < n
  {
    if k == 0 then 0 else Rounds(n, k - 1) + (if Slot(n, Cursor(n, k - 1)) + 1 == n then 1 else 0)
  }

  lemma {:induction false} RoundsIsQuotient(n: nat, k: nat)
    requires 0 < n
    ensures Rounds(n, k) == k / n
  {
    if k == 0 {
      DivUnique(0, n, 0, 0);
    } else {
      RoundsIsQuotient(n, k - 1);
      SlotIsModular(n, k - 1);
      DivStep(k - 1, n);
    }
  }

  lemma DivStep(k: nat, n: nat)
    requires 0 < n
    ensures (k + 1) / n == if k % n + 1 == n then k / n + 1 else k / n
  {
    var q, r := k / n, k % n;
    assert k == q * n + r;
    if r + 1 == n {
      assert k + 1 == (q + 1) * n;
      DivUnique(k + 1, n, q + 1, 0);
    } else {
      DivUnique(k + 1, n, q, r + 1);
    }
  }

  /** A channel has been returned once a round, and once more if the cursor has passed its position in this one. */
  lemma {:induction false} CountOf(order: seq<Channel>, k: nat, p: nat)
    requires order != [] && Distinct(order) && p < |order|
    ensures multiset(Results(order, k))[order[p]]
            == Rounds(|order|, k) + (if p < Slot(|order|, Cursor(|order|, k)) then 1 else 0)
  {
    if k > 0 {
      CountOf(order, k - 1, p);
      var slot := Slot(|order|, Cursor(|order|, k - 1));
      assert Results(order, k) == Results(order, k - 1) + [order[slot]];
      assert order[slot] == order[p] <==> slot == p;
    }
  }

  /** After any k calls every channel has been returned floor(k/N) or ceil(k/N) times. */
  lemma FloorOrCeiling(order: seq<Channel>, k: nat, ch: Channel)
    requires order != [] && Distinct(order) && ch in order
    ensures var c, n := multiset(Results(order, k))[ch], |order|;
            k / n <= c <= k / n + (if k % n == 0 then 0 else 1)
  {
    var p: nat :| p < |order| && order[p] == ch;
    CountOf(order, k, p);
    RoundsIsQuotient(|order|, k);
    SlotIsModular(|order|, k);
  }

  /** No channel is ever more than one call ahead of another. */
  lemma Fairness(order: seq<Channel>, k: nat, ch: Channel, other: Channel)
    requires order != [] && Distinct(order) && ch in order && other in order
    ensures multiset(Results(order, k))[ch] <= multiset(Results(order, k))[other] + 1
  {
    var p: nat :| p < |order| && order[p] == ch;
    var q: nat :| q < |order| && order[q] == other;
    CountOf(order, k, p);
    CountOf(order, k, q);
  }
}
