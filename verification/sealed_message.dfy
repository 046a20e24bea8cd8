/**
 Sealed message data: encode, encrypt, send, free; and decrypt, decode. The cipher
 is library code; it is a parameter, `Cipher`, with its law.
 */
module SealedMessage {
  import opened Options
  import opened Codec

  type Key = seq<Byte>

  /** `None` is the null pointer that both functions return on failure. */
  datatype Cipher = Cipher(enc: (Key, seq<Byte>) -> Option<seq<Byte>>, dec: (Key, seq<Byte>) -> Option<seq<Byte>>)

  ghost predicate Inverts(c: Cipher) {
    forall k, m {:trigger c.enc(k, m)} | c.enc(k, m).Some? :: c.dec(k, c.enc(k, m).value) == Some(m)
  }

  // ---------- the wrappers ----------

  datatype WrapperKind =
    | LoginCltVbeReq
    | LoginVbeCltRsp
    | RegisterUserCltRegReq
    | RegisterUserRegCltRsp
    | UpdateCltVbeReq
    | UpdateVbeCltRsp
    | IdcInterfaceCltVbeReq
    | IdcInterfaceVbeCltRsp
    | TransferCltVbeReq
    | TransferVbeCltRsp
    | GetUserInfoCltVbeReq
    | GetUserInfoVbeCltRsp

  /** The bound fields, in the order of `DSC_BIND_ATTR`. */
  function Fields(kind: WrapperKind): seq<Shape> {
    var blob, u32 := Basic(ShortBlob), Basic(U32);
    match kind
    case LoginCltVbeReq => [blob]
    case LoginVbeCltRsp => [blob, u32]
    case RegisterUserCltRegReq => [Basic(I32), blob, blob, blob]
    case RegisterUserRegCltRsp => [blob, blob]
    case UpdateCltVbeReq => [blob, blob, u32, u32]
    case UpdateVbeCltRsp => [blob, blob]
    case IdcInterfaceCltVbeReq => [blob, blob, u32]
    case IdcInterfaceVbeCltRsp => [blob, Basic(Blob)]
    case TransferCltVbeReq => [blob, u32, List(blob), List(u32)]
    case TransferVbeCltRsp => [blob, blob]
    case GetUserInfoCltVbeReq => [blob]
    case GetUserInfoVbeCltRsp => [blob, blob]
  }

  /** The one member that is a copy and not a reference: the channel id of the register request. */
  predicate ByValue(kind: WrapperKind, i: nat) {
    kind.RegisterUserCltRegReq? && i == 0
  }

  /** A variable of the caller, or a member of the wrapper itself. */
  class Cell {
    var value: Value

    constructor (value: Value)
      ensures this.value == value
    {
      this.value := value;
    }
  }

  /** `members` are what the wrapper's bound names denote. */
  class Wrapper {
    const kind: WrapperKind
    const members: seq<Cell>

    /** Reference members denote the caller's variables; the by-value member is a fresh copy. */
    constructor (kind: WrapperKind, callers: seq<Cell>)
      requires |callers| == |Fields(kind)|
      ensures this.kind == kind && |members| == |callers|
      ensures forall i: nat | i < |callers| ::
                if ByValue(kind, i) then fresh(members[i]) && members[i].value == callers[i].value else members[i] == callers[i]
      ensures kind.RegisterUserCltRegReq? ==> fresh(members[0]) && members[0].value == callers[0].value && members[1..] == callers[1..]
      ensures !kind.RegisterUserCltRegReq? ==> members == callers
    {
      this.kind := kind;
      if kind.RegisterUserCltRegReq? {
        var copy := new Cell(callers[0].value);
        members := [copy] + callers[1..];
      } else {
        members := callers;
      }
    }

    ghost function Values(): seq<Value>
      reads members
    {
      ValuesOf(members)
    }

    ghost predicate Distinct() {
      DistinctCells(members)
    }
  }

  ghost function ValuesOf(cells: seq<Cell>): seq<Value>
    reads cells
  {
    seq(|cells|, i requires 0 <= i < |cells| reads cells => cells[i].value)
  }

  ghost predicate DistinctCells(cells: seq<Cell>) {
    forall i, j | 0 <= i < j < |cells| :: cells[i] != cells[j]
  }

  // ---------- buffers ----------

  /** A buffer of the thread allocator. */
  class Buffer {
    const data: seq<Byte>

    constructor (data: seq<Byte>)
      ensures this.data == data
    {
      this.data := data;
    }
  }

  /** The buffers that are handed out and not freed. */
  class BufferPool {
    ghost var live: set<Buffer>

    constructor ()
      ensures live == {}
    {
      live := {};
    }

    method Allocate(data: seq<Byte>) returns (b: Buffer)
      modifies this
      ensures fresh(b) && b.data == data && live == old(live) + {b}
    {
      b := new Buffer(data);
      live := live + {b};
    }

    /** `DSC_THREAD_SIZE_FREE` is told the size, which must be the one allocated. */
    method Free(b: Buffer, size: nat)
      requires b in live && size == |b.data|
      modifies this
      ensures live == old(live) - {b}
    {
      live := live - {b};
    }
  }

  datatype ReturnCode = Ok | EncryptError | NetworkError

  /**
   The plain text of each wrapper, member by member. A nonce, key, token, id and so on
   is one basic field; a transfer request ends with a list of keys and a list of coins.
   */
  function WireText(c: Prims, kind: WrapperKind, m: seq<Value>): seq<Byte>
    requires |m| == |Fields(kind)|
  {
    match kind
    case LoginCltVbeReq => BasicBytes(c, ShortBlob, m[0])
    case LoginVbeCltRsp => BasicBytes(c, ShortBlob, m[0]) + BasicBytes(c, U32, m[1])
    case RegisterUserCltRegReq =>
      BasicBytes(c, I32, m[0]) + BasicBytes(c, ShortBlob, m[1]) + BasicBytes(c, ShortBlob, m[2]) + BasicBytes(c, ShortBlob, m[3])
    case RegisterUserRegCltRsp => BasicBytes(c, ShortBlob, m[0]) + BasicBytes(c, ShortBlob, m[1])
    case UpdateCltVbeReq =>
      BasicBytes(c, ShortBlob, m[0]) + BasicBytes(c, ShortBlob, m[1]) + BasicBytes(c, U32, m[2]) + BasicBytes(c, U32, m[3])
    case UpdateVbeCltRsp => BasicBytes(c, ShortBlob, m[0]) + BasicBytes(c, ShortBlob, m[1])
    case IdcInterfaceCltVbeReq => BasicBytes(c, ShortBlob, m[0]) + BasicBytes(c, ShortBlob, m[1]) + BasicBytes(c, U32, m[2])
    case IdcInterfaceVbeCltRsp => BasicBytes(c, ShortBlob, m[0]) + BasicBytes(c, Blob, m[1])
    case TransferCltVbeReq =>
      BasicBytes(c, ShortBlob, m[0]) + BasicBytes(c, U32, m[1]) + ListBytes(c, ShortBlob, m[2]) + ListBytes(c, U32, m[3])
    case TransferVbeCltRsp => BasicBytes(c, ShortBlob, m[0]) + BasicBytes(c, ShortBlob, m[1])
    case GetUserInfoCltVbeReq => BasicBytes(c, ShortBlob, m[0])
    case GetUserInfoVbeCltRsp => BasicBytes(c, ShortBlob, m[0]) + BasicBytes(c, ShortBlob, m[1])
  }

  /** The bytes of one bound member. */
  function FieldBytes(c: Prims, sh: Shape, v: Value): seq<Byte> {
    match sh
    case Basic(p) => BasicBytes(c, p, v)
    case List(Basic(p)) => ListBytes(c, p, v)
    case List(List(_)) => []
  }

  predicate Flat(sh: Shape) {
    sh.Basic? || sh.elem.Basic?
  }

  lemma OneMore(c: Prims, shapes: seq<Shape>, vs: seq<Value>, n: nat)
    requires AllAdmissible(c, shapes, vs) && n < |shapes| && Flat(shapes[n])
    ensures EncodeFields(c, shapes[..n + 1], vs[..n + 1]) == EncodeFields(c, shapes[..n], vs[..n]) + FieldBytes(c, shapes[n], vs[n])
  {
    assert shapes[..n + 1] == shapes[..n] + [shapes[n]] && vs[..n + 1] == vs[..n] + [vs[n]];
    assert Admissible(c, shapes[n], vs[n]);
    EncodeAppend(c, shapes[..n], vs[..n], [shapes[n]], [vs[n]]);
    EncodeOne(c, if shapes[n].Basic? then shapes[n].p else shapes[n].elem.p, vs[n]);
  }

  /** The first `n` members, one after the other. */
  ghost function Joined(c: Prims, shapes: seq<Shape>, m: seq<Value>, n: nat): seq<Byte>
    requires n <= |shapes| == |m|
  {
    if n == 0 then []
    else if n == 1 then FieldBytes(c, shapes[0], m[0])
    else Joined(c, shapes, m, n - 1) + FieldBytes(c, shapes[n - 1], m[n - 1])
  }

  lemma {:induction false} EncodesToJoined(c: Prims, shapes: seq<Shape>, m: seq<Value>, n: nat)
    requires AllAdmissible(c, shapes, m) && n <= |shapes| && forall i | 0 <= i < |shapes| :: Flat(shapes[i])
    ensures EncodeFields(c, shapes[..n], m[..n]) == Joined(c, shapes, m, n)
  {
    if n > 0 {
      EncodesToJoined(c, shapes, m, n - 1);
      OneMore(c, shapes, m, n - 1);
    }
  }

  lemma JoinedUnrolled(c: Prims, shapes: seq<Shape>, m: seq<Value>)
    requires |shapes| == |m|
    ensures var b := seq(|m|, i requires 0 <= i < |m| => FieldBytes(c, shapes[i], m[i]));
            && (|m| == 1 ==> Joined(c, shapes, m, 1) == b[0])
            && (|m| == 2 ==> Joined(c, shapes, m, 2) == b[0] + b[1])
            && (|m| == 3 ==> Joined(c, shapes, m, 3) == b[0] + b[1] + b[2])
            && (|m| == 4 ==> Joined(c, shapes, m, 4) == b[0] + b[1] + b[2] + b[3])
  {
    if |m| >= 3 {
      assert Joined(c, shapes, m, 2) == FieldBytes(c, shapes[0], m[0]) + FieldBytes(c, shapes[1], m[1]);
    }
  }

  /** Encoding a wrapper's fields gives its plain text. */
  lemma EncodesToWire(c: Prims, kind: WrapperKind, m: seq<Value>)
    requires AllAdmissible(c, Fields(kind), m)
    ensures EncodeFields(c, Fields(kind), m) == WireText(c, kind, m)
  {
    var shapes := Fields(kind);
    EncodesToJoined(c, shapes, m, |m|);
    JoinedUnrolled(c, shapes, m);
    assert shapes[..|m|] == shapes && m[..|m|] == m;
  }

  /** Decoding a wrapper's plain text, whatever follows, gives its members back. */
  lemma WireDecodes(c: Prims, kind: WrapperKind, m: seq<Value>, rest: seq<Byte>)
    requires Lawful(c) && AllAdmissible(c, Fields(kind), m)
    ensures DecodeFields(c, Fields(kind), WireText(c, kind, m) + rest) == Some(m)
  {
    EncodesToWire(c, kind, m);
    DecodeEncodeFields(c, Fields(kind), m, rest);
  }

  /** The plain text of a wrapper object. */
  ghost function Plain(prims: Prims, w: Wrapper): seq<Byte>
    requires AllAdmissible(prims, Fields(w.kind), w.Values())
    reads w.members
  {
    WireText(prims, w.kind, w.Values())
  }

  class Endpoint {
    const prims: Prims
    const cipher: Cipher
    const pool: BufferPool

    constructor (prims: Prims, cipher: Cipher)
      ensures this.prims == prims && this.cipher == cipher && fresh(pool) && pool.live == {}
    {
      this.prims, this.cipher := prims, cipher;
      pool := new BufferPool();
    }

    method ReadMembers(w: Wrapper) returns (vs: seq<Value>)
      ensures vs == w.Values()
    {
      vs := [];
      for i := 0 to |w.members|
        invariant |vs| == i && forall j | 0 <= j < i :: vs[j] == w.members[j].value
      {
        vs := vs + [w.members[i].value];
      }
    }

    /** Reports success also when the cipher failed; then `outBuf` is null and `outLen` is whatever it is. */
    method EncryptWrapperMsg(w: Wrapper, key: Key) returns (ret: int, outBuf: Buffer?, outLen: nat)
      requires AllAdmissible(prims, Fields(w.kind), w.Values())
      modifies pool
      ensures ret == 0
      ensures outBuf == null <==> cipher.enc(key, Plain(prims, w)).None?
      ensures outBuf == null ==> pool.live == old(pool.live)
      ensures outBuf != null ==> fresh(outBuf) && pool.live == old(pool.live) + {outBuf}
      ensures outBuf != null ==> cipher.enc(key, Plain(prims, w)) == Some(outBuf.data) && outLen == |outBuf.data|
    {
      var vs := ReadMembers(w);
      var encodeBuf := pool.Allocate(EncodeFields(prims, Fields(w.kind), vs));
      EncodesToWire(prims, w.kind, vs);

      var sealed := cipher.enc(key, encodeBuf.data);
      outBuf, outLen := null, *;
      if sealed.Some? {
        outBuf := pool.Allocate(sealed.value);
        outLen := |outBuf.data|;
      }

      pool.Free(encodeBuf, |encodeBuf.data|);
      return 0, outBuf, outLen;
    }

    /**
     `EncryptSendRequest` and `EncryptSendResponse`. `delivered` is the outcome of
     `SendHtsMsg`; `handed` is the sealed data it was given, if any.
     */
    method EncryptSend(w: Wrapper, envelopeKey: Key, delivered: bool) returns (nReturnCode: ReturnCode, handed: Option<seq<Byte>>)
      requires AllAdmissible(prims, Fields(w.kind), w.Values())
      modifies pool
      ensures pool.live == old(pool.live)
      ensures handed == cipher.enc(envelopeKey, Plain(prims, w))
      ensures nReturnCode == if delivered then Ok else NetworkError
    {
      nReturnCode, handed := Ok, None;
      var ret, encryptBuf, encryptBufLen := EncryptWrapperMsg(w, envelopeKey);
      if ret != 0 {
        nReturnCode := EncryptError;
      } else {
        if encryptBuf != null {
          handed := Some(encryptBuf.data);
        }
        if !delivered {
          nReturnCode := NetworkError;
        }
      }

      if encryptBuf != null {
        pool.Free(encryptBuf, encryptBufLen);
      }
    }

    /** `DSC::Decode`: each field is written to its member as it is read; a bad field ends it. */
    method DecodeInto(w: Wrapper, input: seq<Byte>) returns (ret: int)
      requires |w.members| == |Fields(w.kind)| && w.Distinct()
      modifies w.members
      ensures ret == 0 <==> DecodeFields(prims, Fields(w.kind), input).Some?
      ensures ret == 0 ==> w.Values() == DecodeFields(prims, Fields(w.kind), input).value
    {
      var shapes := Fields(w.kind);
      var rest := input;
      ghost var done: seq<Value> := [];
      ghost var result := DecodeFields(prims, shapes, input);
      assert shapes[0..] == shapes && (result.Some? ==> [] + result.value == result.value);
      for i := 0 to |shapes|
        invariant |done| == i && forall j | 0 <= j < i :: w.members[j].value == done[j]
        invariant match DecodeFields(prims, shapes[i..], rest)
                  case None => result.None?
                  case Some(vs) => result == Some(done + vs)
      {
        var read := Decode(prims, shapes[i], rest);
        if read.None? || |rest| < read.value.1 {
          return -1;
        }
        ghost var left := DecodeFields(prims, shapes[i..], rest);
        assert shapes[i..][1..] == shapes[i + 1..];
        assert left.Some? ==> done + left.value == done + [read.value.0] + left.value[1..];
        w.members[i].value := read.value.0;
        rest := rest[read.value.1..];
        done := done + [read.value.0];
      }
      assert result == Some(done + []);
      assert w.Values() == done;
      return 0;
    }

    /** The returned buffer is the caller's to free. After a failed decode null is returned and the buffer stays allocated. */
    method DecryptWrapperMsg(w: Wrapper, key: Key, data: seq<Byte>) returns (buf: Buffer?)
      requires |w.members| == |Fields(w.kind)| && w.Distinct()
      modifies w.members, pool
      ensures var plain := cipher.dec(key, data);
              && (buf != null <==> plain.Some? && DecodeFields(prims, Fields(w.kind), plain.value).Some?)
              && (buf != null ==> w.Values() == DecodeFields(prims, Fields(w.kind), plain.value).value)
              && (buf != null ==> fresh(buf) && buf.data == plain.value && pool.live == old(pool.live) + {buf})
              && (plain.None? ==> pool.live == old(pool.live) && w.Values() == old(w.Values()))
              && (buf == null && plain.Some? ==> exists b :: b !in old(pool.live) && pool.live == old(pool.live) + {b})
    {
      var plain := cipher.dec(key, data);
      if plain.Some? {
        var pDecryptBuf := pool.Allocate(plain.value);
        assert pDecryptBuf !in old(pool.live);
        var bad := DecodeInto(w, pDecryptBuf.data);
        if bad != 0 {
          return null;
        }
        return pDecryptBuf;
      }
      return null;
    }
  }

  /** What was sealed is what is unsealed. */
  lemma UnsealSeal(prims: Prims, cipher: Cipher, key: Key, kind: WrapperKind, vs: seq<Value>)
    requires Lawful(prims) && Inverts(cipher) && AllAdmissible(prims, Fields(kind), vs)
    requires cipher.enc(key, WireText(prims, kind, vs)).Some?
    ensures var plain := cipher.dec(key, cipher.enc(key, WireText(prims, kind, vs)).value);
            plain.Some? && DecodeFields(prims, Fields(kind), plain.value) == Some(vs)
  {
    var bytes := WireText(prims, kind, vs);
    assert cipher.dec(key, cipher.enc(key, bytes).value) == Some(bytes);
    WireDecodes(prims, kind, vs, []);
    assert bytes + [] == bytes;
  }

  /**
   One end seals its variables, the other unseals into its own. Every variable
   bound by reference receives the value sent; the by-value one keeps its old value.
   */
  method Exchange(sender: Endpoint, receiver: Endpoint, kind: WrapperKind, sent: seq<Cell>, received: seq<Cell>, key: Key)
    returns (buf: Buffer?)
    requires Lawful(sender.prims) && Inverts(sender.cipher)
    requires receiver.prims == sender.prims && receiver.cipher == sender.cipher && sender.pool != receiver.pool
    requires |sent| == |received| == |Fields(kind)| && DistinctCells(received)
    requires AllAdmissible(sender.prims, Fields(kind), ValuesOf(sent))
    requires sender.cipher.enc(key, WireText(sender.prims, kind, ValuesOf(sent))).Some?
    modifies sender.pool, receiver.pool, received
    ensures buf != null
    ensures forall i: nat | i < |received| ::
              received[i].value == if kind.RegisterUserCltRegReq? && i == 0 then old(received[i].value) else old(sent[i].value)
    ensures sender.pool.live == old(sender.pool.live)
    ensures receiver.pool.live == old(receiver.pool.live) + {buf}
  {
    var request := new Wrapper(kind, sent);
    ghost var vs := ValuesOf(sent);
    assert request.Values() == vs;
    var code, handed := sender.EncryptSend(request, key, true);
    UnsealSeal(sender.prims, sender.cipher, key, kind, vs);
    var response := new Wrapper(kind, received);
    buf := receiver.DecryptWrapperMsg(response, key, handed.value);
    assert response.Values() == vs;
    forall i: nat | i < |received|
      ensures received[i].value == if kind.RegisterUserCltRegReq? && i == 0 then old(received[i].value) else old(sent[i].value)
    {
      assert response.Values()[i] == vs[i];
    }
  }
}
