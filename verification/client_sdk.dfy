/** The SDK's two-pass message encoder and the ownership of the messages it sends. */
module ClientSdk {
  import opened Options
  import opened Codec

  /** `CDscMsg`. */
  class DscMsg {
    const body: array<Byte>
    var srcNodeType: int
    var srcNodeId: int
    var desAddr: nat
    var msgType: nat

    constructor (size: nat)
      ensures body.Length == size && fresh(body)
    {
      body := new Byte[size];
    }
  }

  /** `CDscEncodeState`: counts in the first pass, writes to the buffer in the second. */
  class EncodeState {
    const prims: Prims
    var size: nat
    var buffer: array<Byte>
    var used: nat

    constructor (prims: Prims)
      ensures this.prims == prims && size == 0 && used == 0 && fresh(buffer)
    {
      this.prims := prims;
      size, used := 0, 0;
      buffer := new Byte[0];
    }

    method CountValue(sh: Shape, v: Value)
      requires Admissible(prims, sh, v)
      modifies this`size
      ensures size == old(size) + Size(prims, sh, v)
      decreases v
    {
      match sh
      case Basic(p) => size := size + prims.size(p, v.s);
      case List(e) =>
        size := size + prims.size(Count, Num(|v.vs|));
        for i := 0 to |v.vs|
          invariant size + SizeList(prims, e, v.vs[i..]) == old(size) + Size(prims, sh, v)
        {
          CountValue(e, v.vs[i]);
        }
    }

    method CountFields(shapes: seq<Shape>, vs: seq<Value>)
      requires AllAdmissible(prims, shapes, vs)
      modifies this`size
      ensures size == old(size) + SizeFields(prims, shapes, vs)
    {
      for i := 0 to |vs|
        invariant size + SizeFields(prims, shapes[i..], vs[i..]) == old(size) + SizeFields(prims, shapes, vs)
      {
        CountValue(shapes[i], vs[i]);
      }
    }

    method WriteBytes(bytes: seq<Byte>)
      requires used + |bytes| <= buffer.Length
      modifies this`used, buffer
      ensures used == old(used) + |bytes|
      ensures buffer[..used] == old(buffer[..used]) + bytes
    {
      var start := used;
      for i := 0 to |bytes|
        invariant used == start + i
        invariant buffer[..used] == old(buffer[..used]) + bytes[..i]
      {
        buffer[used] := bytes[i];
        used := used + 1;
      }
    }

    method WriteValue(sh: Shape, v: Value)
      requires Admissible(prims, sh, v) && used + |Encode(prims, sh, v)| <= buffer.Length
      modifies this`used, buffer
      ensures used == old(used) + |Encode(prims, sh, v)|
      ensures buffer[..used] == old(buffer[..used]) + Encode(prims, sh, v)
      decreases v
    {
      match sh
      case Basic(p) => WriteBytes(prims.enc(p, v.s));
      case List(e) =>
        WriteBytes(prims.enc(Count, Num(|v.vs|)));
        ghost var full := old(buffer[..used]) + Encode(prims, sh, v);
        for i := 0 to |v.vs|
          invariant used <= buffer.Length && used + |EncodeList(prims, e, v.vs[i..])| == |full|
          invariant buffer[..used] + EncodeList(prims, e, v.vs[i..]) == full
        {
          WriteValue(e, v.vs[i]);
        }
    }

    method WriteFields(shapes: seq<Shape>, vs: seq<Value>)
      requires AllAdmissible(prims, shapes, vs) && used + |EncodeFields(prims, shapes, vs)| <= buffer.Length
      modifies this`used, buffer
      ensures used == old(used) + |EncodeFields(prims, shapes, vs)|
      ensures buffer[..used] == old(buffer[..used]) + EncodeFields(prims, shapes, vs)
    {
      ghost var full := old(buffer[..used]) + EncodeFields(prims, shapes, vs);
      for i := 0 to |vs|
        invariant used <= buffer.Length && used + |EncodeFields(prims, shapes[i..], vs[i..])| == |full|
        invariant buffer[..used] + EncodeFields(prims, shapes[i..], vs[i..]) == full
      {
        WriteValue(shapes[i], vs[i]);
      }
    }
  }

  /** `CDscMsg::CDscMsgAddr` and message types are numbers; the node identity is the application's. */
  datatype Node = Node(nodeType: int, nodeId: int)

  /**
   The messages that were allocated and not yet given back, and those of them that
   the communication layer has taken over.
   */
  class Messages {
    ghost var outstanding: set<DscMsg>
    ghost var inTransit: set<DscMsg>

    /** Nothing is lost: whatever is outstanding is under way. */
    ghost predicate Settled()
      reads this
    {
      outstanding == inTransit
    }

    constructor ()
      ensures Settled()
    {
      outstanding, inTransit := {}, {};
    }

    /** `available` is whether the allocator has a block. */
    method Allocate(size: nat, available: bool) returns (msg: DscMsg?)
      modifies this`outstanding
      ensures msg == null <==> !available
      ensures msg != null ==> fresh(msg) && fresh(msg.body) && msg.body.Length == size && outstanding == old(outstanding) + {msg}
      ensures msg == null ==> outstanding == old(outstanding)
    {
      msg := null;
      if available {
        msg := new DscMsg(size);
        outstanding := outstanding + {msg};
      }
    }

    method Deallocate(msg: DscMsg)
      requires msg in outstanding - inTransit
      modifies this`outstanding
      ensures outstanding == old(outstanding) - {msg}
    {
      outstanding := outstanding - {msg};
    }

    /** `sent` is what `SendVbhMessage` reports; on success the message is no longer the caller's. */
    method Send(msg: DscMsg, sent: bool)
      requires msg in outstanding - inTransit
      modifies this`inTransit
      ensures inTransit == if sent then old(inTransit) + {msg} else old(inTransit)
    {
      if sent {
        inTransit := inTransit + {msg};
      }
    }

    /** The body is exactly the encoded fields: the second pass neither overruns it nor leaves a gap. */
    method GetDscMsg(prims: Prims, shapes: seq<Shape>, vs: seq<Value>, address: nat, messageType: nat, node: Node, available: bool)
      returns (msg: DscMsg?)
      requires Lawful(prims) && AllAdmissible(prims, shapes, vs)
      modifies this`outstanding
      ensures msg == null <==> !available
      ensures msg == null ==> outstanding == old(outstanding)
      ensures msg != null ==> fresh(msg) && outstanding == old(outstanding) + {msg}
      ensures msg != null ==> msg.body[..] == EncodeFields(prims, shapes, vs)
      ensures msg != null ==> Node(msg.srcNodeType, msg.srcNodeId) == node && msg.desAddr == address && msg.msgType == messageType
    {
      var codeState := new EncodeState(prims);
      codeState.CountFields(shapes, vs);
      TwoPassesAgree(prims, shapes, vs);
      msg := Allocate(codeState.size, available);
      if msg != null {
        codeState.buffer, codeState.used := msg.body, 0;
        codeState.WriteFields(shapes, vs);
        assert msg.body[..msg.body.Length] == msg.body[..];
        msg.srcNodeType := node.nodeType;
        msg.srcNodeId := node.nodeId;
        msg.desAddr := address;
        msg.msgType := messageType;
      }
    }

    /** Success hands over exactly one message; failure, of either kind, leaves nothing behind. */
    method SendVbeMessage(prims: Prims, shapes: seq<Shape>, vs: seq<Value>, messageType: nat, address: nat, node: Node,
                          available: bool, sent: bool) returns (ret: int)
      requires Lawful(prims) && AllAdmissible(prims, shapes, vs) && Settled()
      modifies this
      ensures Settled()
      ensures ret == if available && sent then 0 else -1
      ensures ret == -1 ==> outstanding == old(outstanding)
      ensures ret == 0 ==> exists msg ::
                outstanding == old(outstanding) + {msg} && msg !in old(outstanding) && msg.body[..] == EncodeFields(prims, shapes, vs) &&
                msg.desAddr == address && msg.msgType == messageType && Node(msg.srcNodeType, msg.srcNodeId) == node
    {
      var msg := GetDscMsg(prims, shapes, vs, address, messageType, node, available);
      if msg != null {
        assert msg !in old(outstanding);
        Send(msg, sent);
        if !sent {
          Deallocate(msg);
          return -1;
        } else {
          return 0;
        }
      }
      return -1;
    }
  }
}
