/**
 Field lists and their encoding. The byte format of the basic fields is library
 code outside the repository; here it is a parameter, `Prims`, with its laws.
 What the repository fixes is the order of the fields and the nesting of lists.
 */
module Codec {
  import opened Options

  newtype Byte = x: int | 0 <= x < 0x100

  /** The basic fields; `Count` is the length prefix of a list. */
  datatype Prim = U32 | I32 | ShortBlob | Blob | Count

  datatype Scalar = Num(n: int) | Bytes(b: seq<Byte>)

  datatype Shape = Basic(p: Prim) | List(elem: Shape)

  datatype Value = Leaf(s: Scalar) | Items(vs: seq<Value>)

  /** `admits` says which values a field can carry; `dec` also returns how many bytes it used. */
  datatype Prims = Prims(
    admits: (Prim, Scalar) -> bool,
    size: (Prim, Scalar) -> nat,
    enc: (Prim, Scalar) -> seq<Byte>,
    dec: (Prim, seq<Byte>) -> Option<(Scalar, nat)>)

  /** A basic field is as long as announced and decodes from the front of any longer input. */
  ghost predicate Lawful(c: Prims) {
    forall p, s, rest: seq<Byte> {:trigger c.dec(p, c.enc(p, s) + rest)} | c.admits(p, s) ::
      |c.enc(p, s)| == c.size(p, s) && c.dec(p, c.enc(p, s) + rest) == Some((s, |c.enc(p, s)|))
  }

  lemma LawfulAt(c: Prims, p: Prim, s: Scalar, rest: seq<Byte>)
    requires Lawful(c) && c.admits(p, s)
    ensures |c.enc(p, s)| == c.size(p, s) && c.dec(p, c.enc(p, s) + rest) == Some((s, |c.enc(p, s)|))
  {
  }

  predicate Admissible(c: Prims, sh: Shape, v: Value)
    decreases v
  {
    match (sh, v)
    case (Basic(p), Leaf(s)) => c.admits(p, s)
    case (List(e), Items(vs)) => c.admits(Count, Num(|vs|)) && forall x | x in vs :: Admissible(c, e, x)
    case _ => false
  }

  predicate AllAdmissible(c: Prims, shapes: seq<Shape>, vs: seq<Value>) {
    |shapes| == |vs| && forall i | 0 <= i < |vs| :: Admissible(c, shapes[i], vs[i])
  }

  // ---------- first pass: size ----------

  function Size(c: Prims, sh: Shape, v: Value): nat
    requires Admissible(c, sh, v)
    decreases v
  {
    match sh
    case Basic(p) => c.size(p, v.s)
    case List(e) => c.size(Count, Num(|v.vs|)) + SizeList(c, e, v.vs)
  }

  function SizeList(c: Prims, e: Shape, vs: seq<Value>): nat
    requires forall x | x in vs :: Admissible(c, e, x)
    decreases vs
  {
    if vs == [] then 0 else Size(c, e, vs[0]) + SizeList(c, e, vs[1..])
  }

  function SizeFields(c: Prims, shapes: seq<Shape>, vs: seq<Value>): nat
    requires AllAdmissible(c, shapes, vs)
  {
    if vs == [] then 0 else Size(c, shapes[0], vs[0]) + SizeFields(c, shapes[1..], vs[1..])
  }

  // ---------- second pass: bytes ----------

  function Encode(c: Prims, sh: Shape, v: Value): seq<Byte>
    requires Admissible(c, sh, v)
    decreases v
  {
    match sh
    case Basic(p) => c.enc(p, v.s)
    case List(e) => c.enc(Count, Num(|v.vs|)) + EncodeList(c, e, v.vs)
  }

  function EncodeList(c: Prims, e: Shape, vs: seq<Value>): seq<Byte>
    requires forall x | x in vs :: Admissible(c, e, x)
    decreases vs
  {
    if vs == [] then [] else Encode(c, e, vs[0]) + EncodeList(c, e, vs[1..])
  }

  function EncodeFields(c: Prims, shapes: seq<Shape>, vs: seq<Value>): seq<Byte>
    requires AllAdmissible(c, shapes, vs)
  {
    if vs == [] then [] else Encode(c, shapes[0], vs[0]) + EncodeFields(c, shapes[1..], vs[1..])
  }

  // ---------- decoding ----------

  function Decode(c: Prims, sh: Shape, input: seq<Byte>): Option<(Value, nat)>
    decreases sh, 0, 0
  {
    match sh
    case Basic(p) => (match c.dec(p, input) case None => None case Some((s, n)) => Some((Leaf(s), n)))
    case List(e) =>
      match c.dec(Count, input)
      case Some((Num(count), n)) =>
        if 0 <= count && n <= |input| then
          match DecodeList(c, e, count, input[n..])
          case None => None
          case Some((vs, m)) => Some((Items(vs), n + m))
        else None
      case _ => None
  }

  function DecodeList(c: Prims, e: Shape, count: nat, input: seq<Byte>): Option<(seq<Value>, nat)>
    decreases e, 1, count
  {
    if count == 0 then Some(([], 0))
    else
      match Decode(c, e, input)
      case None => None
      case Some((v, n)) =>
        if n <= |input| then
          match DecodeList(c, e, count - 1, input[n..])
          case None => None
          case Some((vs, m)) => Some(([v] + vs, n + m))
        else None
  }

  function DecodeFields(c: Prims, shapes: seq<Shape>, input: seq<Byte>): Option<seq<Value>> {
    if shapes == [] then Some([])
    else
      match Decode(c, shapes[0], input)
      case None => None
      case Some((v, n)) =>
        if n <= |input| then
          match DecodeFields(c, shapes[1..], input[n..])
          case None => None
          case Some(vs) => Some([v] + vs)
        else None
  }

  // ---------- the two passes agree ----------

  lemma {:induction false} SizeIsLength(c: Prims, sh: Shape, v: Value)
    requires Lawful(c) && Admissible(c, sh, v)
    ensures Size(c, sh, v) == |Encode(c, sh, v)|
    decreases v
  {
    match sh
    case Basic(p) => LawfulAt(c, p, v.s, []);
    case List(e) =>
      LawfulAt(c, Count, Num(|v.vs|), []);
      SizeListIsLength(c, e, v.vs);
  }

  lemma {:induction false} SizeListIsLength(c: Prims, e: Shape, vs: seq<Value>)
    requires Lawful(c) && forall x | x in vs :: Admissible(c, e, x)
    ensures SizeList(c, e, vs) == |EncodeList(c, e, vs)|
    decreases vs
  {
    if vs != [] {
      SizeIsLength(c, e, vs[0]);
      SizeListIsLength(c, e, vs[1..]);
    }
  }

  /** For every message the size of the first pass is the number of bytes of the second. */
  lemma {:induction false} TwoPassesAgree(c: Prims, shapes: seq<Shape>, vs: seq<Value>)
    requires Lawful(c) && AllAdmissible(c, shapes, vs)
    ensures SizeFields(c, shapes, vs) == |EncodeFields(c, shapes, vs)|
  {
    if vs != [] {
      SizeIsLength(c, shapes[0], vs[0]);
      TwoPassesAgree(c, shapes[1..], vs[1..]);
    }
  }

  // ---------- decoding inverts encoding ----------

  lemma {:induction false} DecodeEncode(c: Prims, sh: Shape, v: Value, rest: seq<Byte>)
    requires Lawful(c) && Admissible(c, sh, v)
    ensures Decode(c, sh, Encode(c, sh, v) + rest) == Some((v, |Encode(c, sh, v)|))
    decreases v
  {
    match sh
    case Basic(p) => LawfulAt(c, p, v.s, rest);
    case List(e) =>
      var prefix, body := c.enc(Count, Num(|v.vs|)), EncodeList(c, e, v.vs);
      LawfulAt(c, Count, Num(|v.vs|), body + rest);
      assert Encode(c, sh, v) + rest == prefix + (body + rest);
      assert (prefix + (body + rest))[|prefix|..] == body + rest;
      DecodeEncodeList(c, e, v.vs, rest);
  }

  lemma {:induction false} DecodeEncodeList(c: Prims, e: Shape, vs: seq<Value>, rest: seq<Byte>)
    requires Lawful(c) && forall x | x in vs :: Admissible(c, e, x)
    ensures DecodeList(c, e, |vs|, EncodeList(c, e, vs) + rest) == Some((vs, |EncodeList(c, e, vs)|))
    decreases vs
  {
    if vs != [] {
      var first, others := Encode(c, e, vs[0]), EncodeList(c, e, vs[1..]);
      DecodeEncode(c, e, vs[0], others + rest);
      assert EncodeList(c, e, vs) + rest == first + (others + rest);
      assert (first + (others + rest))[|first|..] == others + rest;
      DecodeEncodeList(c, e, vs[1..], rest);
      assert vs == [vs[0]] + vs[1..];
    }
  }

  /** Decoding an encoded field list gives the values back, whatever follows in the buffer. */
  lemma {:induction false} DecodeEncodeFields(c: Prims, shapes: seq<Shape>, vs: seq<Value>, rest: seq<Byte>)
    requires Lawful(c) && AllAdmissible(c, shapes, vs)
    ensures DecodeFields(c, shapes, EncodeFields(c, shapes, vs) + rest) == Some(vs)
  {
    if vs != [] {
      var first, others := Encode(c, shapes[0], vs[0]), EncodeFields(c, shapes[1..], vs[1..]);
      DecodeEncode(c, shapes[0], vs[0], others + rest);
      assert EncodeFields(c, shapes, vs) + rest == first + (others + rest);
      assert (first + (others + rest))[|first|..] == others + rest;
      DecodeEncodeFields(c, shapes[1..], vs[1..], rest);
      assert vs == [vs[0]] + vs[1..];
    }
  }

  // ---------- what is where ----------

  /** The bytes of one basic field. */
  function BasicBytes(c: Prims, p: Prim, v: Value): seq<Byte> {
    if v.Leaf? then c.enc(p, v.s) else []
  }

  /** The bytes of basic values, one after the other. */
  function Elements(c: Prims, p: Prim, vs: seq<Value>): seq<Byte> {
    if vs == [] then [] else BasicBytes(c, p, vs[0]) + Elements(c, p, vs[1..])
  }

  /** The bytes of a list of basic values: their number, then each of them. */
  function ListBytes(c: Prims, p: Prim, v: Value): seq<Byte> {
    if v.Items? then c.enc(Count, Num(|v.vs|)) + Elements(c, p, v.vs) else []
  }

  lemma {:induction false} ListIsElements(c: Prims, p: Prim, vs: seq<Value>)
    requires forall x | x in vs :: Admissible(c, Basic(p), x)
    ensures EncodeList(c, Basic(p), vs) == Elements(c, p, vs)
  {
    if vs != [] {
      assert vs[0] in vs && Admissible(c, Basic(p), vs[0]);
      assert Encode(c, Basic(p), vs[0]) == BasicBytes(c, p, vs[0]);
      ListIsElements(c, p, vs[1..]);
    }
  }

  /** One field alone: the bytes of the field format, or the list's number and elements. */
  lemma EncodeOne(c: Prims, p: Prim, v: Value)
    ensures AllAdmissible(c, [Basic(p)], [v]) ==> EncodeFields(c, [Basic(p)], [v]) == BasicBytes(c, p, v)
    ensures AllAdmissible(c, [List(Basic(p))], [v]) ==> EncodeFields(c, [List(Basic(p))], [v]) == ListBytes(c, p, v)
  {
    if AllAdmissible(c, [Basic(p)], [v]) {
      assert Admissible(c, [Basic(p)][0], [v][0]);
      assert EncodeFields(c, [Basic(p)], [v]) == Encode(c, Basic(p), v) + [];
    }
    if AllAdmissible(c, [List(Basic(p))], [v]) {
      assert Admissible(c, [List(Basic(p))][0], [v][0]);
      assert EncodeFields(c, [List(Basic(p))], [v]) == Encode(c, List(Basic(p)), v) + [];
      ListIsElements(c, p, v.vs);
    }
  }

  /** A list of anything: its number, then its elements as if each were a field. */
  lemma {:induction false} ListIsFields(c: Prims, e: Shape, vs: seq<Value>)
    requires forall x | x in vs :: Admissible(c, e, x)
    ensures AllAdmissible(c, seq(|vs|, _ => e), vs)
    ensures EncodeList(c, e, vs) == EncodeFields(c, seq(|vs|, _ => e), vs)
    ensures Admissible(c, List(e), Items(vs)) ==> Encode(c, List(e), Items(vs)) == c.enc(Count, Num(|vs|)) + EncodeFields(c, seq(|vs|, _ => e), vs)
  {
    if vs != [] {
      var shapes := seq(|vs|, _ => e);
      assert shapes[1..] == seq(|vs| - 1, _ => e);
      ListIsFields(c, e, vs[1..]);
    }
  }

  lemma AppendAdmissible(c: Prims, s1: seq<Shape>, v1: seq<Value>, s2: seq<Shape>, v2: seq<Value>)
    requires AllAdmissible(c, s1, v1) && AllAdmissible(c, s2, v2)
    ensures AllAdmissible(c, s1 + s2, v1 + v2)
  {
  }

  lemma EncodeFirst(c: Prims, sh: Shape, v: Value, shapes: seq<Shape>, vs: seq<Value>)
    requires AllAdmissible(c, [sh] + shapes, [v] + vs)
    ensures Admissible(c, sh, v) && AllAdmissible(c, shapes, vs)
    ensures EncodeFields(c, [sh] + shapes, [v] + vs) == Encode(c, sh, v) + EncodeFields(c, shapes, vs)
  {
    var s, w := [sh] + shapes, [v] + vs;
    assert s[0] == sh && w[0] == v && s[1..] == shapes && w[1..] == vs;
    assert Admissible(c, s[0], w[0]);
    forall i | 0 <= i < |vs|
      ensures Admissible(c, shapes[i], vs[i])
    {
      assert Admissible(c, s[i + 1], w[i + 1]);
    }
  }

  /** Fields follow each other in the order in which they are bound. */
  lemma {:induction false} EncodeAppend(c: Prims, s1: seq<Shape>, v1: seq<Value>, s2: seq<Shape>, v2: seq<Value>)
    requires AllAdmissible(c, s1, v1) && AllAdmissible(c, s2, v2)
    ensures AllAdmissible(c, s1 + s2, v1 + v2)
    ensures EncodeFields(c, s1 + s2, v1 + v2) == EncodeFields(c, s1, v1) + EncodeFields(c, s2, v2)
  {
    AppendAdmissible(c, s1, v1, s2, v2);
    if v1 == [] {
      assert s1 + s2 == s2 && v1 + v2 == v2;
    } else {
      var sh, v, shapes, vs := s1[0], v1[0], s1[1..], v1[1..];
      assert s1 == [sh] + shapes && v1 == [v] + vs;
      assert s1 + s2 == [sh] + (shapes + s2) && v1 + v2 == [v] + (vs + v2);
      EncodeFirst(c, sh, v, shapes, vs);
      EncodeFirst(c, sh, v, shapes + s2, vs + v2);
      EncodeAppend(c, shapes, vs, s2, v2);
      Associates(Encode(c, sh, v), EncodeFields(c, shapes, vs), EncodeFields(c, s2, v2));
    }
  }

  /** Elements of a list follow each other in order, too. */
  lemma {:induction false} ElementsAppend(c: Prims, p: Prim, a: seq<Value>, b: seq<Value>)
    ensures Elements(c, p, a + b) == Elements(c, p, a) + Elements(c, p, b)
  {
    if a == [] {
      assert a + b == b;
    } else {
      ElementsAppend(c, p, a[1..], b);
      assert (a + b)[0] == a[0] && (a + b)[1..] == a[1..] + b;
      Associates(BasicBytes(c, p, a[0]), Elements(c, p, a[1..]), Elements(c, p, b));
    }
  }

  lemma Associates(a: seq<Byte>, b: seq<Byte>, d: seq<Byte>)
    ensures a + b + d == a + (b + d)
  {
  }

  lemma OneElement(c: Prims, p: Prim, v: Value)
    ensures Elements(c, p, [v]) == BasicBytes(c, p, v)
  {
    assert [v][1..] == [];
  }

  /** Field `i` is read from `at[i]` and ends at `at[i + 1]`. */
  ghost predicate ReadAt(c: Prims, shapes: seq<Shape>, vs: seq<Value>, input: seq<Byte>, at: seq<nat>) {
    && |vs| == |shapes| && |at| == |shapes| + 1 && at[0] == 0
    && (forall i: nat | i < |shapes| :: ReadOne(c, shapes, vs, input, at, i))
  }

  ghost predicate ReadOne(c: Prims, shapes: seq<Shape>, vs: seq<Value>, input: seq<Byte>, at: seq<nat>, i: nat)
    requires i < |shapes| == |vs| && |at| == |shapes| + 1
  {
    at[i] <= at[i + 1] <= |input| && Decode(c, shapes[i], input[at[i]..]) == Some((vs[i], at[i + 1] - at[i]))
  }

  /** Decoding reads the fields one after the other, and succeeds exactly if each can be read where the one before ended. */
  lemma {:induction false} DecodeReads(c: Prims, shapes: seq<Shape>, input: seq<Byte>, vs: seq<Value>)
    ensures DecodeFields(c, shapes, input) == Some(vs) <==> exists at: seq<nat> :: ReadAt(c, shapes, vs, input, at)
    decreases |shapes|
  {
    if shapes == [] {
      var start: seq<nat> := [0];
      assert vs == [] ==> ReadAt(c, shapes, vs, input, start);
    } else {
      if DecodeFields(c, shapes, input) == Some(vs) {
        var (v, n) := Decode(c, shapes[0], input).value;
        DecodeReads(c, shapes[1..], input[n..], vs[1..]);
        var rest: seq<nat> :| ReadAt(c, shapes[1..], vs[1..], input[n..], rest);
        ReadFirst(c, shapes, vs, input, n, rest);
      }
      if at: seq<nat> :| ReadAt(c, shapes, vs, input, at) {
        assert ReadOne(c, shapes, vs, input, at, 0);
        assert input[0..] == input;
        ReadRest(c, shapes, vs, input, at);
        DecodeReads(c, shapes[1..], input[at[1]..], vs[1..]);
        assert vs == [vs[0]] + vs[1..];
      }
    }
  }

  lemma ReadFirst(c: Prims, shapes: seq<Shape>, vs: seq<Value>, input: seq<Byte>, n: nat, rest: seq<nat>)
    requires shapes != [] && vs != [] && n <= |input| && Decode(c, shapes[0], input) == Some((vs[0], n))
    requires ReadAt(c, shapes[1..], vs[1..], input[n..], rest)
    ensures ReadAt(c, shapes, vs, input, [0] + seq(|rest|, i requires 0 <= i < |rest| => rest[i] + n))
  {
    var at := [0] + seq(|rest|, i requires 0 <= i < |rest| => rest[i] + n);
    forall i: nat | i < |shapes|
      ensures ReadOne(c, shapes, vs, input, at, i)
    {
      if i == 0 {
        assert input[0..] == input;
      } else {
        assert ReadOne(c, shapes[1..], vs[1..], input[n..], rest, i - 1);
        assert input[n..][rest[i - 1]..] == input[at[i]..];
      }
    }
  }

  lemma ReadRest(c: Prims, shapes: seq<Shape>, vs: seq<Value>, input: seq<Byte>, at: seq<nat>)
    requires shapes != [] && ReadAt(c, shapes, vs, input, at)
    ensures at[1] <= |input| && forall i | 1 <= i < |at| :: at[1] <= at[i]
    ensures ReadAt(c, shapes[1..], vs[1..], input[at[1]..], seq(|shapes|, i requires 0 <= i < |shapes| => if at[i + 1] >= at[1] then at[i + 1] - at[1] else 0))
  {
    OffsetsGrow(c, shapes, vs, input, at, |shapes|);
    assert ReadOne(c, shapes, vs, input, at, 0);
    var n := at[1];
    var rest := seq(|shapes|, i requires 0 <= i < |shapes| => if at[i + 1] >= n then at[i + 1] - n else 0);
    forall i: nat | i < |shapes| - 1
      ensures ReadOne(c, shapes[1..], vs[1..], input[n..], rest, i)
    {
      assert ReadOne(c, shapes, vs, input, at, i + 1);
      assert input[n..][rest[i]..] == input[at[i + 1]..];
    }
  }

  lemma {:induction false} OffsetsGrow(c: Prims, shapes: seq<Shape>, vs: seq<Value>, input: seq<Byte>, at: seq<nat>, k: nat)
    requires shapes != [] && ReadAt(c, shapes, vs, input, at) && 1 <= k < |at|
    ensures forall i | 1 <= i <= k :: at[1] <= at[i]
  {
    if k > 1 {
      OffsetsGrow(c, shapes, vs, input, at, k - 1);
      assert ReadOne(c, shapes, vs, input, at, k - 1);
    }
  }

  // ---------- the laws can be met ----------

  predicate TinyAdmits(p: Prim, s: Scalar) {
    match s
    case Num(n) => !p.ShortBlob? && !p.Blob? && 0 <= n < 0x100
    case Bytes(b) => (p.ShortBlob? || p.Blob?) && |b| < 0x100
  }

  function TinyEnc(p: Prim, s: Scalar): seq<Byte> {
    if !TinyAdmits(p, s) then []
    else match s
      case Num(n) => [n as Byte]
      case Bytes(b) => [|b| as Byte] + b
  }

  function TinyDec(p: Prim, input: seq<Byte>): Option<(Scalar, nat)> {
    if input == [] then None
    else if !p.ShortBlob? && !p.Blob? then Some((Num(input[0] as int), 1))
    else if 1 + input[0] as int <= |input| then Some((Bytes(input[1..1 + input[0] as int]), 1 + input[0] as int))
    else None
  }

  /** One byte for a number or a length: a format, if a small one, that obeys the laws. */
  lemma LawsCanBeMet()
    ensures Lawful(Prims(TinyAdmits, (p, s) => |TinyEnc(p, s)|, TinyEnc, TinyDec))
  {
    forall p, s, rest: seq<Byte> | TinyAdmits(p, s)
      ensures TinyDec(p, TinyEnc(p, s) + rest) == Some((s, |TinyEnc(p, s)|))
    {
      if s.Bytes? {
        assert (TinyEnc(p, s) + rest)[1..1 + |s.b|] == s.b;
      }
    }
  }
}
