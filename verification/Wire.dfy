/** Messages as bytes: a JSON skeleton with the tensors' bytes beside it, length-prefixed and sealed,
    over an edge that delivers its bytes in pieces of any size. */
module Wire {
  import opened Decode
  import Counting

  type Byte = b: int | 0 <= b < 256

  type Bytes = seq<Byte>

  datatype Result<T> = Ok(value: T) | Err(error: Error)

  datatype Error = Malformed | TooLarge | Closed

  // ----- messages and skeletons -----

  datatype Atom = Null | Bool(b: bool) | Int(i: int) | Float(bits: nat) | Text(s: string)

  /** A message, as the sender builds it; a dictionary is its keys and their values, in order. */
  datatype Value = Plain(atom: Atom) | List(items: seq<Value>) | Tuple(items: seq<Value>) |
                   Dict(keys: seq<string>, items: seq<Value>) | Tensor(dtype: string, shape: seq<nat>, data: Bytes)

  /** What JSON can carry. */
  datatype Node = Leaf(atom: Atom) | Arr(items: seq<Node>) | Obj(keys: seq<string>, items: seq<Node>)

  const MARK := "__t__"

  /** Bytes per element, for the types the receiver knows. */
  function ElementSize(dtype: string): (n: nat) {
    if dtype == "torch.float32" || dtype == "torch.int32" then 4
    else if dtype == "torch.float16" || dtype == "torch.bfloat16" then 2
    else if dtype == "torch.int64" then 8
    else if dtype == "torch.float8_e4m3fn" || dtype == "torch.float8_e5m2" || dtype == "torch.uint8" ||
            dtype == "torch.bool" then 1
    else 0
  }

  /** The nine types that travel, and no others. */
  lemma {:induction false} ElementSizes(dtype: string)
    ensures ElementSize("torch.float32") == 4 && ElementSize("torch.int32") == 4 && ElementSize("torch.int64") == 8
    ensures ElementSize("torch.float16") == 2 && ElementSize("torch.bfloat16") == 2
    ensures ElementSize("torch.float8_e4m3fn") == 1 && ElementSize("torch.float8_e5m2") == 1
    ensures ElementSize("torch.uint8") == 1 && ElementSize("torch.bool") == 1
    ensures Known(dtype) <==>
            dtype in ["torch.float32", "torch.int32", "torch.int64", "torch.float16", "torch.bfloat16",
                      "torch.float8_e4m3fn", "torch.float8_e5m2", "torch.uint8", "torch.bool"]
  {
  }

  predicate Known(dtype: string) {
    ElementSize(dtype) > 0
  }

  function Elements(shape: seq<nat>): nat {
    if shape == [] then 1 else Elements(shape[..|shape| - 1]) * shape[|shape| - 1]
  }

  /** A dimension more in front multiplies the rest. */
  lemma {:induction false} ElementsFront(d: nat, shape: seq<nat>)
    ensures Elements([]) == 1 && Elements([d] + shape) == d * Elements(shape)
    decreases |shape|
  {
    if shape == [] {
      assert [d][..0] == [] && [d] + shape == [d];
    } else {
      var n := |shape| - 1;
      ElementsFront(d, shape[..n]);
      assert ([d] + shape)[..n + 1] == [d] + shape[..n];
      assert d * Elements(shape[..n]) * shape[n] == d * (Elements(shape[..n]) * shape[n]);
    }
  }

  function Get(keys: seq<string>, items: seq<Node>, key: string): Result<Node> {
    if keys == [] || items == [] then Err(Malformed)
    else if keys[0] == key then Ok(items[0])
    else Get(keys[1..], items[1..], key)
  }

  /** One value a key, and no key twice. */
  predicate Keyed(keys: seq<string>, n: nat) {
    |keys| == n && forall i, j :: 0 <= i < j < n ==> keys[i] != keys[j]
  }

  /** A tensor of a known type has as many bytes as its shape says; a dictionary has one value a key. */
  predicate Genuine(o: Value) {
    match o
    case Plain(_) => true
    case List(items) => forall i :: 0 <= i < |items| ==> Genuine(items[i])
    case Tuple(items) => forall i :: 0 <= i < |items| ==> Genuine(items[i])
    case Dict(keys, items) => Keyed(keys, |items|) && forall i :: 0 <= i < |items| ==> Genuine(items[i])
    case Tensor(dtype, shape, data) => Known(dtype) ==> |data| == Elements(shape) * ElementSize(dtype)
  }

  /** No dictionary uses the reserved key, and every tensor has a type the receiver knows. */
  predicate Sendable(o: Value) {
    match o
    case Plain(_) => true
    case List(items) => forall i :: 0 <= i < |items| ==> Sendable(items[i])
    case Tuple(items) => forall i :: 0 <= i < |items| ==> Sendable(items[i])
    case Dict(keys, items) => MARK !in keys && forall i :: 0 <= i < |items| ==> Sendable(items[i])
    case Tensor(dtype, _, _) => Known(dtype)
  }

  /** What a message is once received: the same, with every tuple a list. */
  function Received(o: Value): Value {
    match o
    case Plain(_) => o
    case List(items) => List(ReceivedAll(items))
    case Tuple(items) => List(ReceivedAll(items))
    case Dict(keys, items) => Dict(keys, ReceivedAll(items))
    case Tensor(_, _, _) => o
  }

  function ReceivedAll(items: seq<Value>): (r: seq<Value>)
    ensures |r| == |items|
  {
    if items == [] then [] else [Received(items[0])] + ReceivedAll(items[1..])
  }

  /** A skeleton JSON can carry: one value a key in every object. */
  predicate WellFormed(x: Node) {
    match x
    case Leaf(_) => true
    case Arr(items) => AllWellFormed(items)
    case Obj(keys, items) => Keyed(keys, |items|) && AllWellFormed(items)
  }

  predicate AllWellFormed(items: seq<Node>) {
    forall i :: 0 <= i < |items| ==> WellFormed(items[i])
  }

  // ----- the codec -----

  function ShapeNode(shape: seq<nat>): Node {
    Arr(seq(|shape|, i requires 0 <= i < |shape| => Leaf(Int(shape[i]))))
  }

  function TensorNode(n: nat, dtype: string, shape: seq<nat>): Node {
    Obj([MARK, "dtype", "shape"], [Leaf(Int(n)), Leaf(Text(dtype)), ShapeNode(shape)])
  }

  /** The skeleton of a message, and its tensors' bytes, numbered from n on. */
  function Encode(o: Value, n: nat): (Node, seq<Bytes>) {
    match o
    case Plain(a) => (Leaf(a), [])
    case List(items) => var (ns, bs) := EncodeAll(items, n); (Arr(ns), bs)
    case Tuple(items) => var (ns, bs) := EncodeAll(items, n); (Arr(ns), bs)
    case Dict(keys, items) => var (ns, bs) := EncodeAll(items, n); (Obj(keys, ns), bs)
    case Tensor(dtype, shape, data) => (TensorNode(n, dtype, shape), [data])
  }

  function EncodeAll(items: seq<Value>, n: nat): (r: (seq<Node>, seq<Bytes>))
    ensures |r.0| == |items|
  {
    if items == [] then ([], [])
    else
      var (x, bs) := Encode(items[0], n);
      var (xs, more) := EncodeAll(items[1..], n + |bs|);
      ([x] + xs, bs + more)
  }

  /** The sender writes only skeletons JSON can carry. */
  lemma {:induction false} EncodeWellFormed(o: Value, n: nat)
    requires Genuine(o)
    ensures WellFormed(Encode(o, n).0)
    decreases o, 0
  {
    match o
    case Plain(_) =>
    case List(items) =>
      EncodeAllWellFormed(items, n);
      assert WellFormed(Arr(EncodeAll(items, n).0));
    case Tuple(items) =>
      EncodeAllWellFormed(items, n);
      assert WellFormed(Arr(EncodeAll(items, n).0));
    case Dict(keys, items) =>
      EncodeAllWellFormed(items, n);
      assert WellFormed(Obj(keys, EncodeAll(items, n).0));
    case Tensor(dtype, shape, _) => TensorWellFormed(n, dtype, shape);
  }

  lemma {:induction false} TensorWellFormed(n: nat, dtype: string, shape: seq<nat>)
    ensures WellFormed(TensorNode(n, dtype, shape))
  {
    assert MARK[0] != "dtype"[0] && MARK[0] != "shape"[0] && "dtype"[0] != "shape"[0];
    assert WellFormed(ShapeNode(shape));
  }

  lemma {:induction false} EncodeAllWellFormed(items: seq<Value>, n: nat)
    requires forall i :: 0 <= i < |items| ==> Genuine(items[i])
    ensures AllWellFormed(EncodeAll(items, n).0)
    decreases items, 1
  {
    hide WellFormed, Genuine;
    if items != [] {
      var (x, bs) := Encode(items[0], n);
      EncodeWellFormed(items[0], n);
      assert WellFormed(x);
      EncodeAllWellFormed(items[1..], n + |bs|);
      assert EncodeAll(items, n).0 == [x] + EncodeAll(items[1..], n + |bs|).0;
    }
  }

  /** A tensor index or dimension: JSON's true and false count as 1 and 0. */
  function AsInt(x: Node): Result<int> {
    match x
    case Leaf(Int(i)) => Ok(i)
    case Leaf(Bool(b)) => Ok(if b then 1 else 0)
    case _ => Err(Malformed)
  }

  function Dims(items: seq<Node>): (r: Result<seq<nat>>)
    ensures r.Ok? ==> |r.value| == |items|
  {
    if items == [] then Ok([])
    else
      match (AsInt(items[0]), Dims(items[1..]))
      case (Ok(d), Ok(ds)) => if d >= 0 then Ok([d] + ds) else Err(Malformed)
      case _ => Err(Malformed)
  }

  /** List indexing: negative indices count from the end. */
  function Pick<T>(s: seq<T>, i: int): Result<T> {
    if 0 <= i < |s| then Ok(s[i])
    else if -|s| <= i < 0 then Ok(s[|s| + i])
    else Err(Malformed)
  }

  /** A blob's number may also count from the end, and true and false count as 1 and 0. */
  lemma {:induction false} OtherNumbers(blobs: seq<Bytes>, i: int)
    ensures -|blobs| <= i < 0 ==> Pick(blobs, i) == Ok(blobs[|blobs| + i])
    ensures 0 <= i < |blobs| ==> Pick(blobs, i) == Ok(blobs[i])
    ensures i < -|blobs| || i >= |blobs| ==> Pick(blobs, i).Err?
    ensures AsInt(Leaf(Bool(true))) == Ok(1) && AsInt(Leaf(Bool(false))) == Ok(0)
  {
  }

  /** A marked object is a tensor, if its type is known and its bytes are exactly what its shape needs. */
  function DecodeTensor(keys: seq<string>, items: seq<Node>, blobs: seq<Bytes>): (r: Result<Value>)
    ensures r.Ok? ==> r.value.Tensor? && Known(r.value.dtype) && Genuine(r.value)
  {
    match (Get(keys, items, MARK), Get(keys, items, "dtype"), Get(keys, items, "shape"))
    case (Ok(at), Ok(Leaf(Text(dtype))), Ok(Arr(dims))) =>
      (match (AsInt(at), Dims(dims))
       case (Ok(i), Ok(shape)) =>
         (match Pick(blobs, i)
          case Ok(data) =>
            if Known(dtype) && Elements(shape) * ElementSize(dtype) == |data|
              then Ok(Tensor(dtype, shape, data)) else Err(Malformed)
          case Err(e) => Err(e))
       case _ => Err(Malformed))
    case _ => Err(Malformed)
  }

  function DecodeNode(x: Node, blobs: seq<Bytes>): Result<Value> {
    match x
    case Leaf(a) => Ok(Plain(a))
    case Arr(items) => (match DecodeAll(items, blobs) case Ok(vs) => Ok(List(vs)) case Err(e) => Err(e))
    case Obj(keys, items) =>
      if MARK in keys then DecodeTensor(keys, items, blobs)
      else (match DecodeAll(items, blobs) case Ok(vs) => Ok(Dict(keys, vs)) case Err(e) => Err(e))
  }

  function DecodeAll(items: seq<Node>, blobs: seq<Bytes>): (r: Result<seq<Value>>)
    ensures r.Ok? ==> |r.value| == |items|
  {
    if items == [] then Ok([])
    else
      match DecodeNode(items[0], blobs)
      case Err(e) => Err(e)
      case Ok(v) => (match DecodeAll(items[1..], blobs) case Ok(vs) => Ok([v] + vs) case Err(e) => Err(e))
  }

  // ----- the codec's round trip -----

  /** The blobs of a message, wherever they stand among all. */
  predicate Beside(blobs: seq<Bytes>, n: nat, own: seq<Bytes>) {
    n + |own| <= |blobs| && blobs[n..n + |own|] == own
  }

  lemma {:induction false} ShapeReads(shape: seq<nat>)
    ensures ShapeNode(shape).Arr? && Dims(ShapeNode(shape).items) == Ok(shape)
    decreases shape
  {
    if shape != [] {
      ShapeReads(shape[1..]);
      assert ShapeNode(shape).items[1..] == ShapeNode(shape[1..]).items;
      assert shape == [shape[0]] + shape[1..];
    }
  }

  lemma {:induction false} TensorReads(n: nat, dtype: string, shape: seq<nat>, data: Bytes, blobs: seq<Bytes>)
    requires Beside(blobs, n, [data])
    requires Known(dtype) ==> |data| == Elements(shape) * ElementSize(dtype)
    ensures DecodeNode(TensorNode(n, dtype, shape), blobs) ==
            if Known(dtype) then Ok(Tensor(dtype, shape, data)) else Err(Malformed)
  {
    ShapeReads(shape);
    var keys, items := TensorNode(n, dtype, shape).keys, TensorNode(n, dtype, shape).items;
    assert keys[1..] == ["dtype", "shape"] && items[1..] == [Leaf(Text(dtype)), ShapeNode(shape)];
    assert keys[1..][1..] == ["shape"] && items[1..][1..] == [ShapeNode(shape)];
    assert MARK in keys && blobs[n] == blobs[n..n + 1][0];
    assert Get(keys, items, MARK) == Ok(Leaf(Int(n)));
    assert Get(keys, items, "dtype") == Ok(Leaf(Text(dtype)));
    assert "dtype"[0] != "shape"[0] && MARK[0] != "shape"[0];
    assert Get(keys[1..][1..], items[1..][1..], "shape") == Ok(ShapeNode(shape));
    assert Get(keys[1..], items[1..], "shape") == Ok(ShapeNode(shape));
    assert Get(keys, items, "shape") == Ok(ShapeNode(shape));
  }

  /** Decoding gives the message back exactly when it is sendable. */
  lemma {:induction false} DecodeEncode(o: Value, n: nat, blobs: seq<Bytes>)
    requires Genuine(o) && Beside(blobs, n, Encode(o, n).1)
    ensures DecodeNode(Encode(o, n).0, blobs) == Ok(Received(o)) <==> Sendable(o)
    decreases o, 0
  {
    match o
    case Plain(_) =>
    case List(items) => DecodeEncodeAll(items, n, blobs);
    case Tuple(items) => DecodeEncodeAll(items, n, blobs);
    case Dict(keys, items) => DecodeEncodeAll(items, n, blobs);
    case Tensor(dtype, shape, data) => TensorReads(n, dtype, shape, data, blobs);
  }

  lemma {:induction false} DecodeEncodeAll(items: seq<Value>, n: nat, blobs: seq<Bytes>)
    requires (forall i :: 0 <= i < |items| ==> Genuine(items[i])) && Beside(blobs, n, EncodeAll(items, n).1)
    ensures DecodeAll(EncodeAll(items, n).0, blobs) == Ok(ReceivedAll(items)) <==>
            forall i :: 0 <= i < |items| ==> Sendable(items[i])
    decreases items, 1
  {
    if items != [] {
      var own, rest := Encode(items[0], n).1, EncodeAll(items[1..], n + |Encode(items[0], n).1|).1;
      assert EncodeAll(items, n).1 == own + rest;
      assert blobs[n..n + |own|] == (own + rest)[..|own|];
      assert blobs[n + |own|..n + |own| + |rest|] == (own + rest)[|own|..];
      DecodeEncode(items[0], n, blobs);
      DecodeEncodeAll(items[1..], n + |own|, blobs);
      assert EncodeAll(items, n).0[1..] == EncodeAll(items[1..], n + |own|).0;
      match (DecodeNode(Encode(items[0], n).0, blobs), DecodeAll(EncodeAll(items[1..], n + |own|).0, blobs)) {
        case (Ok(v), Ok(vs)) =>
          assert ([v] + vs)[0] == v && ([v] + vs)[1..] == vs;
          assert ReceivedAll(items)[0] == Received(items[0]) && ReceivedAll(items)[1..] == ReceivedAll(items[1..]);
        case _ =>
      }
      assert (forall i :: 0 <= i < |items| ==> Sendable(items[i])) <==>
             Sendable(items[0]) && forall i :: 0 <= i < |items[1..]| ==> Sendable(items[1..][i]);
    }
  }

  // ----- lengths -----

  /** n in `width` bytes, most significant first. */
  function Big(n: nat, width: nat): (b: Bytes)
    ensures |b| == width
  {
    if width == 0 then [] else Big(n / 256, width - 1) + [n % 256]
  }

  function Number(b: Bytes): nat {
    if b == [] then 0 else Number(b[..|b| - 1]) * 256 + b[|b| - 1]
  }

  /** How many numbers fit in `width` bytes. */
  function Limit(width: nat): (n: nat)
    ensures n > 0
  {
    if width == 0 then 1 else Limit(width - 1) * 256
  }

  lemma {:induction false} NumberBig(n: nat, width: nat)
    requires n < Limit(width)
    ensures Number(Big(n, width)) == n
    decreases width
  {
    if width > 0 {
      NumberBig(n / 256, width - 1);
      assert Big(n, width)[..width - 1] == Big(n / 256, width - 1);
    }
  }

  lemma {:induction false} Limits()
    ensures Limit(0) == 1 && Limit(1) == 256 && Limit(2) == 65536 && Limit(3) == 16777216
    ensures Limit(4) == 4294967296 && Limit(7) == 72057594037927936 && Limit(8) == 18446744073709551616
  {
    assert Limit(5) == 1099511627776;
    assert Limit(6) == 281474976710656;
  }

  /** The digit of weight 256 to the power k. */
  function Digit(n: nat, k: nat): Byte {
    n / Limit(k) % 256
  }

  /** The i-th byte from the front is the digit that as many others follow. */
  lemma {:induction false} BigAt(n: nat, width: nat, i: nat)
    requires i < width
    ensures Big(n, width)[i] == Digit(n, width - 1 - i)
    decreases width
  {
    if i < width - 1 {
      BigAt(n / 256, width - 1, i);
      DividedTwice(n, Limit(width - 2 - i));
    }
  }

  lemma {:induction false} DividedTwice(n: nat, L: nat)
    requires L > 0
    ensures n / 256 / L == n / (L * 256)
  {
    var q, r, s := n / 256 / L, n / 256 % L, n % 256;
    assert n == 256 * (n / 256) + s && n / 256 == L * q + r;
    assert n == q * (L * 256) + (256 * r + s);
    assert 256 * r + s < L * 256;
    Counting.DivisionIs(n, q, 256 * r + s, L * 256);
  }

  /** A length spelled out in its bytes, most significant first. */
  predicate Spells(b: Bytes, n: nat) {
    forall i :: 0 <= i < |b| ==> b[i] == Digit(n, |b| - 1 - i)
  }

  lemma {:induction false} BigSpells(n: nat, width: nat)
    ensures Spells(Big(n, width), n)
  {
    hide Digit, Big;
    var b := Big(n, width);
    forall i | 0 <= i < |b| ensures b[i] == Digit(n, |b| - 1 - i) {
      BigAt(n, width, i);
    }
  }

  // ----- one message's bytes -----

  /** JSON text and sealing, as libraries provide them. */
  datatype Codec = Codec(dumps: Node -> Bytes, loads: Bytes -> Result<Node>, seal: (nat, Bytes) -> Bytes,
                         open: Bytes -> Result<Bytes>)

  ghost predicate Sound(c: Codec) {
    (forall x :: WellFormed(x) ==> c.loads(c.dumps(x)) == Ok(x)) && forall nonce, b :: c.open(c.seal(nonce, b)) == Ok(b)
  }

  /** Blobs one after another, each behind its length. */
  function Joined(blobs: seq<Bytes>): Bytes {
    if blobs == [] then [] else Big(|blobs[0]|, 8) + blobs[0] + Joined(blobs[1..])
  }

  /** The first `n` bytes, or all there are. */
  function Take(b: Bytes, n: nat): Bytes {
    if n <= |b| then b[..n] else b
  }

  function Drop(b: Bytes, n: nat): Bytes {
    if n <= |b| then b[n..] else []
  }

  function Split(b: Bytes): Result<seq<Bytes>>
    decreases |b|
  {
    if b == [] then Ok([])
    else if |b| < 8 then Err(Malformed)
    else
      var size := Number(b[..8]);
      Prepend([Take(b[8..], size)], Split(Drop(b[8..], size)))
  }

  /** A last blob cut short is taken as far as it goes; less than a length is an error. */
  lemma {:induction false} SplitShort(b: Bytes)
    ensures 0 < |b| < 8 ==> Split(b) == Err(Malformed)
    ensures |b| >= 8 && |b| - 8 <= Number(b[..8]) ==> Split(b) == Ok([b[8..]])
  {
    hide Number;
    if |b| >= 8 && |b| - 8 <= Number(b[..8]) {
      assert [b[8..]] + [] == [b[8..]];
      assert Take(b[8..], Number(b[..8])) == b[8..] && Drop(b[8..], Number(b[..8])) == [];
    }
  }

  function Prepend(blobs: seq<Bytes>, rest: Result<seq<Bytes>>): Result<seq<Bytes>> {
    match rest
    case Ok(more) => Ok(blobs + more)
    case Err(e) => Err(e)
  }

  lemma {:induction false} PrependTwice(blobs: seq<Bytes>, b: Bytes, rest: Result<seq<Bytes>>)
    ensures Prepend(blobs, Prepend([b], rest)) == Prepend(blobs + [b], rest) && Prepend([], rest) == rest
  {
    if rest.Ok? {
      assert blobs + ([b] + rest.value) == (blobs + [b]) + rest.value;
      assert [] + rest.value == rest.value;
    }
  }

  predicate Sized(blobs: seq<Bytes>) {
    forall i :: 0 <= i < |blobs| ==> |blobs[i]| < Limit(8)
  }

  lemma {:induction false} SplitJoined(blobs: seq<Bytes>)
    requires Sized(blobs)
    ensures Split(Joined(blobs)) == Ok(blobs)
    decreases blobs
  {
    hide Big, Number, Limit, Split, Joined;
    if blobs == [] {
      SplitNext([]);
      JoinedNext(blobs);
    } else {
      var head, rest := blobs[0], Joined(blobs[1..]);
      NumberBig(|head|, 8);
      JoinedNext(blobs);
      Parts(Big(|head|, 8), head, rest);
      SplitNext(Joined(blobs));
      SplitJoined(blobs[1..]);
      assert blobs == [head] + blobs[1..];
    }
  }

  lemma {:induction false} JoinedNext(blobs: seq<Bytes>)
    ensures Joined(blobs) == if blobs == [] then [] else Big(|blobs[0]|, 8) + blobs[0] + Joined(blobs[1..])
  {
  }

  lemma {:induction false} SplitNext(b: Bytes)
    ensures Split(b) ==
            if b == [] then Ok([])
            else if |b| < 8 then Err(Malformed)
            else Prepend([Take(b[8..], Number(b[..8]))], Split(Drop(b[8..], Number(b[..8]))))
  {
  }

  /** A length, as many bytes, and the rest, taken apart again. */
  lemma {:induction false} Parts(size: Bytes, body: Bytes, rest: Bytes)
    ensures var b := size + body + rest;
            b[..|size|] == size && b[|size|..] == body + rest &&
            Take(b[|size|..], |body|) == body && Drop(b[|size|..], |body|) == rest
  {
    var b := size + body + rest;
    assert b[|size|..] == body + rest;
    assert (body + rest)[..|body|] == body && (body + rest)[|body|..] == rest;
  }

  lemma {:induction false} JoinedMore(blobs: seq<Bytes>, b: Bytes)
    ensures Joined(blobs + [b]) == Joined(blobs) + Big(|b|, 8) + b
    decreases blobs
  {
    hide Big;
    if blobs == [] {
      assert [b][1..] == [];
    } else {
      JoinedMore(blobs[1..], b);
      assert (blobs + [b])[1..] == blobs[1..] + [b];
    }
  }

  function Packed(c: Codec, o: Value): Bytes {
    var (x, blobs) := Encode(o, 0);
    var head := c.dumps(x);
    Big(|head|, 4) + head + Joined(blobs)
  }

  predicate Packable(c: Codec, o: Value) {
    |c.dumps(Encode(o, 0).0)| < Limit(4) && Sized(Encode(o, 0).1)
  }

  /** A message's bytes: the skeleton behind its four length bytes, and the blobs behind it. */
  lemma {:induction false} PackedLayout(c: Codec, o: Value)
    requires Packable(c, o)
    ensures var b, head := Packed(c, o), Head(c, o);
            |b| >= 4 + |head| && Spells(b[..4], |head|) && b[4..4 + |head|] == head &&
            LaysOut(b[4 + |head|..], Encode(o, 0).1) &&
            b[0] == |head| / 16777216 && b[3] == |head| % 256
  {
    hide Big, Spells, LaysOut, Joined, Encode;
    var b, head, blobs := Packed(c, o), Head(c, o), Encode(o, 0).1;
    Limits();
    BigSpells(|head|, 4);
    JoinedLaysOut(blobs);
    assert b[..4] == Big(|head|, 4) && b[4..4 + |head|] == head && b[4 + |head|..] == Joined(blobs);
    FirstAndLast(b[..4], |head|);
  }

  /** Where blob i starts. */
  function Offset(blobs: seq<Bytes>, i: nat): nat
    requires i <= |blobs|
  {
    if i == 0 then 0 else Offset(blobs, i - 1) + 8 + |blobs[i - 1]|
  }

  /** Each blob stands behind the eight bytes of its length, where the earlier ones end. */
  ghost predicate LaysOut(b: Bytes, blobs: seq<Bytes>) {
    |b| == Offset(blobs, |blobs|) && forall i :: 0 <= i < |blobs| ==> BlobAt(b, blobs, i)
  }

  ghost predicate BlobAt(b: Bytes, blobs: seq<Bytes>, i: nat)
    requires i < |blobs|
  {
    var at := Offset(blobs, i);
    at + 8 + |blobs[i]| <= |b| && Spells(b[at..at + 8], |blobs[i]|) && b[at + 8..at + 8 + |blobs[i]|] == blobs[i]
  }

  lemma {:induction false} JoinedLaysOut(blobs: seq<Bytes>)
    ensures LaysOut(Joined(blobs), blobs)
    decreases |blobs|
  {
    hide Big, Spells;
    if blobs != [] {
      var n := |blobs| - 1;
      var rest, last := blobs[..n], blobs[n];
      JoinedLaysOut(rest);
      assert rest + [last] == blobs;
      JoinedMore(rest, last);
      BigSpells(|last|, 8);
      OffsetPrefix(blobs, n, n);
      var b, was := Joined(blobs), Joined(rest);
      assert b == was + (Big(|last|, 8) + last);
      assert b[|was|..] == Big(|last|, 8) + last;
      forall i | 0 <= i < |blobs| ensures BlobAt(b, blobs, i) {
        if i < n {
          OffsetPrefix(blobs, n, i);
          BlobKept(was, Big(|last|, 8) + last, blobs, n, i);
        } else {
          assert b[|was|..|was| + 8] == Big(|last|, 8) && b[|was| + 8..|was| + 8 + |last|] == last;
        }
      }
    }
  }

  lemma {:induction false} BlobKept(was: Bytes, more: Bytes, blobs: seq<Bytes>, n: nat, i: nat)
    requires i < n <= |blobs| && BlobAt(was, blobs[..n], i)
    ensures BlobAt(was + more, blobs, i)
  {
    hide Spells;
    OffsetPrefix(blobs, n, i);
    var at := Offset(blobs, i);
    assert (was + more)[at..at + 8] == was[at..at + 8];
    assert (was + more)[at + 8..at + 8 + |blobs[i]|] == was[at + 8..at + 8 + |blobs[i]|];
  }

  lemma {:induction false} OffsetPrefix(blobs: seq<Bytes>, n: nat, i: nat)
    requires i <= n <= |blobs|
    ensures Offset(blobs[..n], i) == Offset(blobs, i)
    decreases i
  {
    if i > 0 { OffsetPrefix(blobs, n, i - 1); }
  }

  /** The first byte of a length, and the last. */
  lemma {:induction false} FirstAndLast(b: Bytes, n: nat)
    requires Spells(b, n)
    ensures |b| == 4 && n < 4294967296 ==> b[0] == n / 16777216 && b[3] == n % 256
    ensures |b| == 8 && n < 18446744073709551616 ==> b[0] == n / 72057594037927936 && b[7] == n % 256
  {
    Limits();
  }

  /** The skeleton of a message, sealed by nothing yet. */
  function Head(c: Codec, o: Value): Bytes {
    c.dumps(Encode(o, 0).0)
  }

  /** The skeleton's length fits 32 bits, every blob's 64. */
  ghost predicate LengthsFit(c: Codec, o: Value) {
    |Head(c, o)| < 4294967296 &&
    forall i :: 0 <= i < |Encode(o, 0).1| ==> |Encode(o, 0).1[i]| < 18446744073709551616
  }

  lemma {:induction false} PackableFits(c: Codec, o: Value)
    ensures Packable(c, o) <==> LengthsFit(c, o)
  {
    hide Encode;
    Limits();
  }

  /** A skeleton that does not fit its four length bytes, or a blob its eight, is an error. */
  method Pack(c: Codec, o: Value) returns (r: Result<Bytes>)
    ensures r == if Packable(c, o) then Ok(Packed(c, o)) else Err(Malformed)
    ensures r.Ok? <==> LengthsFit(c, o)
    ensures r.Ok? ==> var b, head := r.value, Head(c, o);
                      |b| >= 4 + |head| && Spells(b[..4], |head|) && b[4..4 + |head|] == head &&
                      LaysOut(b[4 + |head|..], Encode(o, 0).1)
    ensures r.Ok? ==> r.value[0] == |Head(c, o)| / 16777216 && r.value[3] == |Head(c, o)| % 256
  {
    hide Limit, Big, Spells, LaysOut, LengthsFit;
    PackableFits(c, o);
    var (x, blobs) := Encode(o, 0);
    var head := c.dumps(x);
    if |head| >= Limit(4) { return Err(Malformed); }
    var out := Big(|head|, 4) + head;
    assert out == out + Joined(blobs[..0]);
    ghost var start := out;
    for i := 0 to |blobs|
      invariant out == start + Joined(blobs[..i]) && Sized(blobs[..i])
    {
      if |blobs[i]| >= Limit(8) { return Err(Malformed); }
      JoinedMore(blobs[..i], blobs[i]);
      assert blobs[..i + 1] == blobs[..i] + [blobs[i]];
      out := out + (Big(|blobs[i]|, 8) + blobs[i]);
    }
    assert blobs[..|blobs|] == blobs;
    PackedLayout(c, o);
    r := Ok(out);
  }

  function Unpacked(c: Codec, buf: Bytes): Result<Value> {
    if |buf| < 4 then Err(Malformed)
    else
      var size := Number(buf[..4]);
      match c.loads(Take(buf[4..], size))
      case Err(e) => Err(Malformed)
      case Ok(x) => (match Split(Drop(buf[4..], size)) case Ok(blobs) => DecodeNode(x, blobs) case Err(e) => Err(e))
  }

  method Unpack(c: Codec, buf: Bytes) returns (r: Result<Value>)
    ensures r == Unpacked(c, buf)
  {
    hide Number, DecodeNode, Split, Prepend;
    if |buf| < 4 { return Err(Malformed); }
    var size := Number(buf[..4]);
    var head := c.loads(Take(buf[4..], size));
    if head.Err? { return Err(Malformed); }
    var blobs := SplitAll(Drop(buf[4..], size));
    if blobs.Err? { return Err(blobs.error); }
    r := DecodeNode(head.value, blobs.value);
  }

  method SplitAll(b: Bytes) returns (r: Result<seq<Bytes>>)
    ensures r == Split(b)
  {
    hide Number, Split, Prepend;
    var blobs: seq<Bytes> := [];
    var rest := b;
    PrependTwice([], [], Split(rest));
    while rest != []
      invariant Split(b) == Prepend(blobs, Split(rest))
      decreases |rest|
    {
      SplitNext(rest);
      PrependError(blobs);
      if |rest| < 8 { return Err(Malformed); }
      var size := Number(rest[..8]);
      PrependTwice(blobs, Take(rest[8..], size), Split(Drop(rest[8..], size)));
      blobs := blobs + [Take(rest[8..], size)];
      rest := Drop(rest[8..], size);
    }
    SplitNext(rest);
    PrependError(blobs);
    assert blobs + [] == blobs;
    r := Ok(blobs);
  }

  lemma {:induction false} PrependError(blobs: seq<Bytes>)
    ensures Prepend(blobs, Err(Malformed)) == Err(Malformed) && Prepend(blobs, Ok([])) == Ok(blobs)
  {
    assert blobs + [] == blobs;
  }

  /** A message unpacks to itself, tuples as lists, exactly when it is sendable. */
  lemma {:induction false} UnpackPack(c: Codec, o: Value)
    requires Sound(c) && Genuine(o) && Packable(c, o)
    ensures Unpacked(c, Packed(c, o)) == Ok(Received(o)) <==> Sendable(o)
  {
    hide Big, Number, Limit, Encode, DecodeNode, Split, Joined, Genuine, Sendable, WellFormed;
    var (x, blobs) := Encode(o, 0);
    var head, buf := c.dumps(x), Packed(c, o);
    EncodeWellFormed(o, 0);
    NumberBig(|head|, 4);
    SplitJoined(blobs);
    assert buf[..4] == Big(|head|, 4) && buf[4..] == head + Joined(blobs);
    assert (head + Joined(blobs))[..|head|] == head && (head + Joined(blobs))[|head|..] == Joined(blobs);
    assert blobs[0..0 + |blobs|] == blobs;
    DecodeEncode(o, 0, blobs);
  }

  // ----- the edge -----

  /** A sealed frame. */
  function Frame(c: Codec, nonce: nat, o: Value): Bytes {
    c.seal(nonce, Packed(c, o))
  }

  function Framed(c: Codec, nonce: nat, o: Value): Bytes {
    Big(|Frame(c, nonce, o)|, 8) + Frame(c, nonce, o)
  }

  /** A frame behind the eight bytes of its length, most significant first. */
  predicate FramedAs(frame: Bytes, sent: Bytes) {
    && |sent| == 8 + |frame| && Spells(sent[..8], |frame|) && sent[8..] == frame
    && (|frame| < 18446744073709551616 ==> sent[0] == |frame| / 72057594037927936 && sent[7] == |frame| % 256)
  }

  lemma {:induction false} FrameLayout(frame: Bytes)
    ensures FramedAs(frame, Big(|frame|, 8) + frame)
  {
    hide Big, Spells;
    var sent := Big(|frame|, 8) + frame;
    BigSpells(|frame|, 8);
    assert sent[..8] == Big(|frame|, 8) && sent[8..] == frame;
    FirstAndLast(sent[..8], |frame|);
  }

  /** The bytes of the messages on their way. */
  function Laid(c: Codec, queue: seq<(nat, Value)>): Bytes {
    if queue == [] then [] else Framed(c, queue[0].0, queue[0].1) + Laid(c, queue[1..])
  }

  lemma {:induction false} LaidMore(c: Codec, queue: seq<(nat, Value)>, m: (nat, Value))
    ensures Laid(c, queue + [m]) == Laid(c, queue) + Framed(c, m.0, m.1)
    decreases queue
  {
    hide Framed;
    if queue == [] {
      assert [m][1..] == [];
    } else {
      LaidMore(c, queue[1..], m);
      assert (queue + [m])[1..] == queue[1..] + [m];
    }
  }

  predicate Postable(c: Codec, m: (nat, Value)) {
    Genuine(m.1) && Packable(c, m.1) && |Frame(c, m.0, m.1)| < Limit(8)
  }

  /** One direction of an edge: a byte stream that hands over as many bytes at a time as it likes. */
  class Edge {
    const c: Codec
    const maxFrame: nat
    const cut: (nat, nat) -> nat
    var stream: Bytes
    var calls: nat
    ghost var queue: seq<(nat, Value)>

    ghost predicate Valid()
      reads this
    {
      Sound(c) && forall i :: 0 <= i < |queue| ==> Postable(c, queue[i])
    }

    /** The stream starts at a message boundary. */
    ghost predicate Aligned()
      reads this
    {
      stream == Laid(c, queue)
    }

    constructor (c: Codec, maxFrame: nat, cut: (nat, nat) -> nat)
      requires Sound(c)
      ensures Valid() && Aligned() && queue == [] && this.c == c && this.maxFrame == maxFrame
    {
      this.c, this.maxFrame, this.cut := c, maxFrame, cut;
      stream, calls, queue := [], 0, [];
    }

    /** Some of the bytes there are: at least one, at most n; none when the stream has ended. */
    method Recv(n: nat) returns (chunk: Bytes)
      requires n > 0
      modifies this`stream, this`calls
      ensures chunk + stream == old(stream) && |chunk| <= n && (chunk == [] <==> old(stream) == [])
    {
      var size := Min(Min(Max(1, cut(calls, n)), n), |stream|);
      chunk, stream, calls := stream[..size], stream[size..], calls + 1;
    }

    /** Exactly n bytes, however the stream hands them over. */
    method RecvAll(n: nat) returns (r: Result<Bytes>)
      modifies this`stream, this`calls
      ensures |old(stream)| >= n ==> r == Ok(old(stream)[..n]) && stream == old(stream)[n..]
      ensures |old(stream)| < n ==> r == Err(Closed)
    {
      var buf: Bytes := [];
      while |buf| < n
        invariant buf + stream == old(stream) && |buf| <= n
      {
        var chunk := Recv(n - |buf|);
        if chunk == [] { return Err(Closed); }
        buf := buf + chunk;
      }
      assert old(stream)[..n] == buf;
      r := Ok(buf);
    }

    /** Send a message; one that does not fit its length fields is refused before a byte is sent. */
    method SendMsg(o: Value, nonce: nat) returns (r: Result<nat>)
      requires Valid() && Genuine(o)
      modifies this`stream, this`queue
      ensures Valid() && (old(Aligned()) ==> Aligned())
      ensures r.Ok? <==> Postable(c, (nonce, o))
      ensures r.Ok? ==> r.value == |Framed(c, nonce, o)|
      ensures stream == if r.Ok? then old(stream) + Framed(c, nonce, o) else old(stream)
      ensures r.Ok? ==> FramedAs(c.seal(nonce, Packed(c, o)), stream[|old(stream)|..])
      ensures queue == if r.Ok? then old(queue) + [(nonce, o)] else old(queue)
    {
      hide Big, Limit, Packable, Packed, Genuine, Laid, LaysOut, LengthsFit, Spells, FramedAs;
      var packed := Pack(c, o);
      if packed.Err? { return Err(packed.error); }
      var frame := c.seal(nonce, packed.value);
      if |frame| >= Limit(8) { return Err(Malformed); }
      LaidMore(c, queue, (nonce, o));
      FrameLayout(frame);
      assert (stream + (Big(|frame|, 8) + frame))[|stream|..] == Big(|frame|, 8) + frame;
      stream, queue := stream + (Big(|frame|, 8) + frame), queue + [(nonce, o)];
      r := Ok(8 + |frame|);
    }

    /** Receive a message. At a message boundary this is the oldest one not yet received. */
    method RecvMsg() returns (r: Result<Value>)
      requires Valid()
      modifies this`stream, this`calls, this`queue
      ensures Valid()
      ensures old(Aligned()) && old(queue) == [] ==> r == Err(Closed)
      ensures old(Aligned()) && old(queue) != [] && |Frame(c, old(queue)[0].0, old(queue)[0].1)| > maxFrame ==>
                r == Err(TooLarge) && stream == Frame(c, old(queue)[0].0, old(queue)[0].1) + Laid(c, old(queue)[1..])
      ensures old(Aligned()) && old(queue) != [] && |Frame(c, old(queue)[0].0, old(queue)[0].1)| <= maxFrame ==>
                Aligned() && queue == old(queue)[1..] &&
                (r == Ok(Received(old(queue)[0].1)) <==> Sendable(old(queue)[0].1))
    {
      hide Big, Number, Limit, Packable, Packed, Genuine, Sendable, Unpacked, Frame;
      ghost var aligned := Aligned();
      if aligned && queue != [] { FirstFrame(c, queue); }
      var size := RecvAll(8);
      if size.Err? { return Err(Closed); }
      var n := Number(size.value);
      if n > maxFrame {
        assert aligned && queue != [] ==> stream == stream[..n] + stream[n..];
        return Err(TooLarge);
      }
      var frame := RecvAll(n);
      if frame.Err? { return Err(Closed); }
      if aligned && queue != [] {
        ghost var m := queue[0];
        queue := queue[1..];
        UnpackPack(c, m.1);
        OpenFrame(c, m);
      }
      var plain := c.open(frame.value);
      if plain.Err? { return Err(Closed); }
      r := Unpack(c, plain.value);
    }
  }

  lemma {:induction false} FirstFrame(c: Codec, queue: seq<(nat, Value)>)
    requires queue != [] && Postable(c, queue[0])
    ensures var stream, frame := Laid(c, queue), Frame(c, queue[0].0, queue[0].1);
            |stream| >= 8 + |frame| && Number(stream[..8]) == |frame| &&
            stream[8..][..|frame|] == frame && stream[8..][|frame|..] == Laid(c, queue[1..])
  {
    hide Big, Number, Limit, Frame;
    var stream, frame := Laid(c, queue), Frame(c, queue[0].0, queue[0].1);
    NumberBig(|frame|, 8);
    assert stream[..8] == Big(|frame|, 8) && stream[8..] == frame + Laid(c, queue[1..]);
  }

  lemma {:induction false} OpenFrame(c: Codec, m: (nat, Value))
    requires Sound(c)
    ensures c.open(Frame(c, m.0, m.1)) == Ok(Packed(c, m.1))
  {
  }

  /** Messages sent one after another arrive as that sequence, however the stream is cut. */
  method Relay(edge: Edge, msgs: seq<Value>, nonces: seq<nat>) returns (got: seq<Value>)
    requires edge.Valid() && edge.Aligned() && edge.queue == [] && |nonces| == |msgs|
    requires forall i :: 0 <= i < |msgs| ==>
                           Sendable(msgs[i]) && Postable(edge.c, (nonces[i], msgs[i])) &&
                           |Frame(edge.c, nonces[i], msgs[i])| <= edge.maxFrame
    modifies edge
    ensures got == ReceivedAll(msgs) && edge.Valid() && edge.Aligned() && edge.queue == []
  {
    hide Sendable, Postable, Frame, Framed, Laid, Received;
    for i := 0 to |msgs|
      invariant edge.Valid() && edge.Aligned() && |edge.queue| == i
      invariant forall j :: 0 <= j < i ==> edge.queue[j] == (nonces[j], msgs[j])
    {
      PostableIsGenuine(edge.c, (nonces[i], msgs[i]));
      var sent := edge.SendMsg(msgs[i], nonces[i]);
    }
    got := [];
    for i := 0 to |msgs|
      invariant edge.Valid() && edge.Aligned() && |edge.queue| == |msgs| - i
      invariant forall j :: 0 <= j < |msgs| - i ==> edge.queue[j] == (nonces[i + j], msgs[i + j])
      invariant got == ReceivedAll(msgs[..i])
    {
      var r := edge.RecvMsg();
      ReceivedMore(msgs[..i], msgs[i]);
      assert msgs[..i + 1] == msgs[..i] + [msgs[i]];
      got := got + [r.value];
    }
    assert msgs[..|msgs|] == msgs;
  }

  lemma {:induction false} PostableIsGenuine(c: Codec, m: (nat, Value))
    requires Postable(c, m)
    ensures Genuine(m.1)
  {
  }

  lemma {:induction false} ReceivedMore(items: seq<Value>, o: Value)
    ensures ReceivedAll(items + [o]) == ReceivedAll(items) + [Received(o)]
    decreases items
  {
    if items == [] {
      assert [o][1..] == [];
    } else {
      ReceivedMore(items[1..], o);
      assert (items + [o])[1..] == items[1..] + [o];
    }
  }
}
