// The Protocol Buffers wire format, as far as the navigation decoder reads it
// (encoding specification: "Base 128 Varints", "Message Structure",
// "Length-Delimited Records").
module Wire {
  import opened Machine

  // One field as it appears on the wire: its number and its undecoded value.
  datatype Record =
    | Varint(field: uint32, value: uint64)
    | Fixed64(field: uint32, bits: seq<byte>)
    | Bytes(field: uint32, payload: seq<byte>)
    | Fixed32(field: uint32, bits: seq<byte>)

  // ---------------------------------------------------------------------------
  // Varints
  // ---------------------------------------------------------------------------

  // 128 to the power k, the weight of the k-th varint byte.
  function Weight(k: nat): (w: nat)
    requires k <= 9
    ensures w > 0
  {
    match k
    case 0 => 0x1
    case 1 => 0x80
    case 2 => 0x4000
    case 3 => 0x20_0000
    case 4 => 0x1000_0000
    case 5 => 0x8_0000_0000
    case 6 => 0x400_0000_0000
    case 7 => 0x2_0000_0000_0000
    case 8 => 0x100_0000_0000_0000
    case 9 => 0x8000_0000_0000_0000
  }

  // Values below this bound still fit 64 bits when shifted to byte k.
  function Room(k: nat): nat
    requires k <= 9
  {
    match k
    case 0 => 0x1_0000_0000_0000_0000
    case 1 => 0x200_0000_0000_0000
    case 2 => 0x4_0000_0000_0000
    case 3 => 0x800_0000_0000
    case 4 => 0x10_0000_0000
    case 5 => 0x2000_0000
    case 6 => 0x40_0000
    case 7 => 0x8000
    case 8 => 0x100
    case 9 => 0x2
  }

  // The varint at the front of `s`, with bytes 0..k-1 already accumulated in `v`:
  // its value and the total number of bytes it takes. A tenth byte keeps only its
  // lowest payload bit, and there is no eleventh.
  function VarintFrom(s: seq<byte>, k: nat, v: uint64): (r: Option<(uint64, nat)>)
    requires k <= 10 && (k < 10 ==> v < Weight(k))
    ensures r.Some? ==> k < r.value.1 <= k + |s|
    decreases |s|
  {
    if k == 10 || s == [] then None
    else
      var v' := v + s[0] % 0x80 * Weight(k) % 0x1_0000_0000_0000_0000;
      WeightBound(k, v, s[0]);
      if s[0] < 0x80 then Some((v', k + 1)) else VarintFrom(s[1..], k + 1, v')
  }

  lemma WeightBound(k: nat, v: uint64, b: byte)
    requires k <= 9 && v < Weight(k)
    ensures v + b % 0x80 * Weight(k) % 0x1_0000_0000_0000_0000 < 0x1_0000_0000_0000_0000
    ensures k < 9 ==> v + b % 0x80 * Weight(k) % 0x1_0000_0000_0000_0000 < Weight(k + 1)
  {
    if k == 9 {
      assert b % 0x80 * 0x8000_0000_0000_0000 % 0x1_0000_0000_0000_0000 == b % 2 * 0x8000_0000_0000_0000;
    }
  }

  function ReadVarint(s: seq<byte>): (r: Option<(uint64, nat)>)
    ensures r.Some? ==> 0 < r.value.1 <= |s|
  {
    VarintFrom(s, 0, 0)
  }

  function EncodeVarint(v: nat): (r: seq<byte>)
    ensures |r| > 0
  {
    if v < 0x80 then [v] else [0x80 + v % 0x80] + EncodeVarint(v / 0x80)
  }

  lemma ShiftSplit(w: nat, weight: nat)
    ensures w / 0x80 * (0x80 * weight) + w % 0x80 * weight == w * weight
  {
    var q, r := w / 0x80, w % 0x80;
    assert w == q * 0x80 + r;
    calc {
      w * weight;
      (q * 0x80 + r) * weight;
      q * 0x80 * weight + r * weight;
      q * (0x80 * weight) + r * weight;
    }
  }

  lemma {:induction false} VarintRoundTripFrom(w: uint64, k: nat, v: uint64, rest: seq<byte>)
    requires k <= 9 && w < Room(k) && v < Weight(k)
    ensures v + w * Weight(k) < 0x1_0000_0000_0000_0000
    ensures VarintFrom(EncodeVarint(w) + rest, k, v) == Some((v + w * Weight(k), k + |EncodeVarint(w)|))
    decreases w
  {
    RoomBound(w, k, v);
    var s := EncodeVarint(w) + rest;
    if w < 0x80 {
      assert s[0] == w;
      LowBits(w, k);
    } else {
      var b := 0x80 + w % 0x80;
      assert s[0] == b && s[1..] == EncodeVarint(w / 0x80) + rest;
      assert b % 0x80 == w % 0x80;
      LowBits(w, k);
      WeightBound(k, v, b);
      ShiftSplit(w, Weight(k));
      VarintRoundTripFrom(w / 0x80, k + 1, v + w % 0x80 * Weight(k), rest);
    }
  }

  lemma RoomBound(w: uint64, k: nat, v: uint64)
    requires k <= 9 && w < Room(k) && v < Weight(k)
    ensures v + w * Weight(k) < 0x1_0000_0000_0000_0000
    ensures w >= 0x80 ==> k < 9 && w / 0x80 < Room(k + 1) && Weight(k + 1) == 0x80 * Weight(k)
  {
  }

  lemma LowBits(w: uint64, k: nat)
    requires k <= 9 && w < Room(k)
    ensures w % 0x80 * Weight(k) % 0x1_0000_0000_0000_0000 == w % 0x80 * Weight(k)
  {
  }

  lemma VarintRoundTrip(v: uint64, rest: seq<byte>)
    ensures ReadVarint(EncodeVarint(v) + rest) == Some((v, |EncodeVarint(v)|))
  {
    VarintRoundTripFrom(v, 0, 0, rest);
  }

  lemma {:induction false} VarintLengthMonotone(a: nat, b: nat)
    requires a <= b
    ensures |EncodeVarint(a)| <= |EncodeVarint(b)|
    decreases b
  {
    if a >= 0x80 {
      VarintLengthMonotone(a / 0x80, b / 0x80);
    }
  }

  // ---------------------------------------------------------------------------
  // Records
  // ---------------------------------------------------------------------------

  // The value of a field of the given wire type at the front of `s`. The group types 3
  // and 4 and the unassigned 6 and 7 are rejected.
  function ReadBody(field: uint32, wire: nat, s: seq<byte>): (r: Option<(Record, nat)>)
    ensures r.Some? ==> r.value.1 <= |s|
  {
    match wire
    case 0 =>
      (match ReadVarint(s)
       case None => None
       case Some((v, n)) => Some((Varint(field, v), n)))
    case 1 => if |s| < 8 then None else Some((Fixed64(field, s[..8]), 8))
    case 2 =>
      (match ReadVarint(s)
       case None => None
       case Some((l, n)) => if |s| - n < l then None else Some((Bytes(field, s[n..n + l]), n + l)))
    case 5 => if |s| < 4 then None else Some((Fixed32(field, s[..4]), 4))
    case _ => None
  }

  function FieldOf(tag: uint64): uint32 {
    tag / 8 % 0x1_0000_0000
  }

  function ReadRecord(s: seq<byte>): (r: Option<(Record, nat)>)
    ensures r.Some? ==> 0 < r.value.1 <= |s|
  {
    match ReadVarint(s)
    case None => None
    case Some((tag, n)) =>
      match ReadBody(FieldOf(tag), tag % 8, s[n..])
      case None => None
      case Some((rec, m)) => Some((rec, n + m))
  }

  // The records of a message up to its end or its first malformed field.
  function Records(s: seq<byte>): seq<Record>
    decreases |s|
  {
    match ReadRecord(s)
    case None => []
    case Some((rec, n)) => [rec] + Records(s[n..])
  }

  predicate RecordOk(r: Record) {
    match r
    case Varint(_, _) => true
    case Fixed64(_, bits) => |bits| == 8
    case Bytes(_, p) => |p| < 0x1_0000_0000_0000_0000
    case Fixed32(_, bits) => |bits| == 4
  }

  function WireType(r: Record): nat {
    match r
    case Varint(_, _) => 0
    case Fixed64(_, _) => 1
    case Bytes(_, _) => 2
    case Fixed32(_, _) => 5
  }

  function EncodeBody(r: Record): seq<byte> {
    match r
    case Varint(_, v) => EncodeVarint(v)
    case Fixed64(_, bits) => bits
    case Bytes(_, p) => EncodeVarint(|p|) + p
    case Fixed32(_, bits) => bits
  }

  function EncodeRecord(r: Record): (s: seq<byte>)
    ensures |s| > 0
  {
    EncodeVarint(8 * r.field + WireType(r)) + EncodeBody(r)
  }

  lemma BodyRoundTrip(r: Record, rest: seq<byte>)
    requires RecordOk(r)
    ensures ReadBody(r.field, WireType(r), EncodeBody(r) + rest) == Some((r, |EncodeBody(r)|))
  {
    var s := EncodeBody(r) + rest;
    match r
    case Varint(_, v) =>
      VarintRoundTrip(v, rest);
    case Fixed64(_, bits) =>
      assert s[..8] == bits;
    case Fixed32(_, bits) =>
      assert s[..4] == bits;
    case Bytes(_, p) =>
      var head := EncodeVarint(|p|);
      assert s == head + (p + rest);
      VarintRoundTrip(|p|, p + rest);
      assert s[|head|..|head| + |p|] == p;
  }

  lemma TagParts(field: uint32, wire: nat)
    requires wire < 8
    ensures 8 * field + wire < 0x1_0000_0000_0000_0000
    ensures FieldOf(8 * field + wire) == field && (8 * field + wire) % 8 == wire
  {
    assert (8 * field + wire) / 8 == field;
  }

  lemma RecordRoundTrip(r: Record, rest: seq<byte>)
    requires RecordOk(r)
    ensures ReadRecord(EncodeRecord(r) + rest) == Some((r, |EncodeRecord(r)|))
  {
    var head, body := EncodeVarint(8 * r.field + WireType(r)), EncodeBody(r);
    var s := EncodeRecord(r) + rest;
    assert s == head + (body + rest);
    assert s[|head|..] == body + rest;
    TagParts(r.field, WireType(r));
    VarintRoundTrip(8 * r.field + WireType(r), body + rest);
    BodyRoundTrip(r, rest);
  }

  // A decoder folds its per-field step over the records it meets.
  function Fold<A>(step: (A, Record) -> A, a: A, rs: seq<Record>): A
    decreases |rs|
  {
    if rs == [] then a else Fold(step, step(a, rs[0]), rs[1..])
  }

  lemma {:induction false} FoldConcat<A>(step: (A, Record) -> A, a: A, xs: seq<Record>, ys: seq<Record>)
    ensures Fold(step, a, xs + ys) == Fold(step, Fold(step, a, xs), ys)
    decreases |xs|
  {
    if xs == [] {
      assert xs + ys == ys;
    } else {
      assert (xs + ys)[1..] == xs[1..] + ys;
      FoldConcat(step, step(a, xs[0]), xs[1..], ys);
    }
  }

  // ---------------------------------------------------------------------------
  // Message trees
  // ---------------------------------------------------------------------------

  // A message as a tree of fields, whatever they mean to the reader.
  datatype Node =
    | VarintNode(field: uint32, value: uint64)
    | Fixed64Node(field: uint32, bits: seq<byte>)
    | BytesNode(field: uint32, bytes: seq<byte>)
    | Fixed32Node(field: uint32, bits: seq<byte>)
    | MessageNode(field: uint32, children: seq<Node>)

  function ToRecord(n: Node): Record
    decreases n, 0
  {
    match n
    case VarintNode(f, v) => Varint(f, v)
    case Fixed64Node(f, bits) => Fixed64(f, bits)
    case BytesNode(f, bs) => Bytes(f, bs)
    case Fixed32Node(f, bits) => Fixed32(f, bits)
    case MessageNode(f, ch) => Bytes(f, Encode(ch))
  }

  function Encode(ns: seq<Node>): seq<byte>
    decreases ns, 1
  {
    if ns == [] then [] else EncodeRecord(ToRecord(ns[0])) + Encode(ns[1..])
  }

  predicate NodeOk(n: Node)
    decreases n, 0
  {
    RecordOk(ToRecord(n)) && (n.MessageNode? ==> AllOk(n.children))
  }

  // Every field of the tree is well-formed: fixed-size values have their size and
  // lengths fit 64 bits.
  predicate AllOk(ns: seq<Node>)
    decreases ns, 1
  {
    ns == [] || (NodeOk(ns[0]) && AllOk(ns[1..]))
  }

  function ToRecords(ns: seq<Node>): (rs: seq<Record>)
    ensures |rs| == |ns|
  {
    if ns == [] then [] else [ToRecord(ns[0])] + ToRecords(ns[1..])
  }

  // Reading back an encoded message yields its fields in order.
  lemma {:induction false} RecordsRoundTrip(ns: seq<Node>)
    requires AllOk(ns)
    ensures Records(Encode(ns)) == ToRecords(ns)
    decreases |ns|
  {
    if ns != [] {
      var head, rest := EncodeRecord(ToRecord(ns[0])), Encode(ns[1..]);
      RecordRoundTrip(ToRecord(ns[0]), rest);
      assert (head + rest)[|head|..] == rest;
      RecordsRoundTrip(ns[1..]);
    }
  }

  lemma {:induction false} ToRecordsConcat(xs: seq<Node>, ys: seq<Node>)
    ensures ToRecords(xs + ys) == ToRecords(xs) + ToRecords(ys)
    decreases |xs|
  {
    if xs == [] {
      assert xs + ys == ys;
    } else {
      assert (xs + ys)[1..] == xs[1..] + ys;
      ToRecordsConcat(xs[1..], ys);
    }
  }

  // ---------------------------------------------------------------------------
  // Unknown fields
  // ---------------------------------------------------------------------------

  // What a decoder understands at one level: which field numbers carry varints, which
  // strings, and which sub-messages.
  datatype Schema = Schema(varints: set<nat>, strings: set<nat>, messages: map<nat, Schema>)

  // A field of an unlisted number, or of a listed number with another wire type.
  predicate Unknown(schema: Schema, n: Node) {
    match n
    case VarintNode(f, _) => f !in schema.varints
    case Fixed64Node(_, _) => true
    case Fixed32Node(_, _) => true
    case BytesNode(f, _) => f !in schema.strings && f !in schema.messages
    case MessageNode(f, _) => f !in schema.strings && f !in schema.messages
  }

  function StripNode(schema: Schema, n: Node): Node
    decreases n, 0
  {
    if n.MessageNode? && n.field in schema.messages
    then MessageNode(n.field, Strip(schema.messages[n.field], n.children))
    else n
  }

  // The message without its unknown fields, at every nesting level.
  function Strip(schema: Schema, ns: seq<Node>): seq<Node>
    decreases ns, 1
  {
    if ns == [] then []
    else if Unknown(schema, ns[0]) then Strip(schema, ns[1..])
    else [StripNode(schema, ns[0])] + Strip(schema, ns[1..])
  }

  lemma {:induction false} StripNodeOk(schema: Schema, n: Node)
    requires NodeOk(n)
    ensures NodeOk(StripNode(schema, n))
    ensures |EncodeRecord(ToRecord(StripNode(schema, n)))| <= |EncodeRecord(ToRecord(n))|
    decreases n, 0
  {
    if n.MessageNode? && n.field in schema.messages {
      var ch, ch' := n.children, Strip(schema.messages[n.field], n.children);
      StripOk(schema.messages[n.field], ch);
      VarintLengthMonotone(|Encode(ch')|, |Encode(ch)|);
    }
  }

  // Stripping keeps a message well-formed and never lengthens it.
  lemma {:induction false} StripOk(schema: Schema, ns: seq<Node>)
    requires AllOk(ns)
    ensures AllOk(Strip(schema, ns))
    ensures |Encode(Strip(schema, ns))| <= |Encode(ns)|
    decreases ns, 1
  {
    if ns != [] {
      StripOk(schema, ns[1..]);
      if !Unknown(schema, ns[0]) {
        StripNodeOk(schema, ns[0]);
        var s := Strip(schema, ns);
        assert s[0] == StripNode(schema, ns[0]) && s[1..] == Strip(schema, ns[1..]);
      }
    }
  }

  // A step function that does not look at unknown fields, and reads known sub-messages
  // only up to their own unknown fields.
  ghost predicate Ignores<A(!new)>(step: (A, Record) -> A, schema: Schema) {
    forall a: A, n: Node {:trigger step(a, ToRecord(n))} :: NodeOk(n) ==>
      if Unknown(schema, n) then step(a, ToRecord(n)) == a
      else step(a, ToRecord(n)) == step(a, ToRecord(StripNode(schema, n)))
  }

  // Then unknown fields anywhere in the tree make no difference to the fold.
  lemma {:induction false} FoldStrip<A(!new)>(step: (A, Record) -> A, schema: Schema, a: A, ns: seq<Node>)
    requires AllOk(ns) && Ignores(step, schema)
    ensures Fold(step, a, ToRecords(ns)) == Fold(step, a, ToRecords(Strip(schema, ns)))
    decreases |ns|
  {
    if ns != [] {
      var a' := step(a, ToRecord(ns[0]));
      FoldStrip(step, schema, a', ns[1..]);
      assert ToRecords(ns)[1..] == ToRecords(ns[1..]);
      if !Unknown(schema, ns[0]) {
        var s := Strip(schema, ns);
        assert s[0] == StripNode(schema, ns[0]) && s[1..] == Strip(schema, ns[1..]);
        assert ToRecords(s)[1..] == ToRecords(s[1..]);
      }
    }
  }
}
