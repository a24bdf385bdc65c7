/** Protocol Buffers wire format as the telemetry encoder uses it: base-128 varints, keys,
    length-delimited and fixed fields, and reading a message field by field
    (crates/plc-telemetry/src/protobuf.rs). */
module Wire {
  import opened Bytes
  import opened Ir

  const U64: nat := 0x1_0000_0000_0000_0000
  const U32: nat := 0x1_0000_0000

  // ----- varints -----

  function Varint(v: nat): (s: seq<byte>)
    ensures 1 <= |s|
  {
    if v < 128 then [v] else [v % 128 + 128] + Varint(v / 128)
  }

  function Pow128(k: nat): (p: nat)
    ensures p > 0
  {
    if k == 0 then 1 else 128 * Pow128(k - 1)
  }

  /** A number at the place of the `k`th group of seven bits. */
  function Place(v: nat, k: nat): nat { v * Pow128(k) }

  /** Groups are added where the code ORs them in: the accumulator is below the group's
      place. Bits shifted past 64 are lost. */
  function VarintFrom(buf: seq<byte>, pos: nat, k: nat, acc: nat): (r: Option<(nat, nat)>)
    requires pos <= |buf| && k <= 10
    ensures r.Some? ==> pos < r.value.1 <= |buf|
    decreases 10 - k
  {
    if k == 10 || pos == |buf| then None
    else
      var next := acc + Place(buf[pos] % 128, k) % U64;
      if buf[pos] < 128 then Some((next, pos + 1)) else VarintFrom(buf, pos + 1, k + 1, next)
  }

  function VarintAt(buf: seq<byte>, pos: nat): (r: Option<(nat, nat)>)
    requires pos <= |buf|
    ensures r.Some? ==> pos < r.value.1 <= |buf|
  {
    VarintFrom(buf, pos, 0, 0)
  }

  lemma Split(v: nat, p: nat)
    ensures (v % 128) * p + (v / 128) * (128 * p) == v * p
  {
    var q, r := v / 128, v % 128;
    assert v == 128 * q + r;
    assert (128 * q + r) * p == q * (128 * p) + r * p;
  }

  lemma Monotone(a: nat, b: nat, p: nat)
    requires a <= b
    ensures a * p <= b * p
  {
    assert b * p == a * p + (b - a) * p;
  }

  /** A number's low group and the rest, at their places. */
  lemma Groups(v: nat, k: nat)
    requires Place(v, k) < U64
    ensures Place(v % 128, k) + Place(v / 128, k + 1) == Place(v, k)
    ensures Place(v % 128, k) % U64 == Place(v % 128, k) && Place(v / 128, k + 1) < U64
    ensures v < 128 ==> Place(v, k) % U64 == Place(v, k)
  {
    var p := Pow128(k);
    assert Pow128(k + 1) == 128 * p;
    Split(v, p);
    Monotone(v % 128, v, p);
  }

  /** No group of a 64-bit number lies beyond the tenth. */
  lemma TenGroups(v: nat)
    requires v > 0
    ensures Place(v, 10) >= U64
  {
    Monotone(1, v, Pow128(10));
    assert Pow128(1) == 128 * Pow128(0);
    assert Pow128(2) == 128 * Pow128(1);
    assert Pow128(3) == 128 * Pow128(2);
    assert Pow128(4) == 128 * Pow128(3);
    assert Pow128(5) == 128 * Pow128(4);
    assert Pow128(6) == 128 * Pow128(5);
    assert Pow128(7) == 128 * Pow128(6);
    assert Pow128(8) == 128 * Pow128(7);
    assert Pow128(9) == 128 * Pow128(8);
    assert Pow128(10) == 128 * Pow128(9);
  }

  lemma VarintBytes(v: nat)
    ensures v < 128 ==> Varint(v) == [v]
    ensures v >= 128 ==> Varint(v) == [v % 128 + 128] + Varint(v / 128)
  {}

  lemma OneByte(buf: seq<byte>, pos: nat, k: nat, acc: nat)
    requires pos < |buf| && k < 10
    ensures VarintFrom(buf, pos, k, acc) ==
              var next := acc + Place(buf[pos] % 128, k) % U64;
              if buf[pos] < 128 then Some((next, pos + 1)) else VarintFrom(buf, pos + 1, k + 1, next)
  {}

  /** Reading a written number that fits, at any place of a buffer. */
  lemma {:induction false} VarintRead(pre: seq<byte>, v: nat, post: seq<byte>, k: nat, acc: nat)
    requires k <= 10 && Place(v, k) < U64 && (k > 0 ==> v > 0)
    ensures VarintFrom(pre + Varint(v) + post, |pre|, k, acc) == Some((acc + Place(v, k), |pre| + |Varint(v)|))
    decreases v
  {
    hide Place, VarintFrom, Pow128;
    if v > 0 { TenGroups(v); }
    Groups(v, k);
    var buf := pre + Varint(v) + post;
    hide Varint;
    VarintBytes(v);
    assert buf[|pre|] == Varint(v)[0];
    OneByte(buf, |pre|, k, acc);
    if v >= 128 {
      var b: byte := v % 128 + 128;
      assert b % 128 == v % 128;
      assert buf == (pre + [b]) + Varint(v / 128) + post;
      VarintRead(pre + [b], v / 128, post, k + 1, acc + Place(v % 128, k));
    }
  }

  /** As the first thing read: numbers below 2^64 come back. */
  lemma VarintRoundTrip(pre: seq<byte>, v: nat, post: seq<byte>)
    requires v < U64
    ensures VarintAt(pre + Varint(v) + post, |pre|) == Some((v, |pre| + |Varint(v)|))
  {
    VarintRead(pre, v, post, 0, 0);
  }

  // ----- fields -----

  datatype Value = Var(v: nat) | Fixed64 | Len(bytes: seq<byte>) | Fixed32(bits: nat)

  datatype Field = Field(number: nat, value: Value)

  function WireType(v: Value): nat
  {
    match v
    case Var(_) => 0
    case Fixed64 => 1
    case Len(_) => 2
    case Fixed32(_) => 5
  }

  function EncodeValue(v: Value): seq<byte>
  {
    match v
    case Var(n) => Varint(n)
    case Fixed64 => []
    case Len(b) => Varint(|b|) + b
    case Fixed32(bits) => Bytes.Le(bits, 4)
  }

  function EncodeField(f: Field): seq<byte> { Varint(f.number * 8 + WireType(f.value)) + EncodeValue(f.value) }

  function EncodeFields(fs: seq<Field>): seq<byte>
  {
    if fs == [] then [] else EncodeField(fs[0]) + EncodeFields(fs[1..])
  }

  lemma Associate(a: seq<byte>, b: seq<byte>, c: seq<byte>) ensures a + (b + c) == a + b + c {}

  lemma {:induction false} EncodeConcat(a: seq<Field>, b: seq<Field>)
    ensures EncodeFields(a + b) == EncodeFields(a) + EncodeFields(b)
  {
    hide EncodeField;
    if a == [] {
      assert a + b == b;
      assert [] + EncodeFields(b) == EncodeFields(b);
    } else {
      EncodeConcat(a[1..], b);
      assert (a + b)[1..] == a[1..] + b && (a + b)[0] == a[0];
      Associate(EncodeField(a[0]), EncodeFields(a[1..]), EncodeFields(b));
    }
  }

  /** What the writer can write so that the reader gets it back. */
  predicate Writable(f: Field)
  {
    && f.number * 8 + 7 < U32
    && match f.value
       case Var(n) => n < U64
       case Fixed64 => false
       case Len(b) => |b| < U64
       case Fixed32(bits) => bits < U32
  }

  function ValueAt(buf: seq<byte>, pos: nat, wire: nat): (r: Option<(Value, nat)>)
    requires pos <= |buf|
    ensures r.Some? ==> pos <= r.value.1 <= |buf|
  {
    if wire == 0 then
      var v := VarintAt(buf, pos);
      if v.None? then None else Some((Var(v.value.0), v.value.1))
    else if wire == 1 then
      if |buf| - pos < 8 then None else Some((Fixed64, pos + 8))
    else if wire == 2 then
      var v := VarintAt(buf, pos);
      if v.None? || |buf| - v.value.1 < v.value.0 then None
      else Some((Len(buf[v.value.1..v.value.1 + v.value.0]), v.value.1 + v.value.0))
    else if wire == 5 then
      if |buf| - pos < 4 then None else Some((Fixed32(FromLe(buf[pos..pos + 4])), pos + 4))
    else None
  }

  function FieldAt(buf: seq<byte>, pos: nat): (r: Option<(Field, nat)>)
    requires pos <= |buf|
    ensures r.Some? ==> pos < r.value.1 <= |buf|
  {
    var key := VarintAt(buf, pos);
    if key.None? then None
    else
      var v := ValueAt(buf, key.value.1, key.value.0 % 8);
      if v.None? then None else Some((Field(key.value.0 / 8 % U32, v.value.0), v.value.1))
  }

  lemma LenRead(pre: seq<byte>, b: seq<byte>, post: seq<byte>)
    requires |b| < U64
    ensures ValueAt(pre + (Varint(|b|) + b) + post, |pre|, 2) == Some((Len(b), |pre| + |Varint(|b|)| + |b|))
  {
    hide VarintAt, Varint;
    var buf := pre + (Varint(|b|) + b) + post;
    VarintRoundTrip(pre, |b|, b + post);
    assert buf == pre + Varint(|b|) + (b + post);
    var at := |pre| + |Varint(|b|)|;
    assert buf[at..at + |b|] == b;
  }

  lemma FixedRead(pre: seq<byte>, bits: nat, post: seq<byte>)
    requires bits < U32
    ensures ValueAt(pre + Bytes.Le(bits, 4) + post, |pre|, 5) == Some((Fixed32(bits), |pre| + 4))
  {
    Powers();
    hide FromLe, Bytes.Le, VarintAt;
    FromLeOfLe(bits, 4);
    var buf := pre + Bytes.Le(bits, 4) + post;
    assert buf[|pre|..|pre| + 4] == Bytes.Le(bits, 4);
  }

  lemma ValueRead(pre: seq<byte>, v: Value, post: seq<byte>)
    requires Writable(Field(0, v))
    ensures ValueAt(pre + EncodeValue(v) + post, |pre|, WireType(v)) == Some((v, |pre| + |EncodeValue(v)|))
  {
    hide VarintAt, Varint, FromLe, Bytes.Le;
    match v
    case Var(n) => VarintRoundTrip(pre, n, post);
    case Len(b) => LenRead(pre, b, post);
    case Fixed32(bits) => FixedRead(pre, bits, post);
  }

  lemma FieldRead(pre: seq<byte>, f: Field, post: seq<byte>)
    requires Writable(f)
    ensures FieldAt(pre + EncodeField(f) + post, |pre|) == Some((f, |pre| + |EncodeField(f)|))
  {
    hide ValueAt, EncodeValue, VarintAt, Varint;
    var key := f.number * 8 + WireType(f.value);
    VarintRoundTrip(pre, key, EncodeValue(f.value) + post);
    ValueRead(pre + Varint(key), f.value, post);
    assert pre + EncodeField(f) + post == pre + Varint(key) + (EncodeValue(f.value) + post);
    assert pre + EncodeField(f) + post == (pre + Varint(key)) + EncodeValue(f.value) + post;
    assert key / 8 == f.number && key % 8 == WireType(f.value);
  }

  // ----- messages -----

  /** A message read field by field from a position, by what each field does to a state. */
  function FoldFrom<S>(apply: (S, Field) -> Option<S>, buf: seq<byte>, pos: nat, s: S): Option<S>
    requires pos <= |buf|
    decreases |buf| - pos
  {
    if pos == |buf| then Some(s)
    else
      var f := FieldAt(buf, pos);
      if f.None? then None
      else
        var next := apply(s, f.value.0);
        if next.None? then None else FoldFrom(apply, buf, f.value.1, next.value)
  }

  function Fold<S>(apply: (S, Field) -> Option<S>, fs: seq<Field>, s: S): Option<S>
    decreases fs
  {
    if fs == [] then Some(s)
    else
      var next := apply(s, fs[0]);
      if next.None? then None else Fold(apply, fs[1..], next.value)
  }

  /** Reading written fields is folding over them. */
  lemma {:induction false} FoldWritten<S>(apply: (S, Field) -> Option<S>, pre: seq<byte>, fs: seq<Field>, s: S)
    requires forall i :: 0 <= i < |fs| ==> Writable(fs[i])
    ensures FoldFrom(apply, pre + EncodeFields(fs), |pre|, s) == Fold(apply, fs, s)
    decreases fs
  {
    hide FieldAt, EncodeField;
    if fs != [] {
      FieldRead(pre, fs[0], EncodeFields(fs[1..]));
      var buf := pre + EncodeFields(fs);
      assert buf == pre + EncodeField(fs[0]) + EncodeFields(fs[1..]);
      assert buf == (pre + EncodeField(fs[0])) + EncodeFields(fs[1..]);
      NotEmpty(fs[0]);
      var next := apply(s, fs[0]);
      if next.Some? { FoldWritten(apply, pre + EncodeField(fs[0]), fs[1..], next.value); }
    }
  }

  lemma NotEmpty(f: Field) ensures |EncodeField(f)| >= 1 {}

  lemma {:induction false} FoldConcat<S>(apply: (S, Field) -> Option<S>, a: seq<Field>, b: seq<Field>, s: S)
    ensures Fold(apply, a + b, s) == if Fold(apply, a, s).None? then None else Fold(apply, b, Fold(apply, a, s).value)
    decreases a
  {
    if a == [] {
      assert a + b == b;
    } else {
      assert (a + b)[1..] == a[1..] + b;
      if apply(s, a[0]).Some? { FoldConcat(apply, a[1..], b, apply(s, a[0]).value); }
    }
  }

  // ----- the reader and the writer as objects -----

  lemma PlaceOf(v: nat, k: nat)
    ensures v * Pow128(k) == Place(v, k) && Pow128(k + 1) == Pow128(k) * 128
  {}

  class Cursor {
    const buf: seq<byte>
    var pos: nat

    ghost predicate Valid()
      reads this
    {
      pos <= |buf|
    }

    constructor (buf: seq<byte>)
      ensures this.buf == buf && pos == 0
    {
      this.buf, pos := buf, 0;
    }

    method ReadVarint() returns (r: Option<nat>)
      requires Valid()
      modifies this
      ensures Valid()
      ensures r.Some? <==> VarintAt(buf, old(pos)).Some?
      ensures r.Some? ==> VarintAt(buf, old(pos)) == Some((r.value, pos))
    {
      hide Place;
      var result: nat, place: nat := 0, 1;
      for k := 0 to 10
        invariant pos <= |buf| && place == Pow128(k)
        invariant VarintAt(buf, old(pos)) == VarintFrom(buf, pos, k, result)
      {
        if pos >= |buf| { return None; }
        var b := buf[pos];
        pos := pos + 1;
        PlaceOf(b % 128, k);
        result := result + (b % 128) * place % U64;
        if b < 128 { return Some(result); }
        place := place * 128;
      }
      r := None;
    }

    /** A value of a wire type, read or skipped alike. */
    method ReadValue(wire: nat) returns (r: Option<Value>)
      requires Valid()
      modifies this
      ensures Valid()
      ensures r.Some? <==> ValueAt(buf, old(pos), wire).Some?
      ensures r.Some? ==> ValueAt(buf, old(pos), wire) == Some((r.value, pos))
    {
      match wire {
        case 0 =>
          var v := ReadVarint();
          r := if v.None? then None else Some(Var(v.value));
        case 1 =>
          if |buf| - pos < 8 { return None; }
          pos := pos + 8;
          r := Some(Fixed64);
        case 2 =>
          var n := ReadVarint();
          if n.None? || |buf| - pos < n.value { return None; }
          var start := pos;
          pos := pos + n.value;
          r := Some(Len(buf[start..pos]));
        case 5 =>
          if |buf| - pos < 4 { return None; }
          var b := buf[pos..pos + 4];
          pos := pos + 4;
          r := Some(Fixed32(FromLe(b)));
        case _ => r := None;
      }
    }

    method ReadField() returns (r: Option<Field>)
      requires Valid()
      modifies this
      ensures Valid()
      ensures r.Some? <==> FieldAt(buf, old(pos)).Some?
      ensures r.Some? ==> FieldAt(buf, old(pos)) == Some((r.value, pos))
    {
      var key := ReadVarint();
      if key.None? { return None; }
      var v := ReadValue(key.value % 8);
      r := if v.None? then None else Some(Field(key.value / 8 % U32, v.value));
    }
  }

  class Writer {
    var bytes: seq<byte>

    constructor ()
      ensures bytes == []
    {
      bytes := [];
    }

    method WriteVarint(v: nat)
      modifies this
      ensures bytes == old(bytes) + Varint(v)
    {
      var rest := v;
      while rest >= 128
        invariant bytes + Varint(rest) == old(bytes) + Varint(v)
      {
        bytes := bytes + [rest % 128 + 128];
        rest := rest / 128;
      }
      bytes := bytes + [rest];
    }

    method WriteField(f: Field)
      modifies this
      ensures bytes == old(bytes) + EncodeField(f)
    {
      WriteVarint(f.number * 8 + WireType(f.value));
      match f.value {
        case Var(n) => WriteVarint(n);
        case Fixed64 =>
        case Len(b) =>
          WriteVarint(|b|);
          bytes := bytes + b;
        case Fixed32(bits) => bytes := bytes + Bytes.Le(bits, 4);
      }
    }
  }
}
