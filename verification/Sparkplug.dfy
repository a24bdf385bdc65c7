/** Sparkplug payloads: what the encoder writes, the decoder reads back
    (crates/plc-telemetry/src/protobuf.rs). Strings are byte strings with UTF-8 validity as
    a parameter; floating-point values are their 32 bits. */
module Sparkplug {
  import opened Bytes
  import opened Ir
  import opened Wire

  type Utf8 = seq<byte> -> bool

  datatype MetricValue = IntV(n: nat) | LongV(n: nat) | FloatV(bits: nat) | BoolV(b: bool) | StringV(s: seq<byte>)

  datatype Property = Property(key: seq<byte>, kind: nat, value: MetricValue)

  datatype Metric = Metric(
    name: Option<seq<byte>>, alias: Option<nat>, timestamp: Option<nat>, kind: nat, properties: seq<Property>,
    value: Option<MetricValue>)

  datatype Payload = Payload(timestamp: Option<nat>, metrics: seq<Metric>, seqNo: Option<nat>)

  // ----- what the types hold -----

  predicate StringOk(utf8: Utf8, s: seq<byte>) { utf8(s) && |s| < U64 }

  predicate ValueOk(utf8: Utf8, v: MetricValue)
  {
    match v
    case IntV(n) => n < U32
    case LongV(n) => n < U64
    case FloatV(bits) => bits < U32
    case BoolV(_) => true
    case StringV(s) => StringOk(utf8, s)
  }

  predicate PropertyOk(utf8: Utf8, p: Property)
  {
    StringOk(utf8, p.key) && p.kind < U32 && ValueOk(utf8, p.value) && |EncodeFields(PropertyFields(p))| < U64
  }

  predicate OptionOk(o: Option<nat>) { o.Some? ==> o.value < U64 }

  /** Field ranges of the source's types, and every nested message shorter than 2^64 bytes. */
  predicate MetricOk(utf8: Utf8, m: Metric)
  {
    && (m.name.Some? ==> StringOk(utf8, m.name.value)) && OptionOk(m.alias) && OptionOk(m.timestamp) && m.kind < U32
    && (forall p :: p in m.properties ==> PropertyOk(utf8, p))
    && (m.value.Some? ==> ValueOk(utf8, m.value.value))
    && |EncodeFields(SetFields(m.properties))| < U64
    && |EncodeFields(MetricFields(m))| < U64
  }

  predicate PayloadOk(utf8: Utf8, p: Payload)
  {
    OptionOk(p.timestamp) && OptionOk(p.seqNo) && forall m :: m in p.metrics ==> MetricOk(utf8, m)
  }

  // ----- messages as fields -----

  function PropertyFields(p: Property): seq<Field>
  {
    [Field(1, Var(p.kind)),
     match p.value
     case IntV(n) => Field(3, Var(n))
     case LongV(n) => Field(4, Var(n))
     case FloatV(bits) => Field(5, Fixed32(bits))
     case BoolV(b) => Field(7, Var(if b then 1 else 0))
     case StringV(s) => Field(8, Len(s))]
  }

  function Keys(ps: seq<Property>): seq<Field>
  {
    if ps == [] then [] else Keys(ps[..|ps| - 1]) + [Field(1, Len(ps[|ps| - 1].key))]
  }

  function Values(ps: seq<Property>): seq<Field>
  {
    if ps == [] then [] else Values(ps[..|ps| - 1]) + [Field(2, Len(EncodeFields(PropertyFields(ps[|ps| - 1]))))]
  }

  /** All keys, then all values. */
  function SetFields(ps: seq<Property>): seq<Field> { Keys(ps) + Values(ps) }

  function Optional(number: nat, o: Option<nat>): seq<Field> { if o.Some? then [Field(number, Var(o.value))] else [] }

  function ValueField(v: MetricValue): Field
  {
    match v
    case IntV(n) => Field(10, Var(n))
    case LongV(n) => Field(11, Var(n))
    case FloatV(bits) => Field(12, Fixed32(bits))
    case BoolV(b) => Field(14, Var(if b then 1 else 0))
    case StringV(s) => Field(15, Len(s))
  }

  function MetricFields(m: Metric): seq<Field>
  {
    (if m.name.Some? then [Field(1, Len(m.name.value))] else [])
    + Optional(2, m.alias) + Optional(3, m.timestamp) + [Field(4, Var(m.kind))]
    + (if m.properties != [] then [Field(9, Len(EncodeFields(SetFields(m.properties))))] else [])
    + (if m.value.Some? then [ValueField(m.value.value)] else [])
  }

  function Metrics(ms: seq<Metric>): seq<Field>
  {
    if ms == [] then [] else Metrics(ms[..|ms| - 1]) + [Field(2, Len(EncodeFields(MetricFields(ms[|ms| - 1]))))]
  }

  function PayloadFields(p: Payload): seq<Field>
  {
    Optional(1, p.timestamp) + Metrics(p.metrics) + Optional(3, p.seqNo)
  }

  // ----- reading -----

  function ApplyValue(utf8: Utf8, s: (nat, MetricValue), f: Field): Option<(nat, MetricValue)>
  {
    match f
    case Field(1, Var(n)) => Some((n % U32, s.1))
    case Field(3, Var(n)) => Some((s.0, IntV(n % U32)))
    case Field(4, Var(n)) => Some((s.0, LongV(n)))
    case Field(5, Fixed32(bits)) => Some((s.0, FloatV(bits)))
    case Field(7, Var(n)) => Some((s.0, BoolV(n != 0)))
    case Field(8, Len(b)) => if utf8(b) then Some((s.0, StringV(b))) else None
    case _ => Some(s)
  }

  function DecodeValue(utf8: Utf8, bytes: seq<byte>): Option<(nat, MetricValue)>
  {
    FoldFrom((s, f) => ApplyValue(utf8, s, f), bytes, 0, (0, BoolV(false)))
  }

  type SetState = (seq<seq<byte>>, seq<(nat, MetricValue)>)

  function ApplySet(utf8: Utf8, s: SetState, f: Field): Option<SetState>
  {
    match f
    case Field(1, Len(b)) => if utf8(b) then Some((s.0 + [b], s.1)) else None
    case Field(2, Len(b)) =>
      var v := DecodeValue(utf8, b);
      if v.None? then None else Some((s.0, s.1 + [v.value]))
    case _ => Some(s)
  }

  /** Keys and values are paired by position; what has no partner is dropped. */
  function Pair(keys: seq<seq<byte>>, values: seq<(nat, MetricValue)>): (ps: seq<Property>)
  {
    seq(if |keys| < |values| then |keys| else |values|,
        i requires 0 <= i < |keys| && i < |values| => Property(keys[i], values[i].0, values[i].1))
  }

  function DecodeSet(utf8: Utf8, bytes: seq<byte>): Option<seq<Property>>
  {
    var s := FoldFrom((s, f) => ApplySet(utf8, s, f), bytes, 0, ([], []));
    if s.None? then None else Some(Pair(s.value.0, s.value.1))
  }

  function ApplyMetric(utf8: Utf8, m: Metric, f: Field): Option<Metric>
  {
    match f
    case Field(1, Len(b)) => if utf8(b) then Some(m.(name := Some(b))) else None
    case Field(2, Var(n)) => Some(m.(alias := Some(n)))
    case Field(3, Var(n)) => Some(m.(timestamp := Some(n)))
    case Field(4, Var(n)) => Some(m.(kind := n % U32))
    case Field(9, Len(b)) =>
      var ps := DecodeSet(utf8, b);
      if ps.None? then None else Some(m.(properties := ps.value))
    case Field(10, Var(n)) => Some(m.(value := Some(IntV(n % U32))))
    case Field(11, Var(n)) => Some(m.(value := Some(LongV(n))))
    case Field(12, Fixed32(bits)) => Some(m.(value := Some(FloatV(bits))))
    case Field(14, Var(n)) => Some(m.(value := Some(BoolV(n != 0))))
    case Field(15, Len(b)) => if utf8(b) then Some(m.(value := Some(StringV(b)))) else None
    case _ => Some(m)
  }

  function EmptyMetric(): Metric { Metric(None, None, None, 0, [], None) }

  function DecodeMetric(utf8: Utf8, bytes: seq<byte>): Option<Metric>
  {
    FoldFrom((m, f) => ApplyMetric(utf8, m, f), bytes, 0, EmptyMetric())
  }

  function ApplyPayload(utf8: Utf8, p: Payload, f: Field): Option<Payload>
  {
    match f
    case Field(1, Var(n)) => Some(p.(timestamp := Some(n)))
    case Field(2, Len(b)) =>
      var m := DecodeMetric(utf8, b);
      if m.None? then None else Some(p.(metrics := p.metrics + [m.value]))
    case Field(3, Var(n)) => Some(p.(seqNo := Some(n)))
    case _ => Some(p)
  }

  function DecodePayload(utf8: Utf8, bytes: seq<byte>): Option<Payload>
  {
    FoldFrom((p, f) => ApplyPayload(utf8, p, f), bytes, 0, Payload(None, [], None))
  }

  // ----- round trips, inside out -----

  lemma WrittenWhole<S>(apply: (S, Field) -> Option<S>, fs: seq<Field>, s: S)
    requires forall i :: 0 <= i < |fs| ==> Writable(fs[i])
    ensures FoldFrom(apply, EncodeFields(fs), 0, s) == Fold(apply, fs, s)
  {
    FoldWritten(apply, [], fs, s);
    assert [] + EncodeFields(fs) == EncodeFields(fs);
  }

  lemma FoldOne<S>(apply: (S, Field) -> Option<S>, f: Field, s: S)
    ensures Fold(apply, [f], s) == apply(s, f)
  {}

  lemma ValueRoundTrip(utf8: Utf8, p: Property)
    requires PropertyOk(utf8, p)
    ensures DecodeValue(utf8, EncodeFields(PropertyFields(p))) == Some((p.kind, p.value))
  {
    hide FoldFrom, EncodeFields;
    var apply := (s, f) => ApplyValue(utf8, s, f);
    var fs := PropertyFields(p);
    WrittenWhole(apply, fs, (0, BoolV(false)));
    assert fs == [fs[0]] + [fs[1]];
    FoldConcat(apply, [fs[0]], [fs[1]], (0, BoolV(false)));
    FoldOne(apply, fs[0], (0, BoolV(false)));
    FoldOne(apply, fs[1], (p.kind, BoolV(false)));
  }

  function KeysOf(ps: seq<Property>): seq<seq<byte>> { seq(|ps|, i requires 0 <= i < |ps| => ps[i].key) }

  function ValuesOf(ps: seq<Property>): seq<(nat, MetricValue)>
  {
    seq(|ps|, i requires 0 <= i < |ps| => (ps[i].kind, ps[i].value))
  }

  lemma {:induction false} KeysRead(utf8: Utf8, ps: seq<Property>)
    requires forall p :: p in ps ==> PropertyOk(utf8, p)
    ensures forall i :: 0 <= i < |Keys(ps)| ==> Writable(Keys(ps)[i])
    ensures Fold((s, f) => ApplySet(utf8, s, f), Keys(ps), ([], [])) == Some((KeysOf(ps), []))
  {
    hide EncodeFields;
    var apply := (s, f) => ApplySet(utf8, s, f);
    if ps != [] {
      var n := |ps| - 1;
      KeysRead(utf8, ps[..n]);
      FoldConcat(apply, Keys(ps[..n]), [Field(1, Len(ps[n].key))], ([], []));
      FoldOne(apply, Field(1, Len(ps[n].key)), (KeysOf(ps[..n]), []));
      assert PropertyOk(utf8, ps[n]);
      assert KeysOf(ps) == KeysOf(ps[..n]) + [ps[n].key];
    } else {
      assert KeysOf(ps) == [];
    }
  }

  lemma {:induction false} ValuesRead(utf8: Utf8, ps: seq<Property>, keys: seq<seq<byte>>)
    requires forall p :: p in ps ==> PropertyOk(utf8, p)
    ensures forall i :: 0 <= i < |Values(ps)| ==> Writable(Values(ps)[i])
    ensures Fold((s, f) => ApplySet(utf8, s, f), Values(ps), (keys, [])) == Some((keys, ValuesOf(ps)))
  {
    hide EncodeFields, DecodeValue;
    var apply := (s, f) => ApplySet(utf8, s, f);
    if ps != [] {
      var n := |ps| - 1;
      ValuesRead(utf8, ps[..n], keys);
      var f := Field(2, Len(EncodeFields(PropertyFields(ps[n]))));
      FoldConcat(apply, Values(ps[..n]), [f], (keys, []));
      FoldOne(apply, f, (keys, ValuesOf(ps[..n])));
      assert PropertyOk(utf8, ps[n]);
      ValueRoundTrip(utf8, ps[n]);
      assert ValuesOf(ps) == ValuesOf(ps[..n]) + [(ps[n].kind, ps[n].value)];
    } else {
      assert ValuesOf(ps) == [];
    }
  }

  lemma SetRoundTrip(utf8: Utf8, ps: seq<Property>)
    requires forall p :: p in ps ==> PropertyOk(utf8, p)
    ensures DecodeSet(utf8, EncodeFields(SetFields(ps))) == Some(ps)
  {
    hide FoldFrom, EncodeFields, ApplySet;
    var apply := (s, f) => ApplySet(utf8, s, f);
    KeysRead(utf8, ps);
    ValuesRead(utf8, ps, KeysOf(ps));
    WrittenWhole(apply, SetFields(ps), ([], []));
    FoldConcat(apply, Keys(ps), Values(ps), ([], []));
    assert Pair(KeysOf(ps), ValuesOf(ps)) == ps;
  }

  lemma FoldMaybe<S>(apply: (S, Field) -> Option<S>, fs: seq<Field>, s: S)
    requires |fs| <= 1
    ensures Fold(apply, fs, s) == if fs == [] then Some(s) else apply(s, fs[0])
  {
    if fs != [] {
      assert fs == [fs[0]];
      FoldOne(apply, fs[0], s);
    }
  }

  /** Folding field by field along a list of parts of at most one field each. */
  lemma FoldParts<S>(apply: (S, Field) -> Option<S>, a: seq<Field>, b: seq<Field>, s: S, mid: S)
    requires |b| <= 1 && Fold(apply, a, s) == Some(mid)
    ensures Fold(apply, a + b, s) == if b == [] then Some(mid) else apply(mid, b[0])
  {
    FoldConcat(apply, a, b, s);
    FoldMaybe(apply, b, mid);
  }

  lemma MetricRoundTrip(utf8: Utf8, m: Metric)
    requires MetricOk(utf8, m)
    ensures DecodeMetric(utf8, EncodeFields(MetricFields(m))) == Some(m)
  {
    hide FoldFrom, EncodeFields, DecodeSet, Fold, SetFields;
    var apply := (s, f) => ApplyMetric(utf8, s, f);
    SetRoundTrip(utf8, m.properties);
    var p0 := if m.name.Some? then [Field(1, Len(m.name.value))] else [];
    var p4 := if m.properties != [] then [Field(9, Len(EncodeFields(SetFields(m.properties))))] else [];
    var p5 := if m.value.Some? then [ValueField(m.value.value)] else [];
    var s0 := EmptyMetric();
    var s1 := s0.(name := m.name);
    var s2 := s1.(alias := m.alias);
    var s3 := s2.(timestamp := m.timestamp);
    var s4 := s3.(kind := m.kind);
    var s5 := s4.(properties := m.properties);
    FoldMaybe(apply, p0, s0);
    FoldParts(apply, p0, Optional(2, m.alias), s0, s1);
    FoldParts(apply, p0 + Optional(2, m.alias), Optional(3, m.timestamp), s0, s2);
    FoldParts(apply, p0 + Optional(2, m.alias) + Optional(3, m.timestamp), [Field(4, Var(m.kind))], s0, s3);
    FoldParts(apply, p0 + Optional(2, m.alias) + Optional(3, m.timestamp) + [Field(4, Var(m.kind))], p4, s0, s4);
    FoldParts(apply, p0 + Optional(2, m.alias) + Optional(3, m.timestamp) + [Field(4, Var(m.kind))] + p4, p5, s0, s5);
    MetricWritable(utf8, m);
    WrittenWhole(apply, MetricFields(m), s0);
  }

  lemma MetricWritable(utf8: Utf8, m: Metric)
    requires MetricOk(utf8, m)
    ensures forall i :: 0 <= i < |MetricFields(m)| ==> Writable(MetricFields(m)[i])
  {
    hide EncodeFields, SetFields;
  }

  lemma {:induction false} MetricsRead(utf8: Utf8, ms: seq<Metric>, ts: Option<nat>)
    requires forall m :: m in ms ==> MetricOk(utf8, m)
    ensures forall i :: 0 <= i < |Metrics(ms)| ==> Writable(Metrics(ms)[i])
    ensures Fold((p, f) => ApplyPayload(utf8, p, f), Metrics(ms), Payload(ts, [], None)) == Some(Payload(ts, ms, None))
  {
    hide EncodeFields, DecodeMetric, MetricFields, MetricOk;
    var apply := (p, f) => ApplyPayload(utf8, p, f);
    if ms != [] {
      var n := |ms| - 1;
      MetricsRead(utf8, ms[..n], ts);
      var f := Field(2, Len(EncodeFields(MetricFields(ms[n]))));
      FoldConcat(apply, Metrics(ms[..n]), [f], Payload(ts, [], None));
      FoldOne(apply, f, Payload(ts, ms[..n], None));
      MetricRoundTrip(utf8, ms[n]);
      MetricSize(utf8, ms[n]);
      assert ms == ms[..n] + [ms[n]];
    }
  }

  lemma MetricSize(utf8: Utf8, m: Metric)
    requires MetricOk(utf8, m)
    ensures |EncodeFields(MetricFields(m))| < U64
  {}

  /** Decoding an encoded payload gives the payload, for every payload. */
  lemma PayloadRoundTrip(utf8: Utf8, p: Payload)
    requires PayloadOk(utf8, p)
    ensures DecodePayload(utf8, EncodeFields(PayloadFields(p))) == Some(p)
  {
    hide FoldFrom, EncodeFields, Fold, Metrics, MetricOk;
    var apply := (q, f) => ApplyPayload(utf8, q, f);
    var s0 := Payload(None, [], None);
    var s1 := Payload(p.timestamp, [], None);
    var ts, last := Optional(1, p.timestamp), Optional(3, p.seqNo);
    FoldMaybe(apply, ts, s0);
    MetricsRead(utf8, p.metrics, p.timestamp);
    FoldConcat(apply, ts, Metrics(p.metrics), s0);
    FoldParts(apply, ts + Metrics(p.metrics), last, s0, Payload(p.timestamp, p.metrics, None));
    WrittenWhole(apply, PayloadFields(p), s0);
  }

  /** So no two payloads share an encoding. */
  lemma EncodingsDiffer(utf8: Utf8, p: Payload, q: Payload)
    requires PayloadOk(utf8, p) && PayloadOk(utf8, q) && EncodeFields(PayloadFields(p)) == EncodeFields(PayloadFields(q))
    ensures p == q
  {
    hide EncodeFields, DecodePayload, PayloadFields, PayloadOk;
    PayloadRoundTrip(utf8, p);
    PayloadRoundTrip(utf8, q);
  }

  // ----- the encoder and the decoder -----

  method WriteProperty(p: Property) returns (bytes: seq<byte>)
    ensures bytes == EncodeFields(PropertyFields(p))
  {
    hide EncodeField;
    var w := new Writer();
    w.WriteField(Field(1, Var(p.kind)));
    match p.value {
      case IntV(n) => w.WriteField(Field(3, Var(n)));
      case LongV(n) => w.WriteField(Field(4, Var(n)));
      case FloatV(bits) => w.WriteField(Field(5, Fixed32(bits)));
      case BoolV(b) => w.WriteField(Field(7, Var(if b then 1 else 0)));
      case StringV(s) => w.WriteField(Field(8, Len(s)));
    }
    bytes := w.bytes;
    var fs := PropertyFields(p);
    TwoFields(fs[0], fs[1]);
    assert fs == [fs[0], fs[1]];
  }

  lemma TwoFields(a: Field, b: Field)
    ensures EncodeFields([a, b]) == EncodeField(a) + EncodeField(b)
  {
    hide EncodeField;
    assert [a, b][1..] == [b] && [b][1..] == [];
    assert EncodeFields([b]) == EncodeField(b) + [] == EncodeField(b);
  }

  lemma OneMoreField(fs: seq<Field>, f: Field)
    ensures EncodeFields(fs + [f]) == EncodeFields(fs) + EncodeField(f)
  {
    hide EncodeField;
    EncodeConcat(fs, [f]);
    assert [f][1..] == [];
    assert EncodeFields([f]) == EncodeField(f) + [] == EncodeField(f);
  }

  method WriteSet(ps: seq<Property>) returns (bytes: seq<byte>)
    ensures bytes == EncodeFields(SetFields(ps))
  {
    hide EncodeField, EncodeFields, PropertyFields;
    var w := new Writer();
    NoFields();
    for i := 0 to |ps|
      invariant w.bytes == EncodeFields(Keys(ps[..i]))
    {
      assert ps[..i + 1][..i] == ps[..i];
      OneMoreField(Keys(ps[..i]), Field(1, Len(ps[i].key)));
      w.WriteField(Field(1, Len(ps[i].key)));
    }
    assert ps[..|ps|] == ps;
    EncodeConcat(Keys(ps), Values([]));
    for i := 0 to |ps|
      invariant w.bytes == EncodeFields(Keys(ps) + Values(ps[..i]))
    {
      assert ps[..i + 1][..i] == ps[..i];
      var inner := WriteProperty(ps[i]);
      OneMoreField(Keys(ps) + Values(ps[..i]), Field(2, Len(inner)));
      assert Keys(ps) + Values(ps[..i + 1]) == Keys(ps) + Values(ps[..i]) + [Field(2, Len(inner))];
      w.WriteField(Field(2, Len(inner)));
    }
    bytes := w.bytes;
  }

  /** More fields in the writer. */
  method PutAll(w: Writer, ghost fs: seq<Field>, part: seq<Field>) returns (ghost all: seq<Field>)
    requires w.bytes == EncodeFields(fs)
    modifies w
    ensures all == fs + part && w.bytes == EncodeFields(all)
  {
    hide EncodeField, EncodeFields;
    assert fs + part[..0] == fs;
    for i := 0 to |part|
      invariant w.bytes == EncodeFields(fs + part[..i])
    {
      w.WriteField(part[i]);
      OneMoreField(fs + part[..i], part[i]);
      assert fs + part[..i] + [part[i]] == fs + part[..i + 1];
    }
    assert part[..|part|] == part;
    all := fs + part;
  }

  lemma NoFields() ensures EncodeFields([]) == [] {}

  method WriteMetric(m: Metric) returns (bytes: seq<byte>)
    ensures bytes == EncodeFields(MetricFields(m))
  {
    hide EncodeField, EncodeFields, SetFields;
    var w := new Writer();
    NoFields();
    var name := if m.name.Some? then [Field(1, Len(m.name.value))] else [];
    ghost var fs := PutAll(w, [], name);
    fs := PutAll(w, fs, Optional(2, m.alias));
    fs := PutAll(w, fs, Optional(3, m.timestamp));
    fs := PutAll(w, fs, [Field(4, Var(m.kind))]);
    var props: seq<Field> := [];
    if m.properties != [] {
      var inner := WriteSet(m.properties);
      props := [Field(9, Len(inner))];
    }
    fs := PutAll(w, fs, props);
    fs := PutAll(w, fs, if m.value.Some? then [ValueField(m.value.value)] else []);
    assert [] + name == name;
    assert fs == MetricFields(m);
    bytes := w.bytes;
  }

  method Encode(p: Payload) returns (bytes: seq<byte>)
    ensures bytes == EncodeFields(PayloadFields(p))
  {
    hide EncodeField, EncodeFields, MetricFields;
    var w := new Writer();
    NoFields();
    var ts := Optional(1, p.timestamp);
    if p.timestamp.Some? {
      w.WriteField(ts[0]);
      OneMoreField([], ts[0]);
      assert [] + [ts[0]] == ts;
    }
    assert ts + Metrics([]) == ts;
    for i := 0 to |p.metrics|
      invariant w.bytes == EncodeFields(ts + Metrics(p.metrics[..i]))
    {
      assert p.metrics[..i + 1][..i] == p.metrics[..i];
      var inner := WriteMetric(p.metrics[i]);
      OneMoreField(ts + Metrics(p.metrics[..i]), Field(2, Len(inner)));
      assert ts + Metrics(p.metrics[..i + 1]) == ts + Metrics(p.metrics[..i]) + [Field(2, Len(inner))];
      w.WriteField(Field(2, Len(inner)));
    }
    assert p.metrics[..|p.metrics|] == p.metrics;
    if p.seqNo.Some? {
      w.WriteField(Field(3, Var(p.seqNo.value)));
      OneMoreField(ts + Metrics(p.metrics), Field(3, Var(p.seqNo.value)));
    } else {
      assert ts + Metrics(p.metrics) + [] == ts + Metrics(p.metrics);
    }
    bytes := w.bytes;
  }

  method ReadPropertyValue(utf8: Utf8, bytes: seq<byte>) returns (r: Option<(nat, MetricValue)>)
    ensures r == DecodeValue(utf8, bytes)
  {
    hide FieldAt;
    var c := new Cursor(bytes);
    var acc: (nat, MetricValue) := (0, BoolV(false));
    while c.pos < |bytes|
      invariant c.buf == bytes && c.Valid()
      invariant DecodeValue(utf8, bytes) == FoldFrom((s, f) => ApplyValue(utf8, s, f), bytes, c.pos, acc)
      decreases |bytes| - c.pos
    {
      var f := c.ReadField();
      if f.None? { return None; }
      match f.value {
        case Field(1, Var(n)) => acc := (n % U32, acc.1);
        case Field(3, Var(n)) => acc := (acc.0, IntV(n % U32));
        case Field(4, Var(n)) => acc := (acc.0, LongV(n));
        case Field(5, Fixed32(bits)) => acc := (acc.0, FloatV(bits));
        case Field(7, Var(n)) => acc := (acc.0, BoolV(n != 0));
        case Field(8, Len(b)) =>
          if !utf8(b) { return None; }
          acc := (acc.0, StringV(b));
        case _ =>
      }
    }
    r := Some(acc);
  }

  method ReadSet(utf8: Utf8, bytes: seq<byte>) returns (r: Option<seq<Property>>)
    ensures r == DecodeSet(utf8, bytes)
  {
    hide FieldAt, DecodeValue;
    var c := new Cursor(bytes);
    var keys: seq<seq<byte>>, values: seq<(nat, MetricValue)> := [], [];
    while c.pos < |bytes|
      invariant c.buf == bytes && c.Valid()
      invariant FoldFrom((s, f) => ApplySet(utf8, s, f), bytes, 0, ([], []))
                == FoldFrom((s, f) => ApplySet(utf8, s, f), bytes, c.pos, (keys, values))
      decreases |bytes| - c.pos
    {
      var f := c.ReadField();
      if f.None? { return None; }
      match f.value {
        case Field(1, Len(b)) =>
          if !utf8(b) { return None; }
          keys := keys + [b];
        case Field(2, Len(b)) =>
          var v := ReadPropertyValue(utf8, b);
          if v.None? { return None; }
          values := values + [v.value];
        case _ =>
      }
    }
    var out: seq<Property> := [];
    for i := 0 to |keys|
      invariant out == Pair(keys[..i], values)
    {
      if i < |values| { out := out + [Property(keys[i], values[i].0, values[i].1)]; }
    }
    assert keys[..|keys|] == keys;
    r := Some(out);
  }

  method ReadMetric(utf8: Utf8, bytes: seq<byte>) returns (r: Option<Metric>)
    ensures r == DecodeMetric(utf8, bytes)
  {
    hide FieldAt, DecodeSet;
    var c := new Cursor(bytes);
    var m := EmptyMetric();
    while c.pos < |bytes|
      invariant c.buf == bytes && c.Valid()
      invariant DecodeMetric(utf8, bytes) == FoldFrom((s, f) => ApplyMetric(utf8, s, f), bytes, c.pos, m)
      decreases |bytes| - c.pos
    {
      var f := c.ReadField();
      if f.None? { return None; }
      match f.value {
        case Field(1, Len(b)) =>
          if !utf8(b) { return None; }
          m := m.(name := Some(b));
        case Field(2, Var(n)) => m := m.(alias := Some(n));
        case Field(3, Var(n)) => m := m.(timestamp := Some(n));
        case Field(4, Var(n)) => m := m.(kind := n % U32);
        case Field(9, Len(b)) =>
          var ps := ReadSet(utf8, b);
          if ps.None? { return None; }
          m := m.(properties := ps.value);
        case Field(10, Var(n)) => m := m.(value := Some(IntV(n % U32)));
        case Field(11, Var(n)) => m := m.(value := Some(LongV(n)));
        case Field(12, Fixed32(bits)) => m := m.(value := Some(FloatV(bits)));
        case Field(14, Var(n)) => m := m.(value := Some(BoolV(n != 0)));
        case Field(15, Len(b)) =>
          if !utf8(b) { return None; }
          m := m.(value := Some(StringV(b)));
        case _ =>
      }
    }
    r := Some(m);
  }

  method Decode(utf8: Utf8, bytes: seq<byte>) returns (r: Option<Payload>)
    ensures r == DecodePayload(utf8, bytes)
  {
    hide FieldAt, DecodeMetric;
    var c := new Cursor(bytes);
    var p := Payload(None, [], None);
    while c.pos < |bytes|
      invariant c.buf == bytes && c.Valid()
      invariant DecodePayload(utf8, bytes) == FoldFrom((s, f) => ApplyPayload(utf8, s, f), bytes, c.pos, p)
      decreases |bytes| - c.pos
    {
      var f := c.ReadField();
      if f.None? { return None; }
      match f.value {
        case Field(1, Var(n)) => p := p.(timestamp := Some(n));
        case Field(2, Len(b)) =>
          var m := ReadMetric(utf8, b);
          if m.None? { return None; }
          p := p.(metrics := p.metrics + [m.value]);
        case Field(3, Var(n)) => p := p.(seqNo := Some(n));
        case _ =>
      }
    }
    r := Some(p);
  }
}
