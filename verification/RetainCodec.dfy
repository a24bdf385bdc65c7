/** The symbolic payload of retained values (crates/plc-retain/src/codec.rs). */
module RetainCodec {
  import opened Bytes
  import opened Ir
  import opened RetainLayout

  datatype Record = Record(name: Name, ty: IrType, value: seq<byte>)

  datatype CodecError = ImageSize | NameTooLong | Truncated | NotUtf8 | BadPad | BadType

  datatype Outcome<+T> = Done(value: T) | Failed(error: CodecError)

  /** UTF-8 validity is left open. */
  type Utf8 = Name -> bool

  // ----- encoding -----

  function EncodeRecord(r: Record): seq<byte>
  {
    Bytes.Le(|r.name|, 2) + r.name + [TypeTag(r.ty), 0] + r.value
  }

  function EncodeAll(recs: seq<Record>): seq<byte>
  {
    if recs == [] then []
    else EncodeAll(recs[..|recs| - 1]) + EncodeRecord(recs[|recs| - 1])
  }

  function RecordOf(s: Symbol, image: seq<byte>): Record
    requires End(s) <= |image|
  {
    Record(s.name, s.ty, image[s.offset..End(s)])
  }

  /** The records of a live image, in layout order. */
  function RecordsFrom(l: Layout, image: seq<byte>): (r: seq<Record>)
    requires Valid(l) && |image| == l.size
    ensures |r| == |l.symbols|
  {
    seq(|l.symbols|, i requires 0 <= i < |l.symbols| => RecordOf(l.symbols[i], image))
  }

  method RecordsFromImage(l: Layout, image: seq<byte>) returns (r: Outcome<seq<Record>>)
    requires Valid(l)
    ensures r == if |image| != l.size then Failed(ImageSize) else Done(RecordsFrom(l, image))
  {
    if |image| != l.size { return Failed(ImageSize); }
    return Done(RecordsFrom(l, image));
  }

  method EncodeRecords(l: Layout, image: seq<byte>) returns (r: Outcome<seq<byte>>)
    requires Valid(l)
    ensures |image| != l.size ==> r == Failed(ImageSize)
    ensures |image| == l.size ==>
              if exists i :: 0 <= i < |l.symbols| && |l.symbols[i].name| >= 0x1_0000 then r == Failed(NameTooLong)
              else r == Done(EncodeAll(RecordsFrom(l, image)))
  {
    if |image| != l.size { return Failed(ImageSize); }
    var out: seq<byte> := [];
    ghost var recs := RecordsFrom(l, image);
    for i := 0 to |l.symbols|
      invariant out == EncodeAll(recs[..i])
      invariant forall k :: 0 <= k < i ==> |l.symbols[k].name| < 0x1_0000
    {
      var s := l.symbols[i];
      if |s.name| >= 0x1_0000 { return Failed(NameTooLong); }
      out := out + Bytes.Le(|s.name|, 2);
      out := out + s.name;
      out := out + [TypeTag(s.ty)];
      out := out + [0];
      out := out + image[s.offset..s.offset + ByteWidth(s.ty)];
      assert recs[i] == RecordOf(s, image);
      assert recs[..i + 1][..i] == recs[..i];
      Appended(EncodeAll(recs[..i]), Bytes.Le(|s.name|, 2), s.name, TypeTag(s.ty), recs[i].value);
    }
    assert recs[..|l.symbols|] == recs;
    return Done(out);
  }

  lemma Appended(a: seq<byte>, b: seq<byte>, c: seq<byte>, t: byte, v: seq<byte>)
    ensures a + b + c + [t] + [0] + v == a + (b + c + [t, 0] + v)
  {}

  // ----- decoding -----

  /** One record at `i` and the position after it. */
  function DecodeOne(utf8: Utf8, p: seq<byte>, i: nat): (r: Outcome<(Record, nat)>)
    ensures r.Done? ==> i < r.value.1 <= |p|
  {
    if i + 2 > |p| then Failed(Truncated)
    else
      var n := FromLe(p[i..i + 2]);
      if i + 2 + n + 2 > |p| then Failed(Truncated)
      else
        var name := p[i + 2..i + 2 + n];
        var at := i + 2 + n;
        if !utf8(name) then Failed(NotUtf8)
        else if p[at + 1] != 0 then Failed(BadPad)
        else
          var ty := TypeOfTag(p[at]);
          if ty.None? then Failed(BadType)
          else
            var w := ByteWidth(ty.value);
            if at + 2 + w > |p| then Failed(Truncated)
            else Done((Record(name, ty.value, p[at + 2..at + 2 + w]), at + 2 + w))
  }

  function DecodeFrom(utf8: Utf8, p: seq<byte>, i: nat): Outcome<seq<Record>>
    decreases |p| - i
  {
    if i >= |p| then Done([])
    else
      var one := DecodeOne(utf8, p, i);
      if one.Failed? then Failed(one.error)
      else
        var rest := DecodeFrom(utf8, p, one.value.1);
        if rest.Failed? then rest else Done([one.value.0] + rest.value)
  }

  method DecodeRecords(utf8: Utf8, p: seq<byte>) returns (r: Outcome<seq<Record>>)
    ensures r == DecodeFrom(utf8, p, 0)
  {
    var recs: seq<Record> := [];
    var i := 0;
    ghost var all := DecodeFrom(utf8, p, 0);
    if all.Done? { assert recs + all.value == all.value; }
    while i < |p|
      invariant i <= |p|
      invariant var rest := DecodeFrom(utf8, p, i);
                all == if rest.Failed? then rest else Done(recs + rest.value)
    {
      var one := DecodeOne(utf8, p, i);
      if one.Failed? { return Failed(one.error); }
      ghost var rest := DecodeFrom(utf8, p, one.value.1);
      if rest.Done? { assert recs + ([one.value.0] + rest.value) == (recs + [one.value.0]) + rest.value; }
      recs := recs + [one.value.0];
      i := one.value.1;
    }
    assert recs + [] == recs;
    return Done(recs);
  }

  // ----- round trip -----

  predicate Storable(utf8: Utf8, r: Record)
  {
    |r.name| < 0x1_0000 && utf8(r.name) && |r.value| == ByteWidth(r.ty)
  }

  lemma DecodeOneOfEncode(utf8: Utf8, p: seq<byte>, i: nat, r: Record)
    requires Storable(utf8, r)
    requires i + |EncodeRecord(r)| <= |p| && p[i..i + |EncodeRecord(r)|] == EncodeRecord(r)
    ensures DecodeOne(utf8, p, i) == Done((r, i + |EncodeRecord(r)|))
  {
    Powers();
    var e := EncodeRecord(r);
    var n := |r.name|;
    forall lo, hi | 0 <= lo <= hi <= |e| ensures p[i + lo..i + hi] == e[lo..hi] {
      SubSlice(p, i, i + |e|, lo, hi);
    }
    assert p[i..i + 2] == e[0..2] == Bytes.Le(n, 2);
    FromLeOfLe(n, 2);
    assert p[i + 2..i + 2 + n] == e[2..2 + n] == r.name;
    assert p[i + 2 + n] == p[i + (2 + n)..i + (3 + n)][0] == e[2 + n] == TypeTag(r.ty);
    assert p[i + 2 + n + 1] == p[i + (3 + n)..i + (4 + n)][0] == e[3 + n] == 0;
    assert p[i + 2 + n + 2..i + 2 + n + 2 + |r.value|] == e[4 + n..4 + n + |r.value|] == r.value;
  }

  function EncodeList(recs: seq<Record>): seq<byte>
  {
    if recs == [] then [] else EncodeRecord(recs[0]) + EncodeList(recs[1..])
  }

  lemma {:induction false} EncodeListLast(recs: seq<Record>, r: Record)
    ensures EncodeList(recs + [r]) == EncodeList(recs) + EncodeRecord(r)
  {
    if recs == [] {
      assert EncodeList([r]) == EncodeRecord(r) + EncodeList([]);
      assert [] + [r] == [r];
    } else {
      EncodeListLast(recs[1..], r);
      assert (recs + [r])[1..] == recs[1..] + [r];
      assert EncodeRecord(recs[0]) + (EncodeList(recs[1..]) + EncodeRecord(r))
          == (EncodeRecord(recs[0]) + EncodeList(recs[1..])) + EncodeRecord(r);
    }
  }

  /** Appending at the end builds the same bytes as prepending at the front. */
  lemma {:induction false} EncodeAllIsList(recs: seq<Record>)
    ensures EncodeAll(recs) == EncodeList(recs)
  {
    if recs != [] {
      var n := |recs| - 1;
      EncodeAllIsList(recs[..n]);
      EncodeListLast(recs[..n], recs[n]);
      assert recs == recs[..n] + [recs[n]];
    }
  }

  lemma {:induction false} DecodeOfList(utf8: Utf8, pre: seq<byte>, recs: seq<Record>)
    requires forall k :: 0 <= k < |recs| ==> Storable(utf8, recs[k])
    ensures DecodeFrom(utf8, pre + EncodeList(recs), |pre|) == Done(recs)
    decreases recs
  {
    hide EncodeRecord, DecodeOne, Storable;
    if recs != [] {
      var e := EncodeRecord(recs[0]);
      var p := pre + EncodeList(recs);
      assert Storable(utf8, recs[0]);
      assert p == (pre + e) + EncodeList(recs[1..]);
      assert p[|pre|..|pre| + |e|] == e;
      DecodeOneOfEncode(utf8, p, |pre|, recs[0]);
      NotEmpty(recs[0]);
      DecodeOfList(utf8, pre + e, recs[1..]);
      assert recs == [recs[0]] + recs[1..];
    }
  }

  lemma NotEmpty(r: Record)
    ensures |EncodeRecord(r)| > 0
  {}

  /** Decoding the encoded records of an image gives back the records of the image. */
  lemma DecodeOfEncode(utf8: Utf8, l: Layout, image: seq<byte>)
    requires Valid(l) && |image| == l.size
    requires forall i :: 0 <= i < |l.symbols| ==> |l.symbols[i].name| < 0x1_0000 && utf8(l.symbols[i].name)
    ensures DecodeFrom(utf8, EncodeAll(RecordsFrom(l, image)), 0) == Done(RecordsFrom(l, image))
  {
    var recs := RecordsFrom(l, image);
    EncodeAllIsList(recs);
    forall k | 0 <= k < |recs| ensures Storable(utf8, recs[k]) {
      assert recs[k] == RecordOf(l.symbols[k], image);
    }
    DecodeOfList(utf8, [], recs);
    assert [] + EncodeList(recs) == EncodeList(recs);
  }
}
