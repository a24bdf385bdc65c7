/** Package framing: magic, version, a length-prefixed manifest, counted length-prefixed
    sections and a signature (crates/plc-package/src/format.rs). The manifest parser and the
    guess at CBOR input are parameters; signatures are bytes. */
module Spkg {
  import opened Bytes

  const VERSION: nat := 1
  const MAX_PACKAGE_BYTES: nat := 8 * 1024 * 1024
  const SIGNATURE_LEN: nat := 64
  const MIN_HEADER: nat := 10
  const MAGIC: seq<byte> := [0x53, 0x50, 0x4B, 0x47]

  datatype Error =
    | TooLarge | CborRejected | Truncated | BadMagic | UnsupportedVersion | BadManifest | SectionCount | TrailingBytes

  datatype Result<+T> = Ok(value: T) | Err(error: Error)

  datatype Package = Package(manifest: seq<byte>, sections: seq<seq<byte>>, signature: seq<byte>)

  // ----- writing -----

  function SectionBytes(s: seq<byte>): seq<byte>
  {
    Le(|s|, 4) + s
  }

  function SectionsBytes(ss: seq<seq<byte>>): (r: seq<byte>)
    ensures |r| >= 4 * |ss|
  {
    if ss == [] then [] else SectionsBytes(ss[..|ss| - 1]) + SectionBytes(ss[|ss| - 1])
  }

  function Header(manifest: seq<byte>, count: nat): seq<byte>
  {
    MAGIC + Le(VERSION, 2) + Le(|manifest|, 4) + manifest + Le(count, 4)
  }

  function Framed(p: Package): seq<byte>
  {
    Header(p.manifest, |p.sections|) + SectionsBytes(p.sections) + p.signature
  }

  /** Lengths that fit their 32-bit fields. */
  predicate Fits32(p: Package)
  {
    |p.manifest| < Pow256(4) && |p.sections| < Pow256(4) && forall k :: 0 <= k < |p.sections| ==> |p.sections[k]| < Pow256(4)
  }

  predicate Writable(p: Package)
  {
    p.sections != [] && Fits32(p) && |Framed(p)| <= MAX_PACKAGE_BYTES
  }

  /** Writes exactly the packages with at least one section that fit the limits. */
  method Write(p: Package) returns (r: Result<seq<byte>>)
    requires |p.signature| == SIGNATURE_LEN
    ensures r.Ok? <==> Writable(p)
    ensures r.Ok? ==> r.value == Framed(p)
  {
    hide Pow256, Le;
    if p.sections == [] { return Err(SectionCount); }
    if |p.manifest| >= Pow256(4) { return Err(BadManifest); }
    var out := MAGIC + Le(VERSION, 2) + Le(|p.manifest|, 4) + p.manifest;
    if |p.sections| >= Pow256(4) { return Err(SectionCount); }
    out := out + Le(|p.sections|, 4);
    for k := 0 to |p.sections|
      invariant out == Header(p.manifest, |p.sections|) + SectionsBytes(p.sections[..k])
      invariant forall j :: 0 <= j < k ==> |p.sections[j]| < Pow256(4)
    {
      if |p.sections[k]| >= Pow256(4) { return Err(Truncated); }
      out := out + Le(|p.sections[k]|, 4) + p.sections[k];
      assert p.sections[..k + 1][..k] == p.sections[..k];
    }
    assert p.sections[..|p.sections|] == p.sections;
    out := out + p.signature;
    if |out| > MAX_PACKAGE_BYTES { return Err(TooLarge); }
    r := Ok(out);
  }

  // ----- parsing -----

  function ReadLe(b: seq<byte>, off: nat, w: nat): (r: Result<nat>)
    ensures r.Ok? <==> off + w <= |b|
  {
    if off + w <= |b| then Ok(FromLe(b[off..off + w])) else Err(Truncated)
  }

  /** `count` more sections from an offset: the sections and the offset after them. */
  function SectionsFrom(b: seq<byte>, off: nat, count: nat): (r: Result<(seq<seq<byte>>, nat)>)
    requires off <= |b|
    ensures r.Ok? ==> |r.value.0| == count && off <= r.value.1 <= |b|
    ensures r.Err? ==> r.error.Truncated?
    decreases count
  {
    if count == 0 then Ok(([], off))
    else
      var len := ReadLe(b, off, 4);
      if len.Err? then Err(Truncated)
      else if off + 4 + len.value > |b| then Err(Truncated)
      else
        var rest := SectionsFrom(b, off + 4 + len.value, count - 1);
        if rest.Err? then rest else Ok(([b[off + 4..off + 4 + len.value]] + rest.value.0, rest.value.1))
  }

  function Parsed(b: seq<byte>, cbor: seq<byte> -> bool, manifestOk: seq<byte> -> bool): Result<Package>
  {
    if |b| > MAX_PACKAGE_BYTES then Err(TooLarge)
    else if |b| < MIN_HEADER then Err(if cbor(b) then CborRejected else Truncated)
    else if b[..4] != MAGIC then Err(if cbor(b) then CborRejected else BadMagic)
    else if FromLe(b[4..6]) != VERSION then Err(UnsupportedVersion)
    else
      var end := 10 + FromLe(b[6..10]);
      if end > |b| then Err(Truncated)
      else if !manifestOk(b[10..end]) then Err(BadManifest)
      else
        var count := ReadLe(b, end, 4);
        if count.Err? then Err(Truncated)
        else if count.value == 0 then Err(SectionCount)
        else if |b| - (end + 4) < SIGNATURE_LEN || count.value > (|b| - (end + 4) - SIGNATURE_LEN) / 4 then Err(Truncated)
        else
          var ss := SectionsFrom(b, end + 4, count.value);
          if ss.Err? then Err(ss.error)
          else if ss.value.1 + SIGNATURE_LEN > |b| then Err(Truncated)
          else if ss.value.1 + SIGNATURE_LEN < |b| then Err(TrailingBytes)
          else Ok(Package(b[10..end], ss.value.0, b[ss.value.1..]))
  }

  method Parse(b: seq<byte>, cbor: seq<byte> -> bool, manifestOk: seq<byte> -> bool) returns (r: Result<Package>)
    ensures r == Parsed(b, cbor, manifestOk)
  {
    hide FromLe;
    if |b| > MAX_PACKAGE_BYTES { return Err(TooLarge); }
    if |b| < MIN_HEADER { return Err(if cbor(b) then CborRejected else Truncated); }
    if b[..4] != MAGIC { return Err(if cbor(b) then CborRejected else BadMagic); }
    if FromLe(b[4..6]) != VERSION { return Err(UnsupportedVersion); }
    var end := 10 + FromLe(b[6..10]);
    if end > |b| { return Err(Truncated); }
    if !manifestOk(b[10..end]) { return Err(BadManifest); }
    var off := end;
    var count := ReadLe(b, off, 4);
    if count.Err? { return Err(Truncated); }
    off := off + 4;
    if count.value == 0 { return Err(SectionCount); }
    var room := if |b| - off < SIGNATURE_LEN then 0 else (|b| - off - SIGNATURE_LEN) / 4;
    if count.value > room { return Err(Truncated); }
    var sections: seq<seq<byte>> := [];
    ghost var whole := SectionsFrom(b, off, count.value);
    if whole.Ok? { assert [] + whole.value.0 == whole.value.0; }
    for k := 0 to count.value
      invariant |sections| == k && end <= off <= |b|
      invariant var rest := SectionsFrom(b, off, count.value - k);
                if rest.Err? then whole.Err?
                else whole.Ok? && whole.value == (sections + rest.value.0, rest.value.1)
    {
      var len := ReadLe(b, off, 4);
      if len.Err? { return Err(Truncated); }
      off := off + 4;
      if off + len.value > |b| { return Err(Truncated); }
      ghost var rest := SectionsFrom(b, off + len.value, count.value - k - 1);
      if rest.Ok? {
        assert sections + ([b[off..off + len.value]] + rest.value.0) == sections + [b[off..off + len.value]] + rest.value.0;
      }
      sections := sections + [b[off..off + len.value]];
      off := off + len.value;
    }
    assert sections + [] == sections;
    if off + SIGNATURE_LEN > |b| { return Err(Truncated); }
    if off + SIGNATURE_LEN < |b| { return Err(TrailingBytes); }
    r := Ok(Package(b[10..end], sections, b[off..]));
  }

  // ----- exactness -----

  /** Sections written one after the other are read back, wherever they stand. */
  lemma {:induction false} SectionsRead(pre: seq<byte>, ss: seq<seq<byte>>, post: seq<byte>)
    requires forall k :: 0 <= k < |ss| ==> |ss[k]| < Pow256(4)
    ensures SectionsFrom(pre + SectionsBytes(ss) + post, |pre|, |ss|) == Ok((ss, |pre| + |SectionsBytes(ss)|))
    decreases ss
  {
    hide SectionBytes, ReadLe, Pow256;
    if ss != [] {
      FirstSection(ss);
      var pre2, more := pre + SectionBytes(ss[0]), SectionsBytes(ss[1..]) + post;
      var b := pre + SectionsBytes(ss) + post;
      assert b == pre + SectionBytes(ss[0]) + more;
      OneSection(pre, ss[0], more);
      assert b == pre2 + SectionsBytes(ss[1..]) + post;
      SectionsRead(pre2, ss[1..], post);
      assert [ss[0]] + ss[1..] == ss;
    }
  }

  lemma OneSection(pre: seq<byte>, s: seq<byte>, post: seq<byte>)
    requires |s| < Pow256(4)
    ensures var b := pre + SectionBytes(s) + post;
            && |SectionBytes(s)| == 4 + |s| && ReadLe(b, |pre|, 4) == Ok(|s|)
            && |pre| + 4 + |s| <= |b| && b[|pre| + 4..|pre| + 4 + |s|] == s
  {
    hide FromLe, Le, Pow256;
    FromLeOfLe(|s|, 4);
    var b := pre + SectionBytes(s) + post;
    assert b[|pre|..|pre| + 4] == Le(|s|, 4);
  }

  lemma {:induction false} FirstSection(ss: seq<seq<byte>>)
    requires ss != []
    ensures SectionsBytes(ss) == SectionBytes(ss[0]) + SectionsBytes(ss[1..])
  {
    hide SectionBytes;
    var n := |ss| - 1;
    if n > 0 {
      FirstSection(ss[..n]);
      assert ss[..n][1..] == ss[1..][..n - 1];
    } else {
      assert ss[..n] == [] && ss[1..] == [];
    }
  }

  /** And what was read writes back the bytes it was read from. */
  lemma {:induction false} SectionsWrite(b: seq<byte>, off: nat, count: nat)
    requires off <= |b| && SectionsFrom(b, off, count).Ok?
    ensures var (ss, end) := SectionsFrom(b, off, count).value;
            SectionsBytes(ss) == b[off..end] && forall k :: 0 <= k < |ss| ==> |ss[k]| < Pow256(4)
    decreases count
  {
    hide FromLe, Le, Pow256;
    if count > 0 {
      var len := ReadLe(b, off, 4).value;
      var next := off + 4 + len;
      SectionsWrite(b, next, count - 1);
      var (ss, end) := SectionsFrom(b, off, count).value;
      LeOfFromLe(b[off..off + 4]);
      FirstSection(ss);
      assert ss[1..] == SectionsFrom(b, next, count - 1).value.0;
      assert Le(len, 4) == b[off..off + 4] && ss[0] == b[off + 4..next];
      assert SectionBytes(ss[0]) == b[off..off + 4] + b[off + 4..next] == b[off..next];
      assert b[off..end] == b[off..next] + b[next..end];
    }
  }

  /** Every written package parses back to itself exactly when its manifest parses; in
      particular the bound on the section count never refuses a written package. */
  lemma ParseOfWrite(p: Package, cbor: seq<byte> -> bool, manifestOk: seq<byte> -> bool)
    requires |p.signature| == SIGNATURE_LEN && Writable(p)
    ensures Parsed(Framed(p), cbor, manifestOk) == if manifestOk(p.manifest) then Ok(p) else Err(BadManifest)
  {
    hide FromLe, Le, SectionsFrom, SectionsBytes, Pow256;
    var b := Framed(p);
    HeaderRead(p.manifest, |p.sections|, SectionsBytes(p.sections) + p.signature);
    assert b == Header(p.manifest, |p.sections|) + (SectionsBytes(p.sections) + p.signature);
    SectionsRead(Header(p.manifest, |p.sections|), p.sections, p.signature);
    var end := |Header(p.manifest, |p.sections|)| + |SectionsBytes(p.sections)|;
    assert b[end..] == p.signature;
  }

  lemma HeaderRead(manifest: seq<byte>, count: nat, post: seq<byte>)
    requires |manifest| < Pow256(4) && count < Pow256(4)
    ensures var b := Header(manifest, count) + post;
            && |b| >= 10 && b[..4] == MAGIC && FromLe(b[4..6]) == VERSION && FromLe(b[6..10]) == |manifest|
            && b[10..10 + |manifest|] == manifest && FromLe(b[10 + |manifest|..14 + |manifest|]) == count
            && |Header(manifest, count)| == 14 + |manifest|
  {
    Powers();
    hide FromLe, Le, Pow256;
    FromLeOfLe(VERSION, 2);
    FromLeOfLe(|manifest|, 4);
    FromLeOfLe(count, 4);
    var b := Header(manifest, count) + post;
    assert b[4..6] == Le(VERSION, 2) && b[6..10] == Le(|manifest|, 4);
    assert b[10 + |manifest|..14 + |manifest|] == Le(count, 4);
  }

  /** Every accepted buffer is what writing the parsed package gives. */
  lemma WriteOfParse(b: seq<byte>, cbor: seq<byte> -> bool, manifestOk: seq<byte> -> bool)
    requires Parsed(b, cbor, manifestOk).Ok?
    ensures var p := Parsed(b, cbor, manifestOk).value;
            |p.signature| == SIGNATURE_LEN && Writable(p) && Framed(p) == b
  {
    hide FromLe, Le, SectionsFrom, SectionsBytes, Pow256;
    var p := Parsed(b, cbor, manifestOk).value;
    var end := 10 + |p.manifest|;
    SectionsWrite(b, end + 4, |p.sections|);
    LeOfFromLe(b[4..6]);
    LeOfFromLe(b[6..10]);
    LeOfFromLe(b[end..end + 4]);
    var at := SectionsFrom(b, end + 4, |p.sections|).value.1;
    assert Header(p.manifest, |p.sections|) == b[..end + 4] by {
      assert b[..end + 4] == b[..4] + b[4..6] + b[6..10] + b[10..end] + b[end..end + 4];
    }
    assert b == b[..end + 4] + b[end + 4..at] + b[at..];
  }
}
