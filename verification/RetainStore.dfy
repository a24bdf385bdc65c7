/** The A/B store for retained memory: slot and index files, what a crash can leave of a
    write, and what loading returns afterwards (crates/plc-retain/src/store.rs). */
module RetainStore {
  import opened Bytes
  import opened Ir
  import opened RetainLayout
  import opened RetainCodec
  import opened RetainMap

  type word32 = x: int | 0 <= x < 0x1_0000_0000

  /** The checksum is left open: the crash argument does not rest on it. */
  type Crc = seq<byte> -> word32

  const SLOT_MAGIC: seq<byte> := [0x53, 0x50, 0x52, 0x54]
  const IDX_MAGIC: seq<byte> := [0x53, 0x50, 0x52, 0x49]
  const RETAIN_VERSION: nat := 1
  const SLOT_HEADER_LEN: nat := 32
  const IDX_LEN: nat := 64
  const MAX_GENERATION: nat := 0xFFFF_FFFF_FFFF_FFFF

  datatype SlotImage = SlotImage(generation: nat, records: seq<Record>)

  datatype IdxRecord = IdxRecord(slot: nat, generation: nat)

  // ----- file formats -----

  /** Everything of a slot header before the checksum. */
  function SlotFront(generation: nat, schema: nat, count: nat, len: nat): (s: seq<byte>)
    ensures |s| == 28
  {
    SLOT_MAGIC + Bytes.Le(RETAIN_VERSION, 2) + Bytes.Le(0, 2) + Bytes.Le(generation, 8)
    + Bytes.Le(schema, 4) + Bytes.Le(count, 4) + Bytes.Le(len, 4)
  }

  function SlotBytes(crc: Crc, generation: nat, schema: nat, count: nat, payload: seq<byte>): (s: seq<byte>)
    ensures |s| == SLOT_HEADER_LEN + |payload|
  {
    var front := SlotFront(generation, schema, count, |payload|);
    front + Bytes.Le(crc(front + [0, 0, 0, 0] + payload), 4) + payload
  }

  /** Fills a slot buffer field by field; the checksum is taken over a zero field. */
  method EncodeSlot(crc: Crc, generation: nat, schema: nat, count: nat, payload: seq<byte>) returns (s: seq<byte>)
    ensures s == SlotBytes(crc, generation, schema, count, payload)
  {
    hide Bytes.Le, Blit, Zeros;
    var n := SLOT_HEADER_LEN + |payload|;
    var buf := new byte[n](i => 0);
    ghost var done: seq<byte> := [];
    AllZero(n);
    assert buf[..] == done + Zeros(n);
    AppendField(buf, 0, SLOT_MAGIC, done);
    done := SLOT_MAGIC;
    AppendField(buf, 4, Bytes.Le(RETAIN_VERSION, 2), done);
    done := done + Bytes.Le(RETAIN_VERSION, 2);
    AppendField(buf, 6, Bytes.Le(0, 2), done);
    done := done + Bytes.Le(0, 2);
    AppendField(buf, 8, Bytes.Le(generation, 8), done);
    done := done + Bytes.Le(generation, 8);
    AppendField(buf, 16, Bytes.Le(schema, 4), done);
    done := done + Bytes.Le(schema, 4);
    AppendField(buf, 20, Bytes.Le(count, 4), done);
    done := done + Bytes.Le(count, 4);
    AppendField(buf, 24, Bytes.Le(|payload|, 4), done);
    done := done + Bytes.Le(|payload|, 4);
    ZeroField(done, payload);
    CopyInto(buf, 32, payload);
    var sum := crc(buf[..]);
    CopyInto(buf, 28, Bytes.Le(sum, 4));
    SumField(done, Bytes.Le(sum, 4), payload);
    s := buf[..];
  }

  lemma AllZero(n: nat)
    ensures [] + Zeros(n) == Zeros(n) == seq(n, i => 0)
  {}

  /** Writes the next field of a buffer that is zero from there on. */
  method AppendField(buf: array<byte>, at: nat, field: seq<byte>, ghost done: seq<byte>)
    requires at == |done| && at + |field| <= buf.Length && buf[..] == done + Zeros(buf.Length - at)
    modifies buf
    ensures buf[..] == done + field + Zeros(buf.Length - at - |field|)
  {
    CopyInto(buf, at, field);
  }

  lemma ZeroField(front: seq<byte>, payload: seq<byte>)
    requires |front| == 28
    ensures Blit(front + Zeros(4 + |payload|), 32, payload) == front + [0, 0, 0, 0] + payload
  {}

  lemma SumField(front: seq<byte>, sum: seq<byte>, payload: seq<byte>)
    requires |front| == 28 && |sum| == 4
    ensures Blit(front + [0, 0, 0, 0] + payload, 28, sum) == front + sum + payload
  {}

  function DecodeSlot(crc: Crc, utf8: Utf8, bytes: seq<byte>): Option<SlotImage>
  {
    if |bytes| < SLOT_HEADER_LEN then None
    else if bytes[0..4] != SLOT_MAGIC then None
    else if FromLe(bytes[4..6]) != RETAIN_VERSION then None
    else if |bytes| != SLOT_HEADER_LEN + FromLe(bytes[24..28]) then None
    else if crc(bytes[..28] + [0, 0, 0, 0] + bytes[32..]) != FromLe(bytes[28..32]) then None
    else
      var recs := DecodeFrom(utf8, bytes[SLOT_HEADER_LEN..], 0);
      if recs.Failed? then None else Some(SlotImage(FromLe(bytes[8..16]), recs.value))
  }

  function IdxFront(slot: nat, generation: nat): (s: seq<byte>)
    requires slot < 256
    ensures |s| == 16
  {
    var b: byte := slot;
    IDX_MAGIC + Bytes.Le(RETAIN_VERSION, 2) + [b, 0] + Bytes.Le(generation, 8)
  }

  function IdxBytes(crc: Crc, slot: nat, generation: nat): (s: seq<byte>)
    requires slot < 256
    ensures |s| == IDX_LEN
  {
    var front := IdxFront(slot, generation);
    front + Bytes.Le(crc(front), 4) + Zeros(44)
  }

  function DecodeIdx(crc: Crc, bytes: seq<byte>): (r: Option<IdxRecord>)
    ensures r.Some? ==> r.value.slot <= 1
  {
    if |bytes| != IDX_LEN then None
    else if bytes[0..4] != IDX_MAGIC then None
    else if FromLe(bytes[4..6]) != RETAIN_VERSION then None
    else if bytes[6] > 1 then None
    else if crc(bytes[..16]) != FromLe(bytes[16..20]) then None
    else Some(IdxRecord(bytes[6], FromLe(bytes[8..16])))
  }

  lemma FrontFields(generation: nat, schema: nat, count: nat, len: nat, tail: seq<byte>)
    ensures var b := SlotFront(generation, schema, count, len) + tail;
            && b[0..4] == SLOT_MAGIC && b[4..6] == Bytes.Le(RETAIN_VERSION, 2) && b[8..16] == Bytes.Le(generation, 8)
            && b[24..28] == Bytes.Le(len, 4)
  {}

  /** A slot file that was written completely decodes to what went in. */
  lemma SlotRoundTrip(crc: Crc, utf8: Utf8, generation: nat, schema: nat, count: nat, payload: seq<byte>, recs: seq<Record>)
    requires generation <= MAX_GENERATION && |payload| < 0x1_0000_0000
    requires DecodeFrom(utf8, payload, 0) == Done(recs)
    ensures DecodeSlot(crc, utf8, SlotBytes(crc, generation, schema, count, payload)) == Some(SlotImage(generation, recs))
  {
    hide SlotFront, SlotBytes, DecodeFrom, FromLe, Bytes.Le;
    Powers();
    SlotFields(crc, generation, schema, count, payload);
    FromLeOfLe(RETAIN_VERSION, 2);
    FromLeOfLe(generation, 8);
    FromLeOfLe(|payload|, 4);
    FromLeOfLe(crc(SlotFront(generation, schema, count, |payload|) + [0, 0, 0, 0] + payload), 4);
  }

  lemma SlotFields(crc: Crc, generation: nat, schema: nat, count: nat, payload: seq<byte>)
    ensures var front := SlotFront(generation, schema, count, |payload|);
            var b := SlotBytes(crc, generation, schema, count, payload);
            && b[0..4] == SLOT_MAGIC && b[4..6] == Bytes.Le(RETAIN_VERSION, 2) && b[8..16] == Bytes.Le(generation, 8)
            && b[24..28] == Bytes.Le(|payload|, 4) && b[28..32] == Bytes.Le(crc(front + [0, 0, 0, 0] + payload), 4)
            && b[..28] == front && b[32..] == payload
  {
    hide SlotFront, Bytes.Le;
    var front := SlotFront(generation, schema, count, |payload|);
    var sum := Bytes.Le(crc(front + [0, 0, 0, 0] + payload), 4);
    assert SlotBytes(crc, generation, schema, count, payload) == front + (sum + payload);
    FrontFields(generation, schema, count, |payload|, sum + payload);
    SumFields(front, sum, payload);
  }

  lemma SumFields(front: seq<byte>, sum: seq<byte>, payload: seq<byte>)
    requires |front| == 28 && |sum| == 4
    ensures var b := front + (sum + payload);
            |b| == 32 + |payload| && b[28..32] == sum && b[32..] == payload && b[..28] == front
  {}

  /** A slot file cut short never decodes, by its length alone. */
  lemma SlotTorn(crc: Crc, utf8: Utf8, generation: nat, schema: nat, count: nat, payload: seq<byte>, n: nat)
    requires |payload| < 0x1_0000_0000 && n < SLOT_HEADER_LEN + |payload|
    ensures DecodeSlot(crc, utf8, SlotBytes(crc, generation, schema, count, payload)[..n]) == None
  {
    hide SlotFront, DecodeFrom, FromLe, Bytes.Le;
    Powers();
    var front := SlotFront(generation, schema, count, |payload|);
    var tail := Bytes.Le(crc(front + [0, 0, 0, 0] + payload), 4) + payload;
    var b := SlotBytes(crc, generation, schema, count, payload);
    assert b == front + tail;
    if n >= SLOT_HEADER_LEN {
      FrontFields(generation, schema, count, |payload|, tail);
      FromLeOfLe(|payload|, 4);
      assert b[..n][24..28] == b[24..28];
    }
  }

  lemma IdxRoundTrip(crc: Crc, slot: nat, generation: nat)
    requires slot <= 1 && generation <= MAX_GENERATION
    ensures DecodeIdx(crc, IdxBytes(crc, slot, generation)) == Some(IdxRecord(slot, generation))
  {
    hide FromLe, Bytes.Le;
    Powers();
    var front := IdxFront(slot, generation);
    var b := IdxBytes(crc, slot, generation);
    FromLeOfLe(RETAIN_VERSION, 2);
    FromLeOfLe(generation, 8);
    FromLeOfLe(crc(front), 4);
    assert b[..16] == front && b[16..20] == Bytes.Le(crc(front), 4);
    assert b[0..4] == IDX_MAGIC && b[4..6] == Bytes.Le(RETAIN_VERSION, 2) && b[8..16] == Bytes.Le(generation, 8);
  }

  // ----- files and what a crash leaves -----

  datatype Files = Files(s0: Option<seq<byte>>, s1: Option<seq<byte>>, idx: Option<seq<byte>>)

  /** How far an interrupted write got: not even the truncation, the truncation, a strict
      prefix, or everything. */
  datatype Tear = Untouched | Emptied | Cut(n: nat) | Whole

  datatype Crash = NoCrash | InSlot(tear: Tear) | InIdx(tear: Tear)

  function Written(was: Option<seq<byte>>, bytes: seq<byte>, t: Tear): Option<seq<byte>>
  {
    match t
    case Untouched => was
    case Emptied => Some([])
    case Cut(n) => Some(if n < |bytes| then bytes[..n] else bytes)
    case Whole => Some(bytes)
  }

  // ----- choosing -----

  datatype Disk = Disk(crc: Crc, utf8: Utf8)

  function ReadSlot(d: Disk, f: Option<seq<byte>>): Option<SlotImage>
  {
    if f.None? then None else DecodeSlot(d.crc, d.utf8, f.value)
  }

  function ReadIdx(d: Disk, f: Option<seq<byte>>): (r: Option<IdxRecord>)
    ensures r.Some? ==> r.value.slot <= 1
  {
    if f.None? then None else DecodeIdx(d.crc, f.value)
  }

  function SlotFile(f: Files, slot: nat): Option<seq<byte>> { if slot == 0 then f.s0 else f.s1 }

  /** Slot and generation a flush takes as committed; the index is believed as it stands. */
  function Committed(d: Disk, f: Files): (r: (nat, nat))
    ensures r.0 <= 1
  {
    var idx := ReadIdx(d, f.idx);
    if idx.Some? then (idx.value.slot, idx.value.generation)
    else
      match (ReadSlot(d, f.s0), ReadSlot(d, f.s1))
      case (Some(a), Some(b)) => if a.generation >= b.generation then (0, a.generation) else (1, b.generation)
      case (Some(a), None) => (0, a.generation)
      case (None, Some(b)) => (1, b.generation)
      case (None, None) => (1, 0)
  }

  /** The slot a load takes: the one the index names if it has the named generation, else
      the other one; without an index the younger one. */
  function ChooseSlot(idx: Option<IdxRecord>, s0: Option<SlotImage>, s1: Option<SlotImage>): (r: Option<(nat, SlotImage)>)
    ensures r.Some? ==> r.value.0 <= 1 && (if r.value.0 == 0 then s0 else s1) == Some(r.value.1)
  {
    if idx.Some? then
      var preferred := if idx.value.slot == 0 then s0 else s1;
      var other := if idx.value.slot == 0 then s1 else s0;
      if preferred.Some? && preferred.value.generation == idx.value.generation then
        Some((if idx.value.slot == 0 then 0 else 1, preferred.value))
      else if other.Some? then Some((if idx.value.slot == 0 then 1 else 0, other.value))
      else None
    else
      match (s0, s1)
      case (Some(a), Some(b)) => if a.generation >= b.generation then Some((0, a)) else Some((1, b))
      case (Some(a), None) => Some((0, a))
      case (None, Some(b)) => Some((1, b))
      case (None, None) => None
  }

  function Loadable(d: Disk, f: Files): Option<(nat, SlotImage)>
  {
    ChooseSlot(ReadIdx(d, f.idx), ReadSlot(d, f.s0), ReadSlot(d, f.s1))
  }

  // ----- flushing -----

  /** Schema label of a layout. */
  function SchemaBytes(l: Layout, n: nat): seq<byte>
    requires n <= |l.symbols|
  {
    if n == 0 then []
    else
      var s := l.symbols[n - 1];
      SchemaBytes(l, n - 1) + s.name + [0] + [TypeTag(s.ty)] + Bytes.Le(s.offset, 4) + Bytes.Le(l.size, 4)
  }

  method SchemaHash(crc: Crc, l: Layout) returns (h: word32)
    ensures h == crc(SchemaBytes(l, |l.symbols|))
  {
    var buf: seq<byte> := [];
    for i := 0 to |l.symbols|
      invariant buf == SchemaBytes(l, i)
    {
      var s := l.symbols[i];
      buf := buf + s.name;
      buf := buf + [0];
      buf := buf + [TypeTag(s.ty)];
      buf := buf + Bytes.Le(s.offset, 4);
      buf := buf + Bytes.Le(l.size, 4);
    }
    h := crc(buf);
  }

  function NextGeneration(g: nat): nat { if g >= MAX_GENERATION then MAX_GENERATION else g + 1 }

  /** The slot file a flush writes. */
  function FlushBytes(d: Disk, f: Files, l: Layout, image: seq<byte>): seq<byte>
    requires Valid(l) && |image| == l.size
  {
    SlotBytes(d.crc, NextGeneration(Committed(d, f).1), d.crc(SchemaBytes(l, |l.symbols|)), |l.symbols|,
              EncodeAll(RecordsFrom(l, image)))
  }

  /** The files after a flush that a crash may have cut short. */
  function FlushFiles(d: Disk, f: Files, l: Layout, image: seq<byte>, crash: Crash): Files
    requires Valid(l) && |image| == l.size
  {
    var (active, g) := Committed(d, f);
    var slot := 1 - active;
    var bytes := FlushBytes(d, f, l, image);
    var t := if crash.InSlot? then crash.tear else Whole;
    var f1 := if slot == 0 then f.(s0 := Written(f.s0, bytes, t)) else f.(s1 := Written(f.s1, bytes, t));
    if crash.InSlot? then f1
    else
      f1.(idx := Written(f.idx, IdxBytes(d.crc, slot, NextGeneration(g)), if crash.InIdx? then crash.tear else Whole))
  }

  predicate NamesFit(l: Layout)
  {
    forall i :: 0 <= i < |l.symbols| ==> |l.symbols[i].name| < 0x1_0000
  }

  datatype FlushResult = Flushed(generation: nat, slot: nat, bytesWritten: nat) | Refused(error: CodecError) | Interrupted

  datatype LoadReport = LoadReport(source: Option<nat>, generation: nat, report: Report, corrupt: bool, missing: bool)

  /** A file is there but does not read, or the index names what neither slot has. */
  predicate Corrupt(d: Disk, f: Files)
  {
    || (f.idx.Some? && ReadIdx(d, f.idx).None?)
    || (f.s0.Some? && ReadSlot(d, f.s0).None?) || (f.s1.Some? && ReadSlot(d, f.s1).None?)
    || (ReadIdx(d, f.idx).Some? && Loadable(d, f).None?)
  }

  predicate NoFiles(f: Files) { f.s0.None? && f.s1.None? && f.idx.None? }

  class Store {
    const d: Disk
    var files: Files

    constructor (d: Disk)
      ensures this.d == d && files == Files(None, None, None)
    {
      this.d := d;
      files := Files(None, None, None);
    }

    method WriteSlot(slot: nat, bytes: seq<byte>, t: Tear)
      modifies this
      ensures files == if slot == 0 then old(files).(s0 := Written(old(files.s0), bytes, t))
                       else old(files).(s1 := Written(old(files.s1), bytes, t))
    {
      if slot == 0 {
        files := files.(s0 := Written(files.s0, bytes, t));
      } else {
        files := files.(s1 := Written(files.s1, bytes, t));
      }
    }

    /** Writes the inactive slot, then the index; `crash` says where power is lost. */
    method Flush(l: Layout, image: seq<byte>, crash: Crash) returns (r: FlushResult)
      requires Valid(l)
      modifies this
      ensures |image| != l.size || !NamesFit(l) ==> r.Refused? && files == old(files)
      ensures |image| == l.size && NamesFit(l) ==>
                && files == FlushFiles(d, old(files), l, image, crash)
                && (if crash.NoCrash? then r.Flushed? else r.Interrupted?)
                && (r.Flushed? ==>
                      && r.generation == NextGeneration(Committed(d, old(files)).1)
                      && r.slot == 1 - Committed(d, old(files)).0
                      && r.bytesWritten == |FlushBytes(d, old(files), l, image)|)
    {
      hide SlotBytes, IdxBytes, Committed, SchemaBytes;
      if |image| != l.size { return Refused(ImageSize); }
      var payload := EncodeRecords(l, image);
      if payload.Failed? { return Refused(payload.error); }
      assert NamesFit(l);
      var (active, gen) := Committed(d, files);
      var slot := 1 - active;
      var generation := if gen >= MAX_GENERATION then MAX_GENERATION else gen + 1;
      var schema := SchemaHash(d.crc, l);
      var bytes := EncodeSlot(d.crc, generation, schema, |l.symbols|, payload.value);
      WriteSlot(slot, bytes, if crash.InSlot? then crash.tear else Whole);
      if crash.InSlot? { return Interrupted; }
      files := files.(idx := Written(files.idx, IdxBytes(d.crc, slot, generation), if crash.InIdx? then crash.tear else Whole));
      if crash.InIdx? { return Interrupted; }
      return Flushed(generation, slot, |bytes|);
    }

    /** Fills `dst` from the chosen slot, or with zeros. */
    method Load(l: Layout, dst: array<byte>) returns (r: Outcome<LoadReport>)
      requires Valid(l)
      modifies dst
      ensures dst.Length != l.size ==> r == Failed(ImageSize) && dst[..] == old(dst[..])
      ensures dst.Length == l.size ==>
                var c := Loadable(d, files);
                && r.Done?
                && (c.None? ==>
                      && dst[..] == Zeros(l.size)
                      && r.value == LoadReport(None, 0, Report(0, |l.symbols|, 0, []), Corrupt(d, files), NoFiles(files)))
                && (c.Some? ==>
                      var recs := c.value.1.records;
                      && AllWide(l, recs) && dst[..] == ImageOf(l, recs)
                      && r.value == LoadReport(Some(c.value.0), c.value.1.generation, ReportOf(l, recs, true), Corrupt(d, files), false))
    {
      hide DecodeSlot, DecodeIdx, ImageOf, ReportOf;
      if dst.Length != l.size { return Failed(ImageSize); }
      forall p | 0 <= p < dst.Length { dst[p] := 0; }
      assert dst[..] == Zeros(l.size);
      var slot0 := ReadSlot(d, files.s0);
      var slot1 := ReadSlot(d, files.s1);
      var idx := ReadIdx(d, files.idx);
      var chosen := ChooseSlot(idx, slot0, slot1);
      var anyFile := files.s0.Some? || files.s1.Some? || files.idx.Some?;
      var sawCorrupt := (files.idx.Some? && idx.None?) || (files.s0.Some? && slot0.None?) || (files.s1.Some? && slot1.None?)
                        || (idx.Some? && chosen.None?);
      if chosen.None? { return Done(LoadReport(None, 0, Report(0, |l.symbols|, 0, []), sawCorrupt, !anyFile)); }
      LoadableWide(d, files, l);
      var mapped := ApplyRecords(chosen.value.1.records, l, true);
      MappedForced(l, chosen.value.1.records);
      CopyInto(dst, 0, mapped.image);
      assert dst[..] == mapped.image;
      return Done(LoadReport(Some(chosen.value.0), chosen.value.1.generation, mapped.report, sawCorrupt, false));
    }
  }

  lemma MappedForced(l: Layout, recs: seq<Record>)
    requires Valid(l) && AllWide(l, recs)
    ensures ReportOf(l, recs, true)
         == Report(KeptOf(l, recs), ColdOf(l, recs, |ClashesOf(l, recs)|), DroppedOf(l, recs), ClashesOf(l, recs))
    ensures |ImageOf(l, recs)| == l.size
  {}

  lemma {:induction false} DecodedWide(utf8: Utf8, p: seq<byte>, i: nat)
    requires DecodeFrom(utf8, p, i).Done?
    ensures forall k :: 0 <= k < |DecodeFrom(utf8, p, i).value| ==>
              var r := DecodeFrom(utf8, p, i).value[k]; |r.value| == ByteWidth(r.ty)
    decreases |p| - i
  {
    hide FromLe;
    if i < |p| { DecodedWide(utf8, p, DecodeOne(utf8, p, i).value.1); }
  }

  /** Records read from a slot always have the width of their type. */
  lemma LoadableWide(d: Disk, f: Files, l: Layout)
    requires Loadable(d, f).Some?
    ensures AllWide(l, Loadable(d, f).value.1.records)
  {
    hide FromLe, DecodeFrom;
    var (slot, s) := Loadable(d, f).value;
    var bytes := SlotFile(f, slot).value;
    DecodedWide(d.utf8, bytes[SLOT_HEADER_LEN..], 0);
  }

  // ----- crash safety -----

  /** What a load would return now. */
  datatype Current = Nothing | Holding(slot: nat, image: SlotImage)

  /** Nothing was ever completely written, or the current slot is intact and either the
      index names it, or there is no index and it is the younger of the two. */
  ghost predicate Durable(d: Disk, f: Files, cur: Current)
  {
    var idx := ReadIdx(d, f.idx);
    match cur
    case Nothing => idx.None? && ReadSlot(d, f.s0).None? && ReadSlot(d, f.s1).None?
    case Holding(slot, image) =>
      && slot <= 1 && ReadSlot(d, SlotFile(f, slot)) == Some(image)
      && (idx.Some? ==> idx.value == IdxRecord(slot, image.generation))
      && (idx.None? ==>
            var other := ReadSlot(d, SlotFile(f, 1 - slot));
            other.Some? ==> other.value.generation < image.generation)
  }

  /** Loading returns the current image, and a flush takes it as committed. */
  lemma DurableLoads(d: Disk, f: Files, cur: Current)
    requires Durable(d, f, cur)
    ensures Loadable(d, f) == if cur.Nothing? then None else Some((cur.slot, cur.image))
    ensures Committed(d, f) == if cur.Nothing? then (1, 0) else (cur.slot, cur.image.generation)
  {
    hide DecodeSlot, DecodeIdx;
  }

  function GenerationOf(cur: Current): nat { if cur.Nothing? then 0 else cur.image.generation }

  /** What a flush of an image is about to make current. */
  function Fresh(cur: Current, l: Layout, image: seq<byte>): Current
    requires Valid(l) && |image| == l.size
  {
    Holding(if cur.Holding? && cur.slot == 0 then 1 else 0, SlotImage(GenerationOf(cur) + 1, RecordsFrom(l, image)))
  }

  /** An image the store can hold. */
  ghost predicate Flushable(d: Disk, l: Layout, image: seq<byte>)
  {
    && Valid(l) && |image| == l.size
    && (forall i :: 0 <= i < |l.symbols| ==> |l.symbols[i].name| < 0x1_0000 && d.utf8(l.symbols[i].name))
    && |EncodeAll(RecordsFrom(l, image))| < 0x1_0000_0000
  }

  /** What can stand in the slot file after a torn or complete write. */
  lemma SlotAfter(d: Disk, f: Files, l: Layout, image: seq<byte>, was: Option<seq<byte>>, t: Tear)
    requires Flushable(d, l, image) && Committed(d, f).1 < MAX_GENERATION
    ensures var now := Written(was, FlushBytes(d, f, l, image), t);
            || now == was
            || ReadSlot(d, now) == None
            || ReadSlot(d, now) == Some(SlotImage(Committed(d, f).1 + 1, RecordsFrom(l, image)))
    ensures t.Whole? ==> ReadSlot(d, Written(was, FlushBytes(d, f, l, image), t))
                         == Some(SlotImage(Committed(d, f).1 + 1, RecordsFrom(l, image)))
  {
    hide Committed, SlotBytes, DecodeSlot, DecodeFrom, EncodeAll, SchemaBytes;
    var g := Committed(d, f).1 + 1;
    var payload := EncodeAll(RecordsFrom(l, image));
    var schema := d.crc(SchemaBytes(l, |l.symbols|));
    RetainCodec.DecodeOfEncode(d.utf8, l, image);
    SlotRoundTrip(d.crc, d.utf8, g, schema, |l.symbols|, payload, RecordsFrom(l, image));
    EmptySlot(d);
    match t {
      case Cut(n) => if n < SLOT_HEADER_LEN + |payload| { SlotTorn(d.crc, d.utf8, g, schema, |l.symbols|, payload, n); }
      case _ =>
    }
  }

  lemma EmptySlot(d: Disk)
    ensures DecodeSlot(d.crc, d.utf8, []) == None
  {}

  /** However the writing of an index is cut, the old one is read, or none, or the new one. */
  lemma IdxAfter(d: Disk, slot: nat, generation: nat, was: Option<seq<byte>>, t: Tear)
    requires slot <= 1 && generation <= MAX_GENERATION
    ensures var now := Written(was, IdxBytes(d.crc, slot, generation), t);
            now == was || ReadIdx(d, now) == None || ReadIdx(d, now) == Some(IdxRecord(slot, generation))
    ensures t.Whole? ==> ReadIdx(d, Written(was, IdxBytes(d.crc, slot, generation), t)) == Some(IdxRecord(slot, generation))
  {
    IdxRoundTrip(d.crc, slot, generation);
    hide IdxBytes;
  }

  /** One flush, wherever it is cut: the store still holds what it held, or it holds the new
      image; completed, it holds the new image. The slot written is never the current one. */
  lemma FlushKeeps(d: Disk, f: Files, cur: Current, l: Layout, image: seq<byte>, crash: Crash)
    requires Durable(d, f, cur) && Flushable(d, l, image) && GenerationOf(cur) < MAX_GENERATION
    ensures var f' := FlushFiles(d, f, l, image, crash);
            && (Durable(d, f', cur) || Durable(d, f', Fresh(cur, l, image)))
            && (crash.NoCrash? ==> Durable(d, f', Fresh(cur, l, image)))
            && (cur.Holding? ==> SlotFile(f', cur.slot) == SlotFile(f, cur.slot) && Fresh(cur, l, image).slot != cur.slot)
  {
    hide DecodeSlot, DecodeIdx, FlushBytes, IdxBytes, RecordsFrom, Committed, Written;
    DurableLoads(d, f, cur);
    var slot := 1 - Committed(d, f).0;
    var t := if crash.InSlot? then crash.tear else Whole;
    var t' := if crash.InIdx? then crash.tear else Whole;
    SlotAfter(d, f, l, image, SlotFile(f, slot), t);
    IdxAfter(d, slot, GenerationOf(cur) + 1, f.idx, t');
  }

  // ----- whole histories -----

  datatype Attempt = Attempt(l: Layout, image: seq<byte>, crash: Crash)

  ghost predicate AllFlushable(d: Disk, h: seq<Attempt>)
  {
    forall i :: 0 <= i < |h| ==> Flushable(d, h[i].l, h[i].image)
  }

  /** The files after a history of flushes on an empty directory, each possibly cut short. */
  ghost function After(d: Disk, h: seq<Attempt>): Files
    requires AllFlushable(d, h)
  {
    if h == [] then Files(None, None, None)
    else
      var n := |h| - 1;
      FlushFiles(d, After(d, h[..n]), h[n].l, h[n].image, h[n].crash)
  }

  /** Attempt `k` produced the current image and no later attempt completed. */
  ghost predicate CameFrom(h: seq<Attempt>, cur: Current, k: nat)
    requires forall i :: 0 <= i < |h| ==> Valid(h[i].l) && |h[i].image| == h[i].l.size
  {
    && k < |h| && cur.Holding? && cur.image.records == RecordsFrom(h[k].l, h[k].image)
    && forall j :: k < j < |h| ==> !h[j].crash.NoCrash?
  }

  /** Over every history of flushes and crashes: a load returns the last completed flush or
      a later interrupted one, never nothing once a flush has completed. */
  lemma {:induction false} HistoryDurable(d: Disk, h: seq<Attempt>) returns (cur: Current, k: nat)
    requires AllFlushable(d, h) && |h| < MAX_GENERATION
    ensures Durable(d, After(d, h), cur) && GenerationOf(cur) <= |h|
    ensures Loadable(d, After(d, h)) == if cur.Nothing? then None else Some((cur.slot, cur.image))
    ensures cur.Holding? ==> CameFrom(h, cur, k)
    ensures (exists i :: 0 <= i < |h| && h[i].crash.NoCrash?) ==> cur.Holding?
    decreases h
  {
    hide FlushFiles, Loadable, Durable, Flushable, CameFrom, Fresh;
    if h == [] {
      cur, k := Nothing, 0;
      StartsDurable(d);
    } else {
      var n := |h| - 1;
      cur, k := HistoryDurable(d, h[..n]);
      var f, a := After(d, h[..n]), h[n];
      ValidAttempts(d, h);
      assert After(d, h) == FlushFiles(d, f, a.l, a.image, a.crash);
      FlushKeeps(d, f, cur, a.l, a.image, a.crash);
      if a.crash.NoCrash? || !Durable(d, After(d, h), cur) {
        FreshCame(d, h, cur);
        cur, k := Fresh(cur, a.l, a.image), n;
      } else if cur.Holding? {
        StillCame(h, cur, k);
      }
    }
    DurableLoads(d, After(d, h), cur);
  }

  lemma ValidAttempts(d: Disk, h: seq<Attempt>)
    requires AllFlushable(d, h)
    ensures forall i :: 0 <= i < |h| ==> Valid(h[i].l) && |h[i].image| == h[i].l.size && Flushable(d, h[i].l, h[i].image)
  {}

  lemma FreshCame(d: Disk, h: seq<Attempt>, cur: Current)
    requires AllFlushable(d, h) && h != []
    ensures var n := |h| - 1;
            var c := Fresh(cur, h[n].l, h[n].image);
            c.Holding? && CameFrom(h, c, n) && GenerationOf(c) == GenerationOf(cur) + 1
  {
    hide RecordsFrom;
  }

  lemma StillCame(h: seq<Attempt>, cur: Current, k: nat)
    requires h != [] && forall i :: 0 <= i < |h| ==> Valid(h[i].l) && |h[i].image| == h[i].l.size
    requires CameFrom(h[..|h| - 1], cur, k) && !h[|h| - 1].crash.NoCrash?
    ensures CameFrom(h, cur, k)
  {
    hide RecordsFrom, Valid;
    forall j | k < j < |h| ensures !h[j].crash.NoCrash? {
      if j < |h| - 1 { assert h[..|h| - 1][j] == h[j]; }
    }
  }

  lemma StartsDurable(d: Disk)
    ensures Durable(d, Files(None, None, None), Nothing)
  {}

  /** The generation a load reports never goes back. */
  lemma GenerationGrows(d: Disk, h: seq<Attempt>, a: Attempt)
    requires AllFlushable(d, h + [a]) && |h| < MAX_GENERATION && AllFlushable(d, h)
    ensures var was, now := Loadable(d, After(d, h)), Loadable(d, After(d, h + [a]));
            was.Some? ==> now.Some? && was.value.1.generation <= now.value.1.generation
  {
    hide FlushFiles, Loadable, Durable;
    var cur, k := HistoryDurable(d, h);
    assert (h + [a])[..|h|] == h && (h + [a])[|h|] == a;
    FlushKeeps(d, After(d, h), cur, a.l, a.image, a.crash);
    var f' := After(d, h + [a]);
    assert f' == FlushFiles(d, After(d, h), a.l, a.image, a.crash);
    DurableLoads(d, f', if Durable(d, f', cur) then cur else Fresh(cur, a.l, a.image));
  }

  /** Every file that is there reads. */
  ghost predicate Readable(d: Disk, f: Files)
  {
    && (f.idx.Some? ==> ReadIdx(d, f.idx).Some?)
    && (f.s0.Some? ==> ReadSlot(d, f.s0).Some?) && (f.s1.Some? ==> ReadSlot(d, f.s1).Some?)
  }

  lemma {:induction false} NeverCut(d: Disk, h: seq<Attempt>)
    requires AllFlushable(d, h) && |h| < MAX_GENERATION && forall i :: 0 <= i < |h| ==> h[i].crash.NoCrash?
    ensures Readable(d, After(d, h)) && (NoFiles(After(d, h)) <==> h == [])
    decreases h
  {
    hide FlushBytes, Committed, Loadable, DecodeSlot, DecodeIdx, Flushable, IdxBytes, Durable, RecordsFrom;
    if h != [] {
      var n := |h| - 1;
      NeverCut(d, h[..n]);
      var cur, k := HistoryDurable(d, h[..n]);
      var f, a := After(d, h[..n]), h[n];
      DurableLoads(d, f, cur);
      ValidAttempts(d, h);
      SlotAfter(d, f, a.l, a.image, SlotFile(f, 1 - Committed(d, f).0), Whole);
      IdxAfter(d, 1 - Committed(d, f).0, NextGeneration(Committed(d, f).1), f.idx, Whole);
    }
  }

  /** A load after flushes of which none was interrupted reports no corruption, and nothing
      missing once there was one. */
  lemma CleanReports(d: Disk, h: seq<Attempt>)
    requires AllFlushable(d, h) && |h| < MAX_GENERATION && forall i :: 0 <= i < |h| ==> h[i].crash.NoCrash?
    ensures !Corrupt(d, After(d, h)) && (NoFiles(After(d, h)) <==> h == [])
  {
    hide FlushFiles, Loadable, DecodeSlot, DecodeIdx, Durable, Flushable;
    NeverCut(d, h);
    var cur, k := HistoryDurable(d, h);
    DurableLoads(d, After(d, h), cur);
    if h == [] { NothingThere(d); } else { assert h[0].crash.NoCrash?; }
  }

  lemma NothingThere(d: Disk)
    ensures ReadIdx(d, None).None?
  {}

  // ----- what comes back -----

  /** Loading after a completed flush, into any layout, remaps the flushed image. */
  lemma FlushThenLoad(d: Disk, h: seq<Attempt>, a: Attempt, target: Layout)
    requires AllFlushable(d, h) && AllFlushable(d, h + [a]) && |h| < MAX_GENERATION && a.crash.NoCrash? && Valid(target)
    ensures var c := Loadable(d, After(d, h + [a]));
            && c.Some? && AllWide(target, c.value.1.records)
            && ImageOf(target, c.value.1.records) == MapImage(a.l, a.image, target)
  {
    hide FlushFiles, Loadable, Durable, ImageOf;
    var cur, k := HistoryDurable(d, h);
    assert (h + [a])[..|h|] == h && (h + [a])[|h|] == a;
    FlushKeeps(d, After(d, h), cur, a.l, a.image, a.crash);
    assert After(d, h + [a]) == FlushFiles(d, After(d, h), a.l, a.image, a.crash);
    DurableLoads(d, After(d, h + [a]), Fresh(cur, a.l, a.image));
    RecordsWide(a.l, a.image, target);
    MapImageIs(a.l, a.image, target);
  }

  lemma MapImageIs(old_: Layout, image: seq<byte>, new_: Layout)
    requires Valid(old_) && Valid(new_) && |image| == old_.size && AllWide(new_, RecordsFrom(old_, image))
    ensures MapImage(old_, image, new_) == ImageOf(new_, RecordsFrom(old_, image))
  {}

  /** With the same layout every symbol comes back byte for byte and the rest is zero. */
  lemma SameLayout(l: Layout, image: seq<byte>, p: nat)
    requires Valid(l) && |image| == l.size && p < l.size
    ensures var inside := exists k :: 0 <= k < |l.symbols| && l.symbols[k].offset <= p < End(l.symbols[k]);
            MapImage(l, image, l)[p] == if inside then image[p] else 0
  {
    hide MapImage, Find;
    if k :| 0 <= k < |l.symbols| && l.symbols[k].offset <= p < End(l.symbols[k]) {
      FoundAt(l, l.symbols[k].name, k);
      MapKeeps(l, image, l, k, p - l.symbols[k].offset);
    } else {
      MapZero(l, image, l, p);
    }
  }
}
