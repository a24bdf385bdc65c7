/** Retained memory across a hot swap: the shadow image built when a program is armed and
    the copies applied when it is installed amount to remapping the live bytes at install
    time (crates/plc-runtime/src/loader.rs, crates/plc-scan/src/engine.rs,
    crates/plc-vm/src/memory.rs). */
module RetainBlit {
  import opened Bytes
  import opened Ir
  import opened Vm
  import opened RetainLayout
  import opened RetainCodec
  import opened RetainMap

  datatype Copy = Copy(src: nat, dst: nat, len: nat)

  // ----- arming -----

  /** The copies planned for the first `n` new symbols. */
  function CopiesOf(old_: Layout, new_: Layout, n: nat): seq<Copy>
    requires n <= |new_.symbols|
  {
    if n == 0 then []
    else
      var s := new_.symbols[n - 1];
      var k := Source(old_, s);
      CopiesOf(old_, new_, n - 1)
      + if k.Some? then [Copy(old_.symbols[k.value].offset, s.offset, ByteWidth(s.ty))] else []
  }

  method PlanCopies(old_: Layout, new_: Layout) returns (copies: seq<Copy>)
    requires Valid(old_) && Valid(new_)
    ensures copies == CopiesOf(old_, new_, |new_.symbols|)
  {
    hide Valid, Find;
    copies := [];
    for i := 0 to |new_.symbols|
      invariant copies == CopiesOf(old_, new_, i)
    {
      var s := new_.symbols[i];
      var k := Get(old_, s.name);
      if k.Some? {
        if old_.symbols[k.value].ty == s.ty {
          copies := copies + [Copy(old_.symbols[k.value].offset, s.offset, ByteWidth(old_.symbols[k.value].ty))];
        }
      }
    }
  }

  /** Retain memory after storing the first `n` symbols of an image, value by value. */
  function ShadowImage(l: Layout, image: seq<byte>, n: nat): (s: Segment)
    requires Valid(l) && |image| == l.size && n <= |l.symbols|
    ensures s.Valid() && |s.bytes| == l.size
  {
    if n == 0 then ZeroSegment(l.size)
    else
      var s := l.symbols[n - 1];
      SymbolInside(l, n - 1);
      var v := OfBytes(s.ty, image[s.offset..End(s)]);
      Store(ShadowImage(l, image, n - 1), s.offset, v).value
  }

  /** Loads an image into fresh retain memory. */
  method LoadRetainImage(size: nat, image: seq<byte>, l: Layout) returns (r: Option<Segment>)
    requires Valid(l)
    ensures |image| == size == l.size ==> r == Some(ShadowImage(l, image, |l.symbols|))
    ensures |image| != size || l.size != |image| ==> r == None
  {
    hide Valid, Store;
    if |image| != size || l.size != |image| { return None; }
    var seg := ZeroSegment(size);
    for i := 0 to |l.symbols|
      invariant seg == ShadowImage(l, image, i)
    {
      var s := l.symbols[i];
      SymbolInside(l, i);
      if End(s) > |image| { return None; }
      var v := OfBytes(s.ty, image[s.offset..s.offset + ByteWidth(s.ty)]);
      var stored := Store(seg, s.offset, v);
      if stored.None? { return None; }
      seg := stored.value;
    }
    return Some(seg);
  }

  // ----- installing -----

  predicate CopyFits(c: Copy, dst: nat, src: nat) { c.dst + c.len <= dst && c.src + c.len <= src }

  function CopyCell(seg: Segment, live: Segment, c: Copy): (r: Segment)
    requires seg.Valid() && live.Valid() && CopyFits(c, |seg.bytes|, |live.bytes|)
    ensures r.Valid() && |r.bytes| == |seg.bytes|
  {
    Segment(seg.bytes[..c.dst] + live.bytes[c.src..c.src + c.len] + seg.bytes[c.dst + c.len..],
            seg.tags[..c.dst] + live.tags[c.src..c.src + c.len] + seg.tags[c.dst + c.len..])
  }

  ghost predicate AllFit(copies: seq<Copy>, dst: nat, src: nat)
  {
    forall i :: 0 <= i < |copies| ==> CopyFits(copies[i], dst, src)
  }

  function CopyAll(seg: Segment, live: Segment, copies: seq<Copy>): (r: Segment)
    requires seg.Valid() && live.Valid() && AllFit(copies, |seg.bytes|, |live.bytes|)
    ensures r.Valid() && |r.bytes| == |seg.bytes|
  {
    if copies == [] then seg
    else
      var n := |copies| - 1;
      CopyCell(CopyAll(seg, live, copies[..n]), live, copies[n])
  }

  /** Copies in order up to the first that does not fit, and whether all did. */
  function CopyUntil(seg: Segment, live: Segment, copies: seq<Copy>): (r: (Segment, bool))
    requires seg.Valid() && live.Valid()
    ensures r.0.Valid() && |r.0.bytes| == |seg.bytes|
  {
    if copies == [] then (seg, true)
    else
      var n := |copies| - 1;
      var (s, ok) := CopyUntil(seg, live, copies[..n]);
      if ok && CopyFits(copies[n], |seg.bytes|, |live.bytes|) then (CopyCell(s, live, copies[n]), true) else (s, false)
  }

  lemma {:induction false} CopyUntilAll(seg: Segment, live: Segment, copies: seq<Copy>)
    requires seg.Valid() && live.Valid()
    ensures CopyUntil(seg, live, copies).1 <==> AllFit(copies, |seg.bytes|, |live.bytes|)
    ensures AllFit(copies, |seg.bytes|, |live.bytes|) ==> CopyUntil(seg, live, copies).0 == CopyAll(seg, live, copies)
  {
    if copies != [] {
      var n := |copies| - 1;
      CopyUntilAll(seg, live, copies[..n]);
      assert copies[n] == copies[|copies| - 1];
    }
  }

  /** The blit of the install: all copies in order, stopping with an error at the first that
      does not fit; what was copied by then stays copied. */
  method BlitRetain(seg: Segment, live: Segment, copies: seq<Copy>) returns (out: Segment, ok: bool)
    requires seg.Valid() && live.Valid()
    ensures (out, ok) == CopyUntil(seg, live, copies)
  {
    out, ok := seg, true;
    assert copies[..0] == [];
    for i := 0 to |copies|
      invariant out.Valid() && |out.bytes| == |seg.bytes| && ok
      invariant (out, ok) == CopyUntil(seg, live, copies[..i])
    {
      assert copies[..i + 1][..i] == copies[..i];
      if !CopyFits(copies[i], |out.bytes|, |live.bytes|) {
        ok := false;
        StuckAfter(seg, live, copies, i + 1);
        return;
      }
      out := CopyCell(out, live, copies[i]);
    }
    assert copies[..|copies|] == copies;
  }

  /** Once a copy failed, the rest changes nothing. */
  lemma {:induction false} StuckAfter(seg: Segment, live: Segment, copies: seq<Copy>, k: nat)
    requires seg.Valid() && live.Valid() && k <= |copies| && !CopyUntil(seg, live, copies[..k]).1
    ensures CopyUntil(seg, live, copies) == CopyUntil(seg, live, copies[..k])
    decreases |copies| - k
  {
    if k == |copies| {
      assert copies[..k] == copies;
    } else {
      assert copies[..k + 1][..k] == copies[..k];
      StuckAfter(seg, live, copies, k + 1);
    }
  }

  lemma {:induction false} CopiesFit(old_: Layout, new_: Layout, n: nat)
    requires Valid(old_) && Valid(new_) && n <= |new_.symbols|
    ensures AllFit(CopiesOf(old_, new_, n), new_.size, old_.size)
  {
    hide Find;
    if n > 0 {
      CopiesFit(old_, new_, n - 1);
      SymbolInside(new_, n - 1);
      var k := Source(old_, new_.symbols[n - 1]);
      if k.Some? { SymbolInside(old_, k.value); }
    }
  }

  // ----- the theorem -----

  ghost predicate InSymbol(l: Layout, k: nat, p: nat)
    requires k < |l.symbols|
  {
    l.symbols[k].offset <= p < End(l.symbols[k])
  }

  /** The byte belongs to one of the first `n` symbols that take an old value over. */
  ghost predicate Taken(old_: Layout, new_: Layout, n: nat, p: nat)
    requires n <= |new_.symbols|
  {
    exists k :: 0 <= k < n && InSymbol(new_, k, p) && Source(old_, new_.symbols[k]).Some?
  }

  lemma {:induction false} ZeroValue(ty: IrType, s: seq<byte>)
    requires |s| == ByteWidth(ty) && forall i :: 0 <= i < |s| ==> s[i] == 0
    ensures var v := OfBytes(ty, s); forall i :: 0 <= i < |ToBytes(v)| ==> ToBytes(v)[i] == 0
  {
    FromLeZero(s);
    LeZero(ByteWidth(ty));
  }

  lemma {:induction false} FromLeZero(s: seq<byte>)
    requires forall i :: 0 <= i < |s| ==> s[i] == 0
    ensures FromLe(s) == 0
  {
    if s != [] { FromLeZero(s[1..]); }
  }

  lemma {:induction false} LeZero(w: nat)
    ensures forall i :: 0 <= i < w ==> Bytes.Le(0, w)[i] == 0
  {
    if w > 0 { LeZero(w - 1); }
  }

  /** Shadow memory is zero wherever the image is zero throughout the symbol (and outside
      all symbols). */
  lemma {:induction false} ShadowZero(l: Layout, image: seq<byte>, n: nat, p: nat)
    requires Valid(l) && |image| == l.size && n <= |l.symbols| && p < l.size
    requires forall k: nat :: k < n && InSymbol(l, k, p) ==> forall q :: l.symbols[k].offset <= q < End(l.symbols[k]) ==> image[q] == 0
    ensures ShadowImage(l, image, n).bytes[p] == 0
  {
    hide ToBytes, OfBytes;
    if n > 0 {
      ShadowZero(l, image, n - 1, p);
      var s := l.symbols[n - 1];
      SymbolInside(l, n - 1);
      var before := ShadowImage(l, image, n - 1);
      var cell := image[s.offset..End(s)];
      var v := OfBytes(s.ty, cell);
      if InSymbol(l, n - 1, p) {
        ZeroValue(s.ty, cell);
        assert Store(before, s.offset, v).value.bytes[p] == ToBytes(v)[p - s.offset];
      } else {
        StoreOutside(before, s.offset, v, p);
      }
    }
  }

  /** After the copies, a taken-over byte is the live byte and any other is the shadow's. */
  lemma {:induction false} CopiedByte(old_: Layout, new_: Layout, seg: Segment, live: Segment, n: nat, p: nat)
    requires Valid(old_) && Valid(new_) && n <= |new_.symbols| && p < new_.size
    requires seg.Valid() && live.Valid() && |seg.bytes| == new_.size && AllFit(CopiesOf(old_, new_, n), new_.size, |live.bytes|)
    ensures var r := CopyAll(seg, live, CopiesOf(old_, new_, n));
            && (!Taken(old_, new_, n, p) ==> r.bytes[p] == seg.bytes[p])
            && forall k :: 0 <= k < n && InSymbol(new_, k, p) && Source(old_, new_.symbols[k]).Some? ==>
                 var o := old_.symbols[Source(old_, new_.symbols[k]).value].offset + (p - new_.symbols[k].offset);
                 o < |live.bytes| && r.bytes[p] == live.bytes[o]
  {
    hide Find, Source, CopyCell, CopyAll, Valid;
    if n == 0 {
      NoCopies(seg, live);
    } else {
      var s := new_.symbols[n - 1];
      var k := Source(old_, s);
      var copies := CopiesOf(old_, new_, n);
      FrontFits(old_, new_, n, |live.bytes|);
      CopiedByte(old_, new_, seg, live, n - 1, p);
      SymbolInside(new_, n - 1);
      if k.Some? {
        SourceInside(old_, s);
        var c := copies[|copies| - 1];
        assert copies[..|copies| - 1] == CopiesOf(old_, new_, n - 1);
        LastCopy(seg, live, copies);
        forall j | 0 <= j < n - 1 && InSymbol(new_, j, p) ensures !InSymbol(new_, n - 1, p) {
          OneSymbol(new_, j, n - 1, p);
        }
        var before := CopyAll(seg, live, copies[..|copies| - 1]);
        CopyCellByte(before, live, c, p);
      }
    }
  }

  lemma FrontFits(old_: Layout, new_: Layout, n: nat, m: nat)
    requires 0 < n <= |new_.symbols| && AllFit(CopiesOf(old_, new_, n), new_.size, m)
    ensures AllFit(CopiesOf(old_, new_, n - 1), new_.size, m)
    ensures var c := CopiesOf(old_, new_, n);
            if Source(old_, new_.symbols[n - 1]).Some? then
              c != [] && c[..|c| - 1] == CopiesOf(old_, new_, n - 1) && CopyFits(c[|c| - 1], new_.size, m)
            else c == CopiesOf(old_, new_, n - 1)
  {
    hide Source, Find;
    var front, c := CopiesOf(old_, new_, n - 1), CopiesOf(old_, new_, n);
    forall i | 0 <= i < |front| ensures CopyFits(front[i], new_.size, m) { assert c[i] == front[i]; }
  }

  lemma NoCopies(seg: Segment, live: Segment)
    requires seg.Valid() && live.Valid()
    ensures CopyAll(seg, live, []) == seg
  {}

  lemma LastCopy(seg: Segment, live: Segment, copies: seq<Copy>)
    requires seg.Valid() && live.Valid() && AllFit(copies, |seg.bytes|, |live.bytes|) && copies != []
    ensures var n := |copies| - 1;
            CopyAll(seg, live, copies) == CopyCell(CopyAll(seg, live, copies[..n]), live, copies[n])
  {}

  lemma SameSymbol(l: Layout, i: nat, j: nat, p: nat)
    requires Valid(l) && i < |l.symbols| && j < |l.symbols| && InSymbol(l, i, p) && InSymbol(l, j, p)
    ensures i == j
  {
    if i < j {
      OneSymbol(l, i, j, p);
    } else if j < i {
      OneSymbol(l, j, i, p);
    }
  }

  lemma OneSymbol(l: Layout, i: nat, j: nat, p: nat)
    requires Valid(l) && i < j < |l.symbols| && InSymbol(l, i, p)
    ensures !InSymbol(l, j, p)
  {
    assert Apart(l.symbols[i], l.symbols[j]);
  }

  lemma SourceInside(old_: Layout, s: Symbol)
    requires Valid(old_) && Source(old_, s).Some?
    ensures var o := old_.symbols[Source(old_, s).value]; End(o) <= old_.size && o.ty == s.ty
  {
    SymbolInside(old_, Source(old_, s).value);
  }

  lemma CopyCellByte(seg: Segment, live: Segment, c: Copy, p: nat)
    requires seg.Valid() && live.Valid() && CopyFits(c, |seg.bytes|, |live.bytes|) && p < |seg.bytes|
    ensures CopyCell(seg, live, c).bytes[p] == if c.dst <= p < c.dst + c.len then live.bytes[c.src + p - c.dst] else seg.bytes[p]
  {}

  /** Retain memory fit to be installed over any live memory: zero wherever no old value is
      taken over. */
  ghost predicate Shadow(old_: Layout, new_: Layout, seg: Segment)
  {
    && seg.Valid() && |seg.bytes| == new_.size
    && forall p: nat :: p < new_.size && !Taken(old_, new_, |new_.symbols|, p) ==> seg.bytes[p] == 0
  }

  /** What arming leaves in retain memory is a shadow, whatever the snapshot was. */
  lemma ShadowInstalled(old_: Layout, snapshot: seq<byte>, new_: Layout)
    requires Valid(old_) && Valid(new_) && |snapshot| == old_.size
    ensures Shadow(old_, new_, ShadowImage(new_, MapImage(old_, snapshot, new_), |new_.symbols|))
  {
    hide Find, Source, MapImage, Valid, InSymbol, Taken, ShadowImage;
    var image := MapImage(old_, snapshot, new_);
    forall p: nat | p < new_.size && !Taken(old_, new_, |new_.symbols|, p)
      ensures ShadowImage(new_, image, |new_.symbols|).bytes[p] == 0
    {
      FreeZero(old_, snapshot, new_, p);
    }
  }

  /** The whole symbol around a byte that is not taken over is zero in the remap. */
  lemma FreeZero(old_: Layout, snapshot: seq<byte>, new_: Layout, p: nat)
    requires Valid(old_) && Valid(new_) && |snapshot| == old_.size && p < new_.size && !Taken(old_, new_, |new_.symbols|, p)
    ensures ShadowImage(new_, MapImage(old_, snapshot, new_), |new_.symbols|).bytes[p] == 0
  {
    hide Find, Source, MapImage, ShadowImage, Valid;
    var image := MapImage(old_, snapshot, new_);
    forall k: nat, q | k < |new_.symbols| && InSymbol(new_, k, p) && new_.symbols[k].offset <= q < End(new_.symbols[k])
      ensures 0 <= q < new_.size && image[q] == 0
    {
      SymbolInside(new_, k);
      forall j | 0 <= j < |new_.symbols| && new_.symbols[j].offset <= q < End(new_.symbols[j])
        ensures Source(old_, new_.symbols[j]).None?
      {
        SameSymbol(new_, j, k, q);
        assert InSymbol(new_, j, p);
      }
      MapZero(old_, snapshot, new_, q);
    }
    ShadowZero(new_, image, |new_.symbols|, p);
  }

  /** What the install leaves in retain memory: the shadow with the copies applied. */
  function Swapped(old_: Layout, new_: Layout, seg: Segment, live: Segment): (r: Segment)
    requires Valid(old_) && Valid(new_) && seg.Valid() && |seg.bytes| == new_.size && live.Valid() && |live.bytes| == old_.size
    ensures r.Valid() && |r.bytes| == new_.size
  {
    CopiesFit(old_, new_, |new_.symbols|);
    CopyAll(seg, live, CopiesOf(old_, new_, |new_.symbols|))
  }

  lemma ShadowStays(old_: Layout, new_: Layout, seg: Segment, live: Segment)
    requires Valid(old_) && Valid(new_) && Shadow(old_, new_, seg) && live.Valid() && |live.bytes| == old_.size
    ensures Shadow(old_, new_, Swapped(old_, new_, seg, live))
  {
    hide Find, Source, Valid, Taken, CopyAll, CopiesOf;
    forall p: nat | p < new_.size && !Taken(old_, new_, |new_.symbols|, p)
      ensures Swapped(old_, new_, seg, live).bytes[p] == 0
    {
      CopiesFit(old_, new_, |new_.symbols|);
      CopiedByte(old_, new_, seg, live, |new_.symbols|, p);
    }
  }

  /** For every pair of layouts, every shadow and every live memory at install time, the
      swap leaves exactly the remap of the live bytes. */
  lemma ShadowSwap(old_: Layout, new_: Layout, seg: Segment, live: Segment)
    requires Valid(old_) && Valid(new_) && Shadow(old_, new_, seg) && live.Valid() && |live.bytes| == old_.size
    ensures Swapped(old_, new_, seg, live).bytes == MapImage(old_, live.bytes, new_)
  {
    hide Find, Source, Valid, InSymbol, Swapped;
    var r := Swapped(old_, new_, seg, live).bytes;
    var want := MapImage(old_, live.bytes, new_);
    forall p: nat | p < new_.size ensures r[p] == want[p] {
      if Taken(old_, new_, |new_.symbols|, p) {
        TakenByte(old_, new_, seg, live, p);
      } else {
        FreeByte(old_, new_, seg, live, p);
      }
    }
  }

  lemma TakenByte(old_: Layout, new_: Layout, seg: Segment, live: Segment, p: nat)
    requires Valid(old_) && Valid(new_) && Shadow(old_, new_, seg) && live.Valid() && |live.bytes| == old_.size
    requires p < new_.size && Taken(old_, new_, |new_.symbols|, p)
    ensures Swapped(old_, new_, seg, live).bytes[p] == MapImage(old_, live.bytes, new_)[p]
  {
    hide Find, Source, Valid, CopyAll, MapImage, ShadowImage;
    CopiesFit(old_, new_, |new_.symbols|);
    CopiedByte(old_, new_, seg, live, |new_.symbols|, p);
    var k :| 0 <= k < |new_.symbols| && InSymbol(new_, k, p) && Source(old_, new_.symbols[k]).Some?;
    MapKeeps(old_, live.bytes, new_, k, p - new_.symbols[k].offset);
  }

  lemma FreeByte(old_: Layout, new_: Layout, seg: Segment, live: Segment, p: nat)
    requires Valid(old_) && Valid(new_) && Shadow(old_, new_, seg) && live.Valid() && |live.bytes| == old_.size
    requires p < new_.size && !Taken(old_, new_, |new_.symbols|, p)
    ensures Swapped(old_, new_, seg, live).bytes[p] == MapImage(old_, live.bytes, new_)[p] == 0
  {
    hide Find, Source, CopyAll, MapImage, ShadowImage, Valid;
    CopiesFit(old_, new_, |new_.symbols|);
    CopiedByte(old_, new_, seg, live, |new_.symbols|, p);
    MapZero(old_, live.bytes, new_, p);
  }

  /** Arming with one snapshot and installing over other live bytes amounts to remapping the
      live bytes. */
  lemma SwapIsRemap(old_: Layout, snapshot: seq<byte>, new_: Layout, live: Segment)
    requires Valid(old_) && Valid(new_) && |snapshot| == old_.size && live.Valid() && |live.bytes| == old_.size
    ensures Swapped(old_, new_, ShadowImage(new_, MapImage(old_, snapshot, new_), |new_.symbols|), live).bytes
            == MapImage(old_, live.bytes, new_)
  {
    hide Find, Source, Valid, MapImage, ShadowImage, Shadow, Swapped;
    ShadowInstalled(old_, snapshot, new_);
    ShadowSwap(old_, new_, ShadowImage(new_, MapImage(old_, snapshot, new_), |new_.symbols|), live);
  }

  // ----- a plan made for another layout -----

  function OffsetIn(l: Layout, s: Symbol): Option<nat>
  {
    var k := Source(l, s);
    if k.Some? then Some(l.symbols[k.value].offset) else None
  }

  /** Both layouts keep every value the new one takes over at the same place. */
  ghost predicate SamePlan(a: Layout, b: Layout, new_: Layout)
  {
    forall k :: 0 <= k < |new_.symbols| ==> OffsetIn(a, new_.symbols[k]) == OffsetIn(b, new_.symbols[k])
  }

  /** Copies planned for layout `a` fit live memory of layout `b` and remap it, whatever it holds. */
  ghost predicate PlanWorks(a: Layout, b: Layout, new_: Layout, seg: Segment)
    requires Valid(b) && Valid(new_) && seg.Valid() && |seg.bytes| == new_.size
  {
    var copies := CopiesOf(a, new_, |new_.symbols|);
    && AllFit(copies, new_.size, b.size)
    && forall live: Segment :: live.Valid() && |live.bytes| == b.size ==> CopyAll(seg, live, copies).bytes == MapImage(b, live.bytes, new_)
  }

  /** Exactly when a swap between planning and arming does no harm. */
  lemma StalePlan(a: Layout, b: Layout, new_: Layout, seg: Segment)
    requires Valid(a) && Valid(b) && Valid(new_) && Shadow(a, new_, seg)
    ensures PlanWorks(a, b, new_, seg) <==> SamePlan(a, b, new_)
  {
    hide Valid, Shadow, PlanWorks, OffsetIn, CopiesOf;
    if SamePlan(a, b, new_) {
      SamePlanWorks(a, b, new_, seg);
    } else {
      var k: nat :| k < |new_.symbols| && OffsetIn(a, new_.symbols[k]) != OffsetIn(b, new_.symbols[k]);
      PlanFails(a, b, new_, seg, k);
    }
  }

  lemma {:induction false} SameCopies(a: Layout, b: Layout, new_: Layout, n: nat)
    requires SamePlan(a, b, new_) && n <= |new_.symbols|
    ensures CopiesOf(a, new_, n) == CopiesOf(b, new_, n)
  {
    if n > 0 { SameCopies(a, b, new_, n - 1); }
  }

  lemma SameTaken(a: Layout, b: Layout, new_: Layout, p: nat)
    requires SamePlan(a, b, new_) && Taken(a, new_, |new_.symbols|, p)
    ensures Taken(b, new_, |new_.symbols|, p)
  {
    hide Source;
    var k :| 0 <= k < |new_.symbols| && InSymbol(new_, k, p) && Source(a, new_.symbols[k]).Some?;
    assert OffsetIn(b, new_.symbols[k]).Some?;
  }

  lemma SamePlanWorks(a: Layout, b: Layout, new_: Layout, seg: Segment)
    requires Valid(a) && Valid(b) && Valid(new_) && Shadow(a, new_, seg) && SamePlan(a, b, new_)
    ensures PlanWorks(a, b, new_, seg)
  {
    hide Valid, Taken, SamePlan, CopyAll, MapImage, CopiesOf, AllFit;
    SameCopies(a, b, new_, |new_.symbols|);
    CopiesFit(b, new_, |new_.symbols|);
    forall p: nat | p < new_.size && !Taken(b, new_, |new_.symbols|, p) ensures seg.bytes[p] == 0 {
      if Taken(a, new_, |new_.symbols|, p) { SameTaken(a, b, new_, p); }
    }
    forall live: Segment | live.Valid() && |live.bytes| == b.size
      ensures CopyAll(seg, live, CopiesOf(a, new_, |new_.symbols|)).bytes == MapImage(b, live.bytes, new_)
    {
      ShadowSwap(b, new_, seg, live);
    }
  }

  /** Live memory with a single non-zero byte. */
  function Spike(size: nat, at: nat): (s: Segment)
    ensures s.Valid() && |s.bytes| == size
  {
    Segment(seq(size, i => if i == at then 1 else 0), seq(size, i => 0))
  }

  /** A symbol found at different places tells the two apart. */
  lemma PlanFails(a: Layout, b: Layout, new_: Layout, seg: Segment, k: nat)
    requires Valid(a) && Valid(b) && Valid(new_) && Shadow(a, new_, seg)
    requires k < |new_.symbols| && OffsetIn(a, new_.symbols[k]) != OffsetIn(b, new_.symbols[k])
    ensures !PlanWorks(a, b, new_, seg)
  {
    hide Valid, Taken, CopyAll, MapImage, CopiesOf, Source, AllFit;
    var copies := CopiesOf(a, new_, |new_.symbols|);
    if AllFit(copies, new_.size, b.size) {
      var s := new_.symbols[k];
      var oa, ob := OffsetIn(a, s), OffsetIn(b, s);
      var live := Spike(b.size, if oa.Some? then oa.value else ob.value);
      SymbolInside(new_, k);
      PlannedByte(a, new_, seg, live, k);
      RemappedByte(b, new_, live.bytes, k);
      assert CopyAll(seg, live, copies).bytes[s.offset] != MapImage(b, live.bytes, new_)[s.offset];
    }
  }

  /** The first byte of a symbol after the copies. */
  lemma PlannedByte(a: Layout, new_: Layout, seg: Segment, live: Segment, k: nat)
    requires Valid(a) && Valid(new_) && Shadow(a, new_, seg) && live.Valid() && k < |new_.symbols|
    requires AllFit(CopiesOf(a, new_, |new_.symbols|), new_.size, |live.bytes|)
    ensures var p, o := new_.symbols[k].offset, OffsetIn(a, new_.symbols[k]);
            && p < new_.size && (o.Some? ==> o.value < |live.bytes|)
            && CopyAll(seg, live, CopiesOf(a, new_, |new_.symbols|)).bytes[p] == if o.Some? then live.bytes[o.value] else 0
  {
    hide Valid, CopyAll, CopiesOf, Source, AllFit;
    var p := new_.symbols[k].offset;
    SymbolInside(new_, k);
    CopiedByte(a, new_, seg, live, |new_.symbols|, p);
    assert InSymbol(new_, k, p);
    if Source(a, new_.symbols[k]).None? { OnlyHere(a, new_, k); }
  }

  lemma OnlyHere(a: Layout, new_: Layout, k: nat)
    requires Valid(new_) && k < |new_.symbols| && Source(a, new_.symbols[k]).None?
    ensures !Taken(a, new_, |new_.symbols|, new_.symbols[k].offset)
  {
    hide Valid, Source;
    forall j | 0 <= j < |new_.symbols| && InSymbol(new_, j, new_.symbols[k].offset) ensures j == k {
      SameSymbol(new_, j, k, new_.symbols[k].offset);
    }
  }

  /** The first byte of a symbol after a remap. */
  lemma RemappedByte(b: Layout, new_: Layout, image: seq<byte>, k: nat)
    requires Valid(b) && Valid(new_) && |image| == b.size && k < |new_.symbols|
    ensures var p, o := new_.symbols[k].offset, OffsetIn(b, new_.symbols[k]);
            && p < new_.size && (o.Some? ==> o.value < b.size)
            && MapImage(b, image, new_)[p] == if o.Some? then image[o.value] else 0
  {
    hide Valid, MapImage, Source;
    var p := new_.symbols[k].offset;
    SymbolInside(new_, k);
    if Source(b, new_.symbols[k]).Some? {
      MapKeeps(b, image, new_, k, 0);
    } else {
      forall j | 0 <= j < |new_.symbols| && new_.symbols[j].offset <= p < End(new_.symbols[j])
        ensures Source(b, new_.symbols[j]).None?
      {
        assert InSymbol(new_, j, p) && InSymbol(new_, k, p);
        SameSymbol(new_, j, k, p);
      }
      MapZero(b, image, new_, p);
    }
  }
}
