/** Remapping retained values by name: keep, drop, start cold
    (crates/plc-retain/src/map.rs). */
module RetainMap {
  import opened Bytes
  import opened Ir
  import opened RetainLayout
  import opened RetainCodec

  datatype Report = Report(kept: nat, cold: nat, dropped: nat, zeroed: seq<Name>)

  datatype MapResult = Mapped(image: seq<byte>, report: Report) | Incompatible(names: seq<Name>) | BadRecord

  /** What the layout has under a record's name. */
  function Slot(l: Layout, r: Record): (k: Option<nat>)
    ensures k.Some? ==> k.value < |l.symbols| && l.symbols[k.value].name == r.name
  {
    Find(l.symbols, r.name)
  }

  predicate Keeps(l: Layout, r: Record)
  {
    var k := Slot(l, r); k.Some? && l.symbols[k.value].ty == r.ty
  }

  predicate Clashes(l: Layout, r: Record)
  {
    var k := Slot(l, r); k.Some? && l.symbols[k.value].ty != r.ty
  }

  predicate BadWidth(l: Layout, r: Record) { Keeps(l, r) && |r.value| != ByteWidth(r.ty) }

  function Zeros(n: nat): (s: seq<byte>)
    ensures |s| == n && forall p :: 0 <= p < n ==> s[p] == 0
  {
    seq(n, i => 0)
  }

  function Blit(image: seq<byte>, off: nat, value: seq<byte>): (r: seq<byte>)
    requires off + |value| <= |image|
    ensures |r| == |image|
    ensures forall p :: 0 <= p < |image| ==>
              r[p] == if off <= p < off + |value| then value[p - off] else image[p]
  {
    image[..off] + value + image[off + |value|..]
  }

  // ----- what applying a list of records amounts to -----

  ghost predicate AllWide(l: Layout, recs: seq<Record>)
  {
    forall i :: 0 <= i < |recs| ==> !BadWidth(l, recs[i])
  }

  function ImageOf(l: Layout, recs: seq<Record>): (image: seq<byte>)
    requires Valid(l) && AllWide(l, recs)
    ensures |image| == l.size
  {
    if recs == [] then Zeros(l.size)
    else
      var n := |recs| - 1;
      var before := ImageOf(l, recs[..n]);
      if Keeps(l, recs[n]) then
        assert !BadWidth(l, recs[n]);
        Blit(before, l.symbols[Slot(l, recs[n]).value].offset, recs[n].value)
      else before
  }

  function KeptOf(l: Layout, recs: seq<Record>): nat
  {
    if recs == [] then 0
    else KeptOf(l, recs[..|recs| - 1]) + if Keeps(l, recs[|recs| - 1]) then 1 else 0
  }

  function DroppedOf(l: Layout, recs: seq<Record>): nat
  {
    if recs == [] then 0
    else DroppedOf(l, recs[..|recs| - 1]) + if Slot(l, recs[|recs| - 1]).None? then 1 else 0
  }

  function ClashesOf(l: Layout, recs: seq<Record>): seq<Name>
  {
    if recs == [] then []
    else
      var n := |recs| - 1;
      ClashesOf(l, recs[..n]) + if Clashes(l, recs[n]) then [recs[n].name] else []
  }

  /** Indexes of the symbols that received a value. */
  function UsedOf(l: Layout, recs: seq<Record>): set<nat>
  {
    if recs == [] then {}
    else
      var n := |recs| - 1;
      UsedOf(l, recs[..n]) + if Keeps(l, recs[n]) then {Slot(l, recs[n]).value} else {}
  }

  function ColdOf(l: Layout, recs: seq<Record>, zeroed: nat): nat
    requires Valid(l)
  {
    var unused := |l.symbols| - |UsedOf(l, recs)|;
    if unused >= zeroed then unused - zeroed else 0
  }

  lemma {:induction false} UsedInside(l: Layout, recs: seq<Record>)
    ensures forall k :: k in UsedOf(l, recs) ==> k < |l.symbols|
  {
    if recs != [] { UsedInside(l, recs[..|recs| - 1]); }
  }

  /** Counts the flags that are not set, as the final loop does. */
  function Unset(used: seq<bool>): nat
  {
    if used == [] then 0 else Unset(used[..|used| - 1]) + if used[|used| - 1] then 0 else 1
  }

  lemma {:induction false} UnsetCount(used: seq<bool>, marked: set<nat>)
    requires forall k: nat :: k in marked <==> k < |used| && used[k]
    ensures Unset(used) + |marked| == |used|
    decreases |used|
  {
    if used == [] {
      assert marked == {};
    } else {
      var n := |used| - 1;
      UnsetCount(used[..n], marked - {n});
      if used[n] { assert n in marked; } else { assert marked - {n} == marked; }
    }
  }

  method CountUnset(used: array<bool>) returns (n: nat)
    ensures n == Unset(used[..])
  {
    n := 0;
    for i := 0 to used.Length
      invariant n == Unset(used[..i])
    {
      assert used[..i + 1][..i] == used[..i];
      if !used[i] { n := n + 1; }
    }
    assert used[..used.Length] == used[..];
  }

  lemma FreshZeros(n: nat)
    ensures seq(n, i => 0) == Zeros(n)
  {}

  /** Copies kept values into a zeroed image and counts what happened to each record. */
  method ApplyRecords(recs: seq<Record>, l: Layout, force: bool) returns (r: MapResult)
    requires Valid(l)
    ensures r.BadRecord? <==> !AllWide(l, recs)
    ensures AllWide(l, recs) && ClashesOf(l, recs) != [] && !force ==> r == Incompatible(ClashesOf(l, recs))
    ensures AllWide(l, recs) && (ClashesOf(l, recs) == [] || force) ==>
              var zeroed := if force then ClashesOf(l, recs) else [];
              r == Mapped(ImageOf(l, recs), Report(KeptOf(l, recs), ColdOf(l, recs, |zeroed|), DroppedOf(l, recs), zeroed))
  {
    hide Valid, Find, Blit, Zeros, Unset, ImageOf, KeptOf, DroppedOf, ClashesOf, UsedOf, AllWide;
    FreshZeros(l.size);
    NoRecords(l);
    var image := new byte[l.size](i => 0);
    var used := new bool[|l.symbols|](i => false);
    var kept, dropped := 0, 0;
    var incompat: seq<Name> := [];
    assert recs[..0] == [];
    for i := 0 to |recs|
      invariant AllWide(l, recs[..i])
      invariant image[..] == ImageOf(l, recs[..i])
      invariant kept == KeptOf(l, recs[..i]) && dropped == DroppedOf(l, recs[..i]) && incompat == ClashesOf(l, recs[..i])
      invariant forall k: nat :: k in UsedOf(l, recs[..i]) <==> k < used.Length && used[k]
    {
      var rec := recs[i];
      OneMore(l, recs, i);
      var at := Get(l, rec.name);
      if at.None? {
        dropped := dropped + 1;
      } else if l.symbols[at.value].ty == rec.ty {
        var start := l.symbols[at.value].offset;
        if |rec.value| != ByteWidth(rec.ty) {
          NotWide(l, recs, i);
          return BadRecord;
        }
        SymbolInside(l, at.value);
        CopyInto(image, start, rec.value);
        kept := kept + 1;
        used[at.value] := true;
      } else {
        incompat := incompat + [rec.name];
      }
    }
    assert recs[..|recs|] == recs;
    if incompat != [] && !force { return Incompatible(incompat); }
    var zeroed := if force then incompat else [];
    var cold := CountUnset(used);
    UnsetCount(used[..], UsedOf(l, recs));
    cold := if cold >= |zeroed| then cold - |zeroed| else 0;
    return Mapped(image[..], Report(kept, cold, dropped, zeroed));
  }

  lemma NoRecords(l: Layout)
    requires Valid(l)
    ensures AllWide(l, []) && ImageOf(l, []) == Zeros(l.size)
    ensures KeptOf(l, []) == 0 && DroppedOf(l, []) == 0 && ClashesOf(l, []) == [] && UsedOf(l, []) == {}
  {}

  lemma NotWide(l: Layout, recs: seq<Record>, i: nat)
    requires i < |recs| && BadWidth(l, recs[i])
    ensures !AllWide(l, recs)
  {}

  /** What one more record changes. */
  lemma OneMore(l: Layout, recs: seq<Record>, i: nat)
    requires Valid(l) && i < |recs| && AllWide(l, recs[..i])
    ensures AllWide(l, recs[..i + 1]) <==> !BadWidth(l, recs[i])
    ensures !BadWidth(l, recs[i]) ==>
              if Keeps(l, recs[i]) then
                && l.symbols[Slot(l, recs[i]).value].offset + |recs[i].value| <= l.size
                && ImageOf(l, recs[..i + 1])
                   == Blit(ImageOf(l, recs[..i]), l.symbols[Slot(l, recs[i]).value].offset, recs[i].value)
              else ImageOf(l, recs[..i + 1]) == ImageOf(l, recs[..i])
    ensures KeptOf(l, recs[..i + 1]) == KeptOf(l, recs[..i]) + if Keeps(l, recs[i]) then 1 else 0
    ensures DroppedOf(l, recs[..i + 1]) == DroppedOf(l, recs[..i]) + if Slot(l, recs[i]).None? then 1 else 0
    ensures ClashesOf(l, recs[..i + 1]) == ClashesOf(l, recs[..i]) + if Clashes(l, recs[i]) then [recs[i].name] else []
    ensures UsedOf(l, recs[..i + 1]) == UsedOf(l, recs[..i]) + if Keeps(l, recs[i]) then {Slot(l, recs[i]).value} else {}
  {
    hide Find, Blit;
    var front := recs[..i + 1];
    assert front[..i] == recs[..i] && front[i] == recs[i];
    if Keeps(l, recs[i]) { SymbolInside(l, Slot(l, recs[i]).value); }
    if !BadWidth(l, recs[i]) {
      forall k | 0 <= k < |front| ensures !BadWidth(l, front[k]) {
        if k < i { assert recs[..i][k] == front[k]; }
      }
    }
  }

  lemma SymbolInside(l: Layout, k: nat)
    requires Valid(l) && k < |l.symbols|
    ensures End(l.symbols[k]) <= l.size
  {}

  method CopyInto(image: array<byte>, start: nat, value: seq<byte>)
    requires start + |value| <= image.Length
    modifies image
    ensures image[..] == Blit(old(image[..]), start, value)
  {
    forall p | start <= p < start + |value| { image[p] := value[p - start]; }
  }

  /** The remap of a live image from one layout to another. */
  method MapRetain(old_: Layout, oldImage: seq<byte>, new_: Layout, force: bool) returns (r: Outcome<MapResult>)
    requires Valid(old_) && Valid(new_)
    ensures |oldImage| != old_.size ==> r == Failed(ImageSize)
    ensures |oldImage| == old_.size ==>
              var recs := RecordsFrom(old_, oldImage);
              && AllWide(new_, recs)
              && r == Done(if ClashesOf(new_, recs) != [] && !force then Incompatible(ClashesOf(new_, recs))
                           else Mapped(MapImage(old_, oldImage, new_), ReportOf(new_, recs, force)))
  {
    var recs := RecordsFromImage(old_, oldImage);
    if recs.Failed? { return Failed(recs.error); }
    RecordsWide(old_, oldImage, new_);
    var m := ApplyRecords(recs.value, new_, force);
    return Done(m);
  }

  function ReportOf(l: Layout, recs: seq<Record>, force: bool): Report
    requires Valid(l)
  {
    var zeroed := if force then ClashesOf(l, recs) else [];
    Report(KeptOf(l, recs), ColdOf(l, recs, |zeroed|), DroppedOf(l, recs), zeroed)
  }

  lemma RecordsWide(old_: Layout, image: seq<byte>, new_: Layout)
    requires Valid(old_) && |image| == old_.size
    ensures AllWide(new_, RecordsFrom(old_, image))
  {}

  /** The remapped image. */
  function MapImage(old_: Layout, image: seq<byte>, new_: Layout): (r: seq<byte>)
    requires Valid(old_) && Valid(new_) && |image| == old_.size
    ensures |r| == new_.size
  {
    RecordsWide(old_, image, new_);
    ImageOf(new_, RecordsFrom(old_, image))
  }

  // ----- conservation -----

  /** Every record is kept, dropped or incompatible. */
  lemma {:induction false} RecordsConserved(l: Layout, recs: seq<Record>)
    ensures KeptOf(l, recs) + DroppedOf(l, recs) + |ClashesOf(l, recs)| == |recs|
  {
    if recs != [] { RecordsConserved(l, recs[..|recs| - 1]); }
  }

  ghost predicate Unique(recs: seq<Record>)
  {
    forall i, j :: 0 <= i < j < |recs| ==> recs[i].name != recs[j].name
  }

  /** Symbols that some record of another type names. */
  function ClashIndexes(l: Layout, recs: seq<Record>): set<nat>
  {
    if recs == [] then {}
    else
      var n := |recs| - 1;
      ClashIndexes(l, recs[..n]) + if Clashes(l, recs[n]) then {Slot(l, recs[n]).value} else {}
  }

  lemma {:induction false} IndexesNamed(l: Layout, recs: seq<Record>)
    ensures forall k :: k in UsedOf(l, recs) ==> k < |l.symbols| && Named(recs, l.symbols[k].name)
    ensures forall k :: k in ClashIndexes(l, recs) ==> k < |l.symbols| && Named(recs, l.symbols[k].name)
  {
    if recs != [] {
      var n := |recs| - 1;
      IndexesNamed(l, recs[..n]);
      forall x | Named(recs[..n], x) ensures Named(recs, x) {
        var i :| 0 <= i < n && recs[..n][i].name == x;
        assert recs[i].name == x;
      }
    }
  }

  ghost predicate Named(recs: seq<Record>, x: Name) { exists i :: 0 <= i < |recs| && recs[i].name == x }

  /** Uniquely named records use as many symbols as they keep, and never one that clashes. */
  lemma {:induction false} UniqueCounts(l: Layout, recs: seq<Record>)
    requires Unique(recs)
    ensures |UsedOf(l, recs)| == KeptOf(l, recs) && |ClashIndexes(l, recs)| == |ClashesOf(l, recs)|
    ensures UsedOf(l, recs) !! ClashIndexes(l, recs)
  {
    if recs != [] {
      var n := |recs| - 1;
      UniqueCounts(l, recs[..n]);
      IndexesNamed(l, recs[..n]);
      var k := Slot(l, recs[n]);
      if k.Some? {
        assert !Named(recs[..n], recs[n].name);
        assert k.value !in UsedOf(l, recs[..n]) && k.value !in ClashIndexes(l, recs[..n]);
      }
    }
  }

  /** Every symbol is kept, cold or zeroed when the records have distinct names. */
  lemma SymbolsConserved(l: Layout, recs: seq<Record>)
    requires Valid(l) && Unique(recs)
    ensures KeptOf(l, recs) + ColdOf(l, recs, |ClashesOf(l, recs)|) + |ClashesOf(l, recs)| == |l.symbols|
  {
    UniqueCounts(l, recs);
    IndexesNamed(l, recs);
    var both := UsedOf(l, recs) + ClashIndexes(l, recs);
    BelowCount(both, |l.symbols|);
  }

  lemma {:induction false} BelowCount(s: set<nat>, n: nat)
    requires forall k :: k in s ==> k < n
    ensures |s| <= n
    decreases n
  {
    if n > 0 {
      BelowCount(s - {n - 1}, n - 1);
      if n - 1 !in s { assert s - {n - 1} == s; }
    } else {
      assert s == {};
    }
  }

  lemma RecordsUnique(l: Layout, image: seq<byte>)
    requires Valid(l) && |image| == l.size
    ensures Unique(RecordsFrom(l, image))
  {}

  // ----- exactness -----

  /** The symbol a byte of the new image belongs to keeps its value. */
  ghost predicate Covers(l: Layout, recs: seq<Record>, i: int, p: int)
  {
    0 <= i < |recs| && Keeps(l, recs[i]) && var s := l.symbols[Slot(l, recs[i]).value]; s.offset <= p < End(s)
  }

  /** A byte of the image comes from the one record whose symbol covers it, and is zero
      where no kept symbol lies. */
  lemma {:induction false} ImageByte(l: Layout, recs: seq<Record>, p: nat)
    requires Valid(l) && AllWide(l, recs) && Unique(recs) && p < l.size
    ensures forall i :: Covers(l, recs, i, p) ==>
              var off := l.symbols[Slot(l, recs[i]).value].offset;
              off <= p < off + |recs[i].value| && ImageOf(l, recs)[p] == recs[i].value[p - off]
    ensures (forall i :: !Covers(l, recs, i, p)) ==> ImageOf(l, recs)[p] == 0
    decreases recs
  {
    hide Find;
    if recs != [] {
      var n := |recs| - 1;
      var front := recs[..n];
      assert forall i :: 0 <= i < n ==> front[i] == recs[i];
      ImageByte(l, front, p);
      forall i | Covers(l, recs, i, p)
        ensures var off := l.symbols[Slot(l, recs[i]).value].offset;
                off <= p < off + |recs[i].value| && ImageOf(l, recs)[p] == recs[i].value[p - off]
      {
        assert !BadWidth(l, recs[i]) && !BadWidth(l, recs[n]);
        if i < n {
          assert Covers(l, front, i, p);
          if Keeps(l, recs[n]) { DifferentSlots(l, recs[i], recs[n]); }
        }
      }
      if forall i :: !Covers(l, recs, i, p) {
        assert !Covers(l, recs, n, p);
        forall i ensures !Covers(l, front, i, p) { assert !Covers(l, recs, i, p); }
        if Keeps(l, recs[n]) { assert !BadWidth(l, recs[n]); }
      }
    }
  }

  lemma DifferentSlots(l: Layout, a: Record, b: Record)
    requires Valid(l) && Keeps(l, a) && Keeps(l, b) && a.name != b.name
    ensures var s, t := l.symbols[Slot(l, a).value], l.symbols[Slot(l, b).value];
            End(s) <= t.offset || End(t) <= s.offset
  {
    var i, j := Slot(l, a).value, Slot(l, b).value;
    if i < j { assert Apart(l.symbols[i], l.symbols[j]); } else { assert Apart(l.symbols[j], l.symbols[i]); }
  }

  /** The old symbol whose value a new symbol takes over. */
  function Source(old_: Layout, s: Symbol): (k: Option<nat>)
    ensures k.Some? ==> k.value < |old_.symbols| && old_.symbols[k.value].name == s.name && old_.symbols[k.value].ty == s.ty
  {
    var k := Find(old_.symbols, s.name);
    if k.Some? && old_.symbols[k.value].ty == s.ty then k else None
  }

  /** Remap exactness: inside a new symbol whose name and type the old layout has, the
      remapped image repeats the old bytes. */
  lemma MapKeeps(old_: Layout, image: seq<byte>, new_: Layout, k: nat, d: nat)
    requires Valid(old_) && Valid(new_) && |image| == old_.size && k < |new_.symbols|
    requires d < ByteWidth(new_.symbols[k].ty) && Source(old_, new_.symbols[k]).Some?
    ensures new_.symbols[k].offset + d < new_.size
    ensures var o := old_.symbols[Source(old_, new_.symbols[k]).value];
            o.offset + d < old_.size && MapImage(old_, image, new_)[new_.symbols[k].offset + d] == image[o.offset + d]
  {
    hide Find;
    var s := new_.symbols[k];
    var j := Source(old_, s).value;
    var recs := RecordsFrom(old_, image);
    RecordsWide(old_, image, new_);
    RecordsUnique(old_, image);
    SymbolInside(new_, k);
    SymbolInside(old_, j);
    assert recs[j] == RecordOf(old_.symbols[j], image);
    FoundAt(new_, s.name, k);
    assert Covers(new_, recs, j, s.offset + d);
    ImageByte(new_, recs, s.offset + d);
  }

  /** Everything else is zero. */
  lemma MapZero(old_: Layout, image: seq<byte>, new_: Layout, p: nat)
    requires Valid(old_) && Valid(new_) && |image| == old_.size && p < new_.size
    requires forall k :: 0 <= k < |new_.symbols| && new_.symbols[k].offset <= p < End(new_.symbols[k]) ==>
                           Source(old_, new_.symbols[k]).None?
    ensures MapImage(old_, image, new_)[p] == 0
  {
    hide Find;
    var recs := RecordsFrom(old_, image);
    RecordsWide(old_, image, new_);
    RecordsUnique(old_, image);
    forall i ensures !Covers(new_, recs, i, p) {
      if Covers(new_, recs, i, p) {
        var k := Slot(new_, recs[i]).value;
        assert recs[i] == RecordOf(old_.symbols[i], image);
        FoundAt(old_, old_.symbols[i].name, i);
        assert false;
      }
    }
    ImageByte(new_, recs, p);
  }
}
