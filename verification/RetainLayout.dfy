/** Retained symbols: names, types and byte ranges, and the validation that makes a layout
    out of an arbitrary list (crates/plc-ir/src/retain.rs). */
module RetainLayout {
  import opened Bytes
  import opened Ir
  import opened Sorting

  type Name = seq<byte>

  datatype Symbol = Symbol(name: Name, ty: IrType, offset: nat)

  function End(s: Symbol): nat { s.offset + ByteWidth(s.ty) }

  datatype Layout = Layout(size: nat, symbols: seq<Symbol>)

  datatype LayoutError = DuplicateName | EmptyName | OutOfBounds | Overlap

  datatype Built = Built(layout: Layout) | Rejected(error: LayoutError)

  // ----- order -----

  /** Byte-wise lexicographic order, as strings compare. */
  predicate NameLe(a: Name, b: Name)
  {
    if a == [] then true
    else if b == [] then false
    else a[0] < b[0] || (a[0] == b[0] && NameLe(a[1..], b[1..]))
  }

  lemma {:induction false} NameLeTotal(a: Name, b: Name)
    ensures NameLe(a, b) || NameLe(b, a)
  {
    if a != [] && b != [] { NameLeTotal(a[1..], b[1..]); }
  }

  lemma {:induction false} NameLeAntisym(a: Name, b: Name)
    requires NameLe(a, b) && NameLe(b, a)
    ensures a == b
  {
    if a != [] && b != [] {
      NameLeAntisym(a[1..], b[1..]);
      assert a == [a[0]] + a[1..] && b == [b[0]] + b[1..];
    }
  }

  lemma {:induction false} NameLeTrans(a: Name, b: Name, c: Name)
    requires NameLe(a, b) && NameLe(b, c)
    ensures NameLe(a, c)
  {
    if a != [] && b != [] && c != [] && a[0] == b[0] && b[0] == c[0] { NameLeTrans(a[1..], b[1..], c[1..]); }
  }

  predicate ByName(a: Symbol, b: Symbol) { NameLe(a.name, b.name) }

  predicate ByOffset(a: Symbol, b: Symbol) { a.offset <= b.offset }

  lemma ByNameTotal()
    ensures Total(ByName)
  {
    forall a, b ensures ByName(a, b) || ByName(b, a) { NameLeTotal(a.name, b.name); }
    forall a, b, c | ByName(a, b) && ByName(b, c) ensures ByName(a, c) { NameLeTrans(a.name, b.name, c.name); }
  }

  // ----- validation -----

  predicate Apart(a: Symbol, b: Symbol) { End(a) <= b.offset || End(b) <= a.offset }

  /** What a layout promises: names non-empty and distinct, ranges inside the segment and
      pairwise disjoint. */
  ghost predicate Sound(size: nat, symbols: seq<Symbol>)
  {
    && (forall i :: 0 <= i < |symbols| ==> symbols[i].name != [] && End(symbols[i]) <= size)
    && (forall i, j :: 0 <= i < j < |symbols| ==> symbols[i].name != symbols[j].name && Apart(symbols[i], symbols[j]))
  }

  ghost predicate Valid(l: Layout)
  {
    Sound(l.size, l.symbols) && Ordered(ByName, l.symbols)
  }

  /** In a sorted list only neighbours need comparing: distinct neighbours, distinct list. */
  lemma NamesDistinct(s: seq<Symbol>)
    requires Ordered(ByName, s)
    requires forall i :: 0 <= i < |s| - 1 ==> s[i].name != s[i + 1].name
    ensures forall i, j :: 0 <= i < j < |s| ==> s[i].name != s[j].name
  {
    forall i, j | 0 <= i < j < |s| ensures s[i].name != s[j].name {
      if s[i].name == s[j].name {
        assert ByName(s[i], s[i + 1]);
        if i + 1 < j { assert ByName(s[i + 1], s[j]); }
        NameLeAntisym(s[i].name, s[i + 1].name);
      }
    }
  }

  /** Likewise for ranges sorted by offset. */
  lemma {:induction false} RangesApart(s: seq<Symbol>, i: nat, j: nat)
    requires Ordered(ByOffset, s)
    requires forall k :: 0 <= k < |s| - 1 ==> End(s[k]) <= s[k + 1].offset
    requires i < j < |s|
    ensures End(s[i]) <= s[j].offset
    decreases j - i
  {
    if i + 1 < j { RangesApart(s, i + 1, j); }
  }

  /** Pairwise properties do not depend on the order of a list. */
  lemma SoundPermuted(size: nat, s: seq<Symbol>, t: seq<Symbol>)
    requires multiset(s) == multiset(t) && Sound(size, s)
    ensures Sound(size, t)
  {
    SoundNoTwice(size, s);
    forall i | 0 <= i < |t| ensures t[i].name != [] && End(t[i]) <= size {
      assert t[i] in multiset(t);
      assert t[i] in s;
    }
    forall i, j | 0 <= i < j < |t| ensures t[i].name != t[j].name && Apart(t[i], t[j]) {
      assert t[i] in multiset(t) && t[j] in multiset(t);
      var a :| 0 <= a < |s| && s[a] == t[i];
      var b :| 0 <= b < |s| && s[b] == t[j];
      if t[i] == t[j] { TwiceInMultiset(t, i, j); }
      assert a != b;
    }
  }

  lemma SoundNoTwice(size: nat, s: seq<Symbol>)
    requires Sound(size, s)
    ensures forall x :: x in s ==> multiset(s)[x] == 1
    decreases |s|
  {
    if s != [] {
      var n := |s| - 1;
      SoundNoTwice(size, s[..n]);
      assert s == s[..n] + [s[n]];
      assert s[n] !in s[..n];
    }
  }

  lemma TwiceInMultiset(t: seq<Symbol>, i: nat, j: nat)
    requires i < j < |t| && t[i] == t[j]
    ensures multiset(t)[t[i]] >= 2
  {
    assert t == t[..i] + [t[i]] + t[i + 1..j] + [t[j]] + t[j + 1..];
  }

  /** The layout built from symbols that pass validation. */
  lemma SortedValid(size: nat, given: seq<Symbol>)
    requires Sound(size, given)
    ensures Valid(Layout(size, Sort(ByName, given)))
  {
    ByNameTotal();
    SortOrdered(ByName, given);
    SoundPermuted(size, given, Sort(ByName, given));
  }

  /** The checks as the code makes them: sort by name, compare neighbours, check each range,
      sort a copy by offset, compare neighbours again. Accepts exactly the sound lists, and
      the layout is the list in name order. */
  method NewLayout(size: nat, given: seq<Symbol>) returns (r: Built)
    ensures r.Built? <==> Sound(size, given)
    ensures r.Built? ==> r.layout == Layout(size, Sort(ByName, given)) && Valid(r.layout)
  {
    hide Sort, NameLe, Apart;
    ByNameTotal();
    var symbols := Sort(ByName, given);
    SortOrdered(ByName, given);
    if Sound(size, given) { SoundPermuted(size, given, symbols); }
    var i := 0;
    while i + 1 < |symbols|
      invariant 0 <= i
      invariant forall k :: 0 <= k < i && k + 1 < |symbols| ==> symbols[k].name != symbols[k + 1].name
    {
      if symbols[i].name == symbols[i + 1].name { return Rejected(DuplicateName); }
      i := i + 1;
    }
    NamesDistinct(symbols);
    for k := 0 to |symbols|
      invariant forall j :: 0 <= j < k ==> symbols[j].name != [] && End(symbols[j]) <= size
    {
      if symbols[k].name == [] { return Rejected(EmptyName); }
      if End(symbols[k]) > size { return Rejected(OutOfBounds); }
    }
    var clear := RangesClear(size, symbols);
    if !clear { return Rejected(Overlap); }
    SoundPermuted(size, symbols, given);
    r := Built(Layout(size, symbols));
  }

  /** The overlap check on an offset-sorted copy. */
  method RangesClear(size: nat, symbols: seq<Symbol>) returns (clear: bool)
    requires forall i, j :: 0 <= i < j < |symbols| ==> symbols[i].name != symbols[j].name
    requires forall k :: 0 <= k < |symbols| ==> symbols[k].name != [] && End(symbols[k]) <= size
    ensures clear <==> Sound(size, symbols)
  {
    hide Sort;
    var byOff := Sort(ByOffset, symbols);
    SortOrdered(ByOffset, symbols);
    if Sound(size, symbols) { SoundPermuted(size, symbols, byOff); }
    var i := 0;
    while i + 1 < |byOff|
      invariant 0 <= i
      invariant forall k :: 0 <= k < i && k + 1 < |byOff| ==> End(byOff[k]) <= byOff[k + 1].offset
    {
      if End(byOff[i]) > byOff[i + 1].offset {
        assert ByOffset(byOff[i], byOff[i + 1]);
        assert !Apart(byOff[i], byOff[i + 1]);
        return false;
      }
      i := i + 1;
    }
    SortedApart(size, symbols, byOff);
    return true;
  }

  lemma SortedApart(size: nat, symbols: seq<Symbol>, byOff: seq<Symbol>)
    requires multiset(byOff) == multiset(symbols) && Ordered(ByOffset, byOff)
    requires forall i, j :: 0 <= i < j < |symbols| ==> symbols[i].name != symbols[j].name
    requires forall k :: 0 <= k < |symbols| ==> symbols[k].name != [] && End(symbols[k]) <= size
    requires forall k :: 0 <= k < |byOff| - 1 ==> End(byOff[k]) <= byOff[k + 1].offset
    ensures Sound(size, symbols)
  {
    forall i, j | 0 <= i < j < |symbols| ensures Apart(symbols[i], symbols[j]) {
      assert symbols[i] in multiset(byOff) && symbols[j] in multiset(byOff);
      var a :| 0 <= a < |byOff| && byOff[a] == symbols[i];
      var b :| 0 <= b < |byOff| && byOff[b] == symbols[j];
      if a < b { RangesApart(byOff, a, b); } else if b < a { RangesApart(byOff, b, a); }
    }
  }

  // ----- lookup -----

  /** Index of a name, None when it is not declared. */
  function Find(symbols: seq<Symbol>, name: Name): (r: Option<nat>)
    ensures r.Some? ==> r.value < |symbols| && symbols[r.value].name == name
    ensures r.None? ==> forall i :: 0 <= i < |symbols| ==> symbols[i].name != name
  {
    if symbols == [] then None
    else if symbols[0].name == name then Some(0)
    else
      var t := Find(symbols[1..], name);
      if t.None? then
        assert forall i :: 0 < i < |symbols| ==> symbols[i] == symbols[1..][i - 1];
        None
      else Some(t.value + 1)
  }

  /** Binary search over the name-sorted symbols. */
  method Get(l: Layout, name: Name) returns (r: Option<nat>)
    requires Valid(l)
    ensures r == Find(l.symbols, name)
  {
    var lo, hi := 0, |l.symbols|;
    while lo < hi
      invariant 0 <= lo <= hi <= |l.symbols|
      invariant forall i :: 0 <= i < lo ==> l.symbols[i].name != name
      invariant forall i :: hi <= i < |l.symbols| ==> l.symbols[i].name != name
    {
      var mid := (lo + hi) / 2;
      var s := l.symbols[mid];
      if s.name == name {
        FoundAt(l, name, mid);
        return Some(mid);
      }
      if NameLe(s.name, name) {
        SmallerBefore(l, name, mid);
        lo := mid + 1;
      } else {
        LargerAfter(l, name, mid);
        hi := mid;
      }
    }
    return None;
  }

  lemma FoundAt(l: Layout, name: Name, k: nat)
    requires Valid(l) && k < |l.symbols| && l.symbols[k].name == name
    ensures Find(l.symbols, name) == Some(k)
  {
    var r := Find(l.symbols, name);
    assert r.Some?;
    if r.value < k { assert false; }
    if k < r.value { assert false; }
  }

  lemma SmallerBefore(l: Layout, name: Name, mid: nat)
    requires Valid(l) && mid < |l.symbols| && l.symbols[mid].name != name && NameLe(l.symbols[mid].name, name)
    ensures forall i :: 0 <= i <= mid ==> l.symbols[i].name != name
  {
    forall i | 0 <= i <= mid ensures l.symbols[i].name != name {
      if i < mid && l.symbols[i].name == name {
        assert ByName(l.symbols[i], l.symbols[mid]);
        NameLeAntisym(name, l.symbols[mid].name);
      }
    }
  }

  lemma LargerAfter(l: Layout, name: Name, mid: nat)
    requires Valid(l) && mid < |l.symbols| && !NameLe(l.symbols[mid].name, name)
    ensures forall i :: mid <= i < |l.symbols| ==> l.symbols[i].name != name
  {
    forall i | mid <= i < |l.symbols| ensures l.symbols[i].name != name {
      assert mid < i ==> ByName(l.symbols[mid], l.symbols[i]);
      NameLeTotal(name, name);
    }
  }
}
