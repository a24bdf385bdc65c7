/** Batched Modbus access: the overlap check, the grouping of points into address ranges,
    and grouped reads and writes against single ones
    (crates/plc-io-modbus/src/driver.rs, crates/plc-io-modbus/src/validate.rs). The device is
    its register or coil image; value conversion is a parameter. */
module Modbus {
  import opened Bytes
  import opened Ir
  import opened Sorting

  datatype Table = Coil | Discrete | Holding | InputReg

  datatype Point = Point(output: bool, table: Table, bitRaw: bool, pdu: nat, words: nat)

  datatype Group = Group(start: nat, qty: nat, members: seq<nat>)

  const U16: nat := 65535

  function End(p: Point): nat { p.pdu + p.words }

  predicate IsBitTable(t: Table) { t.Coil? || t.Discrete? }

  /** What planning leaves: five-digit references give addresses below 9999, and a point
      takes one or two words, one in a bit table. */
  predicate PointOk(p: Point)
  {
    p.pdu < 9999 && 1 <= p.words <= 2 && (IsBitTable(p.table) ==> p.words == 1)
  }

  ghost predicate PointsOk(points: seq<Point>) { forall i :: 0 <= i < |points| ==> PointOk(points[i]) }

  // ----- overlaps -----

  function TableNumber(t: Table): nat
  {
    match t case Coil => 0 case Discrete => 1 case Holding => 2 case InputReg => 3
  }

  predicate SpanLe(a: Point, b: Point)
  {
    TableNumber(a.table) < TableNumber(b.table) || (a.table == b.table && a.pdu <= b.pdu)
  }

  predicate Clear(a: Point, b: Point) { a.table == b.table ==> End(a) <= b.pdu || End(b) <= a.pdu }

  ghost predicate Disjoint(points: seq<Point>)
  {
    forall i, j :: 0 <= i < j < |points| ==> Clear(points[i], points[j])
  }

  lemma SpanLeTotal()
    ensures Total(SpanLe)
  {}

  /** In span order only neighbours need comparing. */
  lemma {:induction false} NeighboursClear(s: seq<Point>, i: nat, j: nat)
    requires Ordered(SpanLe, s) && i < j < |s| && s[i].table == s[j].table
    requires forall k :: 0 <= k < |s| ==> s[k].words >= 1
    requires forall k :: 0 <= k < |s| - 1 ==> s[k].table == s[k + 1].table ==> End(s[k]) <= s[k + 1].pdu
    ensures End(s[i]) <= s[j].pdu
    decreases j - i
  {
    assert SpanLe(s[i], s[i + 1]);
    if i + 1 < j {
      assert SpanLe(s[i + 1], s[j]);
      NeighboursClear(s, i + 1, j);
    }
  }

  lemma DisjointPermuted(s: seq<Point>, t: seq<Point>)
    requires multiset(s) == multiset(t) && Disjoint(s) && forall k :: 0 <= k < |s| ==> s[k].words >= 1
    ensures Disjoint(t)
  {
    forall i, j | 0 <= i < j < |t| ensures Clear(t[i], t[j]) {
      assert t[i] in multiset(t) && t[j] in multiset(t);
      assert t[i] in s && t[j] in s;
      var a :| 0 <= a < |s| && s[a] == t[i];
      var b :| 0 <= b < |s| && s[b] == t[j];
      forall x, y | 0 <= x < y < |s| ensures s[x] != s[y] { assert Clear(s[x], s[y]); }
      Once(s, t, i, j);
    }
  }

  /** Accepts exactly the points whose address ranges are pairwise disjoint in each table. */
  method CheckOverlaps(points: seq<Point>) returns (ok: bool)
    requires PointsOk(points)
    ensures ok <==> Disjoint(points)
  {
    hide Sort;
    var s := Sort(SpanLe, points);
    SpanLeTotal();
    SortOrdered(SpanLe, points);
    forall k | 0 <= k < |s| ensures PointOk(s[k]) {
      assert s[k] in multiset(s);
      assert s[k] in points;
    }
    if Disjoint(points) { DisjointPermuted(points, s); }
    var i := 0;
    while i + 1 < |s|
      invariant 0 <= i
      invariant forall k :: 0 <= k < i && k + 1 < |s| ==> s[k].table == s[k + 1].table ==> End(s[k]) <= s[k + 1].pdu
    {
      if s[i].table == s[i + 1].table && s[i + 1].pdu < End(s[i]) {
        assert SpanLe(s[i], s[i + 1]);
        assert !Clear(s[i], s[i + 1]);
        return false;
      }
      i := i + 1;
    }
    forall a, b | 0 <= a < b < |s| ensures Clear(s[a], s[b]) {
      if s[a].table == s[b].table { NeighboursClear(s, a, b); }
    }
    DisjointPermuted(s, points);
    ok := true;
  }

  // ----- grouping -----

  datatype Ref = Ref(index: nat, pdu: nat)

  predicate ByAddress(a: Ref, b: Ref) { a.pdu <= b.pdu }

  /** Points that satisfy the predicate, in order of their index. */
  function Wanted(points: seq<Point>, want: Point -> bool, n: nat): (s: seq<Ref>)
    requires n <= |points|
    ensures forall i :: 0 <= i < |s| ==> s[i].index < n && s[i].pdu == points[s[i].index].pdu && want(points[s[i].index])
  {
    if n == 0 then []
    else Wanted(points, want, n - 1) + if want(points[n - 1]) then [Ref(n - 1, points[n - 1].pdu)] else []
  }

  function Indices(refs: seq<Ref>): (s: seq<nat>)
    ensures |s| == |refs|
  {
    seq(|refs|, i requires 0 <= i < |refs| => refs[i].index)
  }

  /** The wanted points in address order. */
  function InOrder(points: seq<Point>, want: Point -> bool): seq<nat>
  {
    Indices(Sort(ByAddress, Wanted(points, want, |points|)))
  }

  function Flat(groups: seq<Group>): seq<nat>
  {
    if groups == [] then [] else Flat(groups[..|groups| - 1]) + groups[|groups| - 1].members
  }

  /** The members follow each other without gap and fill the range exactly. */
  ghost predicate Tiled(points: seq<Point>, g: Group)
  {
    && g.members != [] && (forall i :: 0 <= i < |g.members| ==> g.members[i] < |points|)
    && points[g.members[0]].pdu == g.start
    && (forall i :: 0 <= i < |g.members| - 1 ==> End(points[g.members[i]]) == points[g.members[i + 1]].pdu)
    && g.start + g.qty == End(points[g.members[|g.members| - 1]])
  }

  /** The point could still join the group. */
  predicate Joins(g: Group, p: Point, maxQty: nat) { p.pdu == g.start + g.qty && End(p) - g.start <= maxQty }

  ghost predicate Good(points: seq<Point>, g: Group, maxQty: nat)
  {
    Tiled(points, g) && 1 <= g.qty <= maxQty && g.start < 9999
  }

  ghost predicate Grouped(points: seq<Point>, groups: seq<Group>, maxQty: nat)
  {
    && (forall k :: 0 <= k < |groups| ==> Good(points, groups[k], maxQty))
    && (forall k :: 0 <= k < |groups| - 1 ==> !Joins(groups[k], points[groups[k + 1].members[0]], maxQty))
  }

  function SatAdd(a: nat, b: nat): nat { if a + b > U16 then U16 else a + b }

  function SatSub(a: nat, b: nat): nat { if a < b then 0 else a - b }

  /** Groups the wanted points: they appear once each in address order, every group's spans
      tile its range within the limit, and no group could have taken the next one's first. */
  method BuildGroups(points: seq<Point>, want: Point -> bool, maxQty: nat) returns (groups: seq<Group>)
    requires PointsOk(points) && 2 <= maxQty <= 2000
    ensures Flat(groups) == InOrder(points, want) && Grouped(points, groups, maxQty)
  {
    hide Sort, Grouped, Flat, StartsNew, Joins;
    var refs := Sort(ByAddress, Wanted(points, want, |points|));
    forall i | 0 <= i < |refs| ensures refs[i].index < |points| && refs[i].pdu == points[refs[i].index].pdu {
      assert refs[i] in multiset(refs);
      assert refs[i] in Wanted(points, want, |points|);
    }
    groups := [];
    NoGroups(points, maxQty);
    var cur: Option<Group> := None;
    for k := 0 to |refs|
      invariant cur.None? <==> k == 0
      invariant k == 0 ==> groups == []
      invariant cur.Some? ==> Flat(groups + [cur.value]) == Indices(refs)[..k] && Grouped(points, groups + [cur.value], maxQty)
    {
      var i := refs[k].index;
      if StartsNew(cur, points[i], maxQty) {
        var g := Group(points[i].pdu, points[i].words, [i]);
        if cur.Some? {
          GroupedLast(points, groups, cur.value, maxQty);
          TestIsExact(cur.value, points[i], maxQty);
          OpenNext(points, groups, cur.value, g, maxQty);
          groups := groups + [cur.value];
        } else {
          FirstGroup(points, g, maxQty);
          assert groups + [g] == [g];
        }
        cur := Some(g);
      } else {
        GroupedLast(points, groups, cur.value, maxQty);
        TestIsExact(cur.value, points[i], maxQty);
        Extend(points, groups, cur.value, i, maxQty);
        cur := Some(cur.value.(qty := SatSub(SatAdd(points[i].pdu, points[i].words), cur.value.start),
                               members := cur.value.members + [i]));
      }
      assert Indices(refs)[..k + 1] == Indices(refs)[..k] + [refs[k].index];
    }
    if cur.Some? { groups := groups + [cur.value]; }
    assert Indices(refs)[..|refs|] == Indices(refs);
  }

  lemma FlatMore(groups: seq<Group>, g: Group)
    ensures Flat(groups + [g]) == Flat(groups) + g.members
  {
    assert (groups + [g])[..|groups|] == groups;
  }

  lemma NoGroups(points: seq<Point>, maxQty: nat) ensures Flat([]) == [] && Grouped(points, [], maxQty) {}

  lemma FirstGroup(points: seq<Point>, g: Group, maxQty: nat)
    requires Tiled(points, g) && 1 <= g.qty <= maxQty && g.start < 9999
    ensures Grouped(points, [g], maxQty) && Flat([g]) == g.members
  {
    FlatMore([], g);
    assert [] + [g] == [g];
  }

  /** The last group of a grouping. */
  lemma GroupedLast(points: seq<Point>, groups: seq<Group>, g: Group, maxQty: nat)
    ensures Grouped(points, groups + [g], maxQty) <==>
              && Grouped(points, groups, maxQty) && Good(points, g, maxQty)
              && (groups != [] ==> !Joins(groups[|groups| - 1], points[g.members[0]], maxQty))
  {
    if Grouped(points, groups + [g], maxQty) {
      LastFacts(points, groups, g, maxQty);
    }
    if Grouped(points, groups, maxQty) && Good(points, g, maxQty)
       && (groups != [] ==> !Joins(groups[|groups| - 1], points[g.members[0]], maxQty)) {
      LastAdded(points, groups, g, maxQty);
    }
  }

  lemma LastAdded(points: seq<Point>, groups: seq<Group>, g: Group, maxQty: nat)
    requires Grouped(points, groups, maxQty) && Good(points, g, maxQty)
    requires groups != [] ==> !Joins(groups[|groups| - 1], points[g.members[0]], maxQty)
    ensures Grouped(points, groups + [g], maxQty)
  {
    hide Joins;
    var all := groups + [g];
    assert all[|groups|] == g;
    assert forall k :: 0 <= k < |groups| ==> all[k] == groups[k];
    forall k | 0 <= k < |all| - 1 ensures !Joins(all[k], points[all[k + 1].members[0]], maxQty) {
      if k < |groups| - 1 { assert all[k + 1] == groups[k + 1]; }
    }
  }

  lemma LastFacts(points: seq<Point>, groups: seq<Group>, g: Group, maxQty: nat)
    requires Grouped(points, groups + [g], maxQty)
    ensures Grouped(points, groups, maxQty) && Good(points, g, maxQty)
    ensures groups != [] ==> !Joins(groups[|groups| - 1], points[g.members[0]], maxQty)
  {
    hide Joins;
    var all := groups + [g];
    assert all[|groups|] == g;
    assert forall k :: 0 <= k < |groups| ==> all[k] == groups[k];
    if groups != [] { assert !Joins(all[|groups| - 1], points[all[|groups|].members[0]], maxQty); }
  }

  lemma OpenNext(points: seq<Point>, groups: seq<Group>, g: Group, next: Group, maxQty: nat)
    requires Grouped(points, groups + [g], maxQty) && Good(points, next, maxQty)
    requires !Joins(g, points[next.members[0]], maxQty)
    ensures Grouped(points, groups + [g] + [next], maxQty)
    ensures Flat(groups + [g] + [next]) == Flat(groups + [g]) + next.members
  {
    hide Tiled, Joins, Grouped;
    FlatMore(groups + [g], next);
    GroupedLast(points, groups + [g], next, maxQty);
  }

  function Extended(points: seq<Point>, g: Group, i: nat): Group
    requires i < |points| && End(points[i]) >= g.start
  {
    g.(qty := End(points[i]) - g.start, members := g.members + [i])
  }

  lemma ExtendTiled(points: seq<Point>, g: Group, i: nat, maxQty: nat)
    requires Tiled(points, g) && i < |points| && points[i].words >= 1 && Joins(g, points[i], maxQty)
    ensures Tiled(points, Extended(points, g, i)) && 1 <= Extended(points, g, i).qty <= maxQty
  {
    var h := Extended(points, g, i);
    var n := |g.members|;
    forall k | 0 <= k < |h.members| - 1 ensures End(points[h.members[k]]) == points[h.members[k + 1]].pdu {
      if k < n - 1 { assert h.members[k + 1] == g.members[k + 1]; }
    }
  }

  lemma Extend(points: seq<Point>, groups: seq<Group>, g: Group, i: nat, maxQty: nat)
    requires Grouped(points, groups + [g], maxQty) && i < |points| && points[i].words >= 1 && Joins(g, points[i], maxQty)
    ensures var h := Extended(points, g, i);
            Grouped(points, groups + [h], maxQty) && Flat(groups + [h]) == Flat(groups + [g]) + [i]
  {
    hide Flat, Grouped, Tiled;
    GroupedLast(points, groups, g, maxQty);
    ExtendTiled(points, g, i, maxQty);
    var h := Extended(points, g, i);
    GroupedLast(points, groups, h, maxQty);
    FlatMore(groups, g);
    FlatMore(groups, h);
    SameFirst(points, g, h);
  }

  lemma SameFirst(points: seq<Point>, g: Group, h: Group)
    requires Tiled(points, g) && g.members <= h.members
    ensures g.members != [] && h.members[0] == g.members[0]
  {}

  /** The code's test, in 16-bit saturating arithmetic. */
  predicate StartsNew(cur: Option<Group>, p: Point, maxQty: nat): (b: bool)
    ensures cur.None? ==> b
  {
    if cur.None? then true
    else
      var end := SatAdd(cur.value.start, cur.value.qty);
      var span := SatSub(SatAdd(p.pdu, p.words), cur.value.start);
      !(p.pdu == end && span <= maxQty && span > 0)
  }

  /** Five-digit addresses never saturate it. */
  lemma TestIsExact(g: Group, p: Point, maxQty: nat)
    requires PointOk(p) && g.start < 9999 && 1 <= g.qty <= maxQty <= 2000
    ensures StartsNew(Some(g), p, maxQty) <==> !Joins(g, p, maxQty)
    ensures !StartsNew(Some(g), p, maxQty) ==> SatSub(SatAdd(p.pdu, p.words), g.start) == End(p) - g.start
  {}

  lemma {:induction false} WantedOnce(points: seq<Point>, want: Point -> bool, n: nat)
    requires n <= |points|
    ensures var w := Wanted(points, want, n);
            && (forall i, j :: 0 <= i < j < |w| ==> w[i] != w[j])
            && (forall i :: 0 <= i < n && want(points[i]) ==> Ref(i, points[i].pdu) in w)
  {
    if n > 0 { WantedOnce(points, want, n - 1); }
  }

  /** The order of access: each wanted point once, by rising address. */
  lemma InOrderExact(points: seq<Point>, want: Point -> bool)
    ensures var s := InOrder(points, want);
            && (forall k :: 0 <= k < |s| ==> s[k] < |points| && want(points[s[k]]))
            && (forall j, k :: 0 <= j < k < |s| ==> s[j] != s[k] && points[s[j]].pdu <= points[s[k]].pdu)
            && (forall i :: 0 <= i < |points| && want(points[i]) ==> i in s)
  {
    hide Sort, Wanted;
    var w := Wanted(points, want, |points|);
    var refs := Sort(ByAddress, w);
    WantedOnce(points, want, |points|);
    SortOrdered(ByAddress, w);
    forall k | 0 <= k < |refs|
      ensures refs[k].index < |points| && want(points[refs[k].index]) && refs[k].pdu == points[refs[k].index].pdu
    {
      assert refs[k] in multiset(refs);
      assert refs[k] in w;
    }
    forall j, k | 0 <= j < k < |refs| ensures refs[j].index != refs[k].index && refs[j].pdu <= refs[k].pdu {
      Once(w, refs, j, k);
      assert ByAddress(refs[j], refs[k]);
    }
    forall i | 0 <= i < |points| && want(points[i]) ensures i in InOrder(points, want) {
      assert Ref(i, points[i].pdu) in multiset(w);
      assert Ref(i, points[i].pdu) in refs;
      var k: nat :| k < |refs| && refs[k] == Ref(i, points[i].pdu);
      assert Indices(refs)[k] == i;
    }
  }

  // ----- the device and what is written to it -----

  function WriteAt<T>(image: seq<T>, off: nat, vals: seq<T>): (r: seq<T>)
    requires off + |vals| <= |image|
    ensures |r| == |image|
  {
    image[..off] + vals + image[off + |vals|..]
  }

  /** A word list for every point, as long as the point is. */
  ghost predicate WordsOk<T>(points: seq<Point>, words: seq<seq<T>>)
  {
    |words| == |points| && forall i :: 0 <= i < |points| ==> |words[i]| == points[i].words
  }

  ghost predicate Inside(points: seq<Point>, idxs: seq<nat>, size: nat)
  {
    forall k :: 0 <= k < |idxs| ==> idxs[k] < |points| && End(points[idxs[k]]) <= size
  }

  /** Every point written alone, one after the other. */
  function WriteEach<T>(image: seq<T>, points: seq<Point>, words: seq<seq<T>>, idxs: seq<nat>): (r: seq<T>)
    requires WordsOk(points, words) && Inside(points, idxs, |image|)
    ensures |r| == |image|
  {
    if idxs == [] then image
    else
      var n := |idxs| - 1;
      WriteAt(WriteEach(image, points, words, idxs[..n]), points[idxs[n]].pdu, words[idxs[n]])
  }

  /** The words of a group's members, one after the other. */
  function Block<T>(points: seq<Point>, words: seq<seq<T>>, members: seq<nat>): seq<T>
    requires WordsOk(points, words) && forall k :: 0 <= k < |members| ==> members[k] < |points|
  {
    if members == [] then []
    else Block(points, words, members[..|members| - 1]) + words[members[|members| - 1]]
  }

  ghost predicate Contiguous(points: seq<Point>, start: nat, members: seq<nat>)
  {
    && (forall k :: 0 <= k < |members| ==> members[k] < |points|)
    && (members != [] ==> points[members[0]].pdu == start)
    && (forall i :: 0 <= i < |members| - 1 ==> End(points[members[i]]) == points[members[i + 1]].pdu)
  }

  lemma {:induction false} BlockPlace<T>(points: seq<Point>, words: seq<seq<T>>, start: nat, members: seq<nat>)
    requires WordsOk(points, words) && Contiguous(points, start, members) && members != []
    ensures start + |Block(points, words, members)| == End(points[members[|members| - 1]])
  {
    var n := |members| - 1;
    if n > 0 { BlockPlace(points, words, start, members[..n]); }
  }

  /** One grouped write is the single writes of its members. */
  lemma {:induction false} GroupIsEach<T>(image: seq<T>, points: seq<Point>, words: seq<seq<T>>, start: nat, members: seq<nat>)
    requires WordsOk(points, words) && Contiguous(points, start, members) && Inside(points, members, |image|) && start <= |image|
    ensures start + |Block(points, words, members)| <= |image|
    ensures WriteAt(image, start, Block(points, words, members)) == WriteEach(image, points, words, members)
  {
    hide WriteAt, WordsOk;
    if members == [] {
      NoWrite(image, start);
    } else {
      var n := |members| - 1;
      GroupIsEach(image, points, words, start, members[..n]);
      NextPlace(points, words, start, members);
      WriteTwice(image, start, Block(points, words, members[..n]), words[members[n]]);
    }
  }

  lemma NoWrite<T>(image: seq<T>, start: nat)
    requires start <= |image|
    ensures WriteAt(image, start, []) == image
  {}

  /** The last member starts where the words before it end. */
  lemma NextPlace<T>(points: seq<Point>, words: seq<seq<T>>, start: nat, members: seq<nat>)
    requires WordsOk(points, words) && Contiguous(points, start, members) && members != []
    ensures var n := |members| - 1;
            members[n] < |points| == |words| && points[members[n]].words == |words[members[n]]|
            && start + |Block(points, words, members[..n])| == points[members[n]].pdu
  {
    var n := |members| - 1;
    if n > 0 {
      BlockPlace(points, words, start, members[..n]);
      assert End(points[members[n - 1]]) == points[members[n]].pdu;
    }
  }

  lemma WriteTwice<T>(image: seq<T>, off: nat, a: seq<T>, b: seq<T>)
    requires off + |a| + |b| <= |image|
    ensures WriteAt(image, off, a + b) == WriteAt(WriteAt(image, off, a), off + |a|, b)
  {
    var once, twice := WriteAt(image, off, a + b), WriteAt(WriteAt(image, off, a), off + |a|, b);
    forall k | 0 <= k < |image| ensures once[k] == twice[k] {}
  }

  lemma InsideBoth(points: seq<Point>, a: seq<nat>, b: seq<nat>, size: nat)
    requires Inside(points, a, size) && Inside(points, b, size)
    ensures Inside(points, a + b, size)
  {}

  lemma {:induction false} EachConcat<T>(image: seq<T>, points: seq<Point>, words: seq<seq<T>>, a: seq<nat>, b: seq<nat>)
    requires WordsOk(points, words) && Inside(points, a, |image|) && Inside(points, b, |image|)
    ensures Inside(points, a + b, |image|)
    ensures WriteEach(image, points, words, a + b) == WriteEach(WriteEach(image, points, words, a), points, words, b)
  {
    hide WriteAt, WordsOk;
    InsideBoth(points, a, b, |image|);
    if b == [] {
      assert a + b == a;
    } else {
      var n := |b| - 1;
      EachConcat(image, points, words, a, b[..n]);
      assert (a + b)[..|a| + n] == a + b[..n];
      assert (a + b)[|a| + n] == b[n];
    }
  }

  ghost predicate Covers(p: Point, at: int) { p.pdu <= at < End(p) }

  lemma WrittenByte<T>(image: seq<T>, off: nat, vals: seq<T>)
    requires off + |vals| <= |image|
    ensures forall at :: 0 <= at < |image| ==> WriteAt(image, off, vals)[at] == if off <= at < off + |vals| then vals[at - off] else image[at]
  {}

  /** With disjoint ranges the outcome does not depend on the order: every written point
      holds its words and everything else is as before. */
  lemma {:induction false} EachExact<T>(image: seq<T>, points: seq<Point>, words: seq<seq<T>>, idxs: seq<nat>)
    requires WordsOk(points, words) && Inside(points, idxs, |image|)
    requires forall j, k :: 0 <= j < k < |idxs| ==> End(points[idxs[j]]) <= points[idxs[k]].pdu || End(points[idxs[k]]) <= points[idxs[j]].pdu
    ensures var r := WriteEach(image, points, words, idxs);
            && (forall k, d :: 0 <= k < |idxs| && 0 <= d < points[idxs[k]].words ==> r[points[idxs[k]].pdu + d] == words[idxs[k]][d])
            && (forall at :: 0 <= at < |image| && (forall k :: 0 <= k < |idxs| ==> !Covers(points[idxs[k]], at)) ==> r[at] == image[at])
  {
    hide WriteAt;
    if idxs != [] {
      var n := |idxs| - 1;
      EachExact(image, points, words, idxs[..n]);
      var before, r := WriteEach(image, points, words, idxs[..n]), WriteEach(image, points, words, idxs);
      var p := points[idxs[n]];
      WrittenByte(before, p.pdu, words[idxs[n]]);
      forall k, d | 0 <= k < |idxs| && 0 <= d < points[idxs[k]].words ensures r[points[idxs[k]].pdu + d] == words[idxs[k]][d] {
        if k < n { assert idxs[..n][k] == idxs[k]; }
      }
      forall at | 0 <= at < |image| && (forall k :: 0 <= k < |idxs| ==> !Covers(points[idxs[k]], at)) ensures r[at] == image[at] {
        assert !Covers(p, at);
        forall k | 0 <= k < n ensures !Covers(points[idxs[..n][k]], at) { assert idxs[..n][k] == idxs[k]; }
      }
    }
  }

  // ----- grouped access as the driver does it -----

  /** The words of a register group, filled into a zeroed block at each member's offset. */
  method RegisterBlock(points: seq<Point>, words: seq<seq<nat>>, g: Group) returns (regs: seq<nat>)
    requires WordsOk(points, words) && Tiled(points, g) && forall i :: 0 <= i < |points| ==> points[i].words >= 1
    ensures regs == Block(points, words, g.members)
  {
    hide Tiled;
    TiledIndices(points, g);
    regs := seq(g.qty, i => 0);
    ghost var all := Block(points, words, g.members);
    TiledSize(points, words, g, |g.members|);
    assert g.members[..|g.members|] == g.members;
    for k := 0 to |g.members|
      invariant |regs| == g.qty
      invariant |Block(points, words, g.members[..k])| <= g.qty
      invariant regs[..|Block(points, words, g.members[..k])|] == Block(points, words, g.members[..k])
    {
      var p := points[g.members[k]];
      TiledOffset(points, words, g, k);
      var off := SatSub(p.pdu, g.start);
      ghost var front := Block(points, words, g.members[..k]);
      assert g.members[..k + 1][..k] == g.members[..k];
      var w := words[g.members[k]];
      assert front + w[..0] == front;
      for i := 0 to |w|
        invariant |regs| == g.qty && regs[..off + i] == front + w[..i]
      {
        PrefixSet(regs, off + i, w[i]);
        assert front + w[..i] + [w[i]] == front + w[..i + 1];
        if off + i < |regs| { regs := regs[off + i := w[i]]; }
      }
      assert front + w[..|w|] == front + w;
    }
    assert regs == regs[..g.qty];
  }

  lemma PrefixSet<T>(s: seq<T>, k: nat, x: T)
    requires k < |s|
    ensures s[k := x][..k + 1] == s[..k] + [x]
  {}

  lemma TiledSize<T>(points: seq<Point>, words: seq<seq<T>>, g: Group, n: nat)
    requires WordsOk(points, words) && Tiled(points, g) && n == |g.members|
    ensures |Block(points, words, g.members)| == g.qty
  {
    BlockPlace(points, words, g.start, g.members);
  }

  /** Each member's offset is where the blocks before it end, and it fits. */
  lemma TiledOffset<T>(points: seq<Point>, words: seq<seq<T>>, g: Group, k: nat)
    requires WordsOk(points, words) && Tiled(points, g) && k < |g.members|
    ensures var p := points[g.members[k]];
            && p.pdu >= g.start && p.pdu - g.start == |Block(points, words, g.members[..k])|
            && p.pdu - g.start + p.words <= g.qty
  {
    assert g.members[..k + 1][..k] == g.members[..k];
    BlockPlace(points, words, g.start, g.members[..k + 1]);
    BlockPrefix(points, words, g.members, k + 1);
    TiledSize(points, words, g, |g.members|);
  }

  lemma {:induction false} BlockPrefix<T>(points: seq<Point>, words: seq<seq<T>>, members: seq<nat>, k: nat)
    requires WordsOk(points, words) && k <= |members| && forall i :: 0 <= i < |members| ==> members[i] < |points|
    ensures |Block(points, words, members[..k])| <= |Block(points, words, members)|
    decreases |members|
  {
    if k < |members| {
      var n := |members| - 1;
      assert members[..n][..k] == members[..k];
      BlockPrefix(points, words, members[..n], k);
    } else {
      assert members[..k] == members;
    }
  }

  /** All register groups written: the image every single write, in address order, leaves. */
  method WriteRegisters(image: seq<nat>, points: seq<Point>, groups: seq<Group>, words: seq<seq<nat>>, maxQty: nat)
      returns (after: seq<nat>)
    requires PointsOk(points) && WordsOk(points, words) && Grouped(points, groups, maxQty) && Inside(points, Flat(groups), |image|)
    ensures after == WriteEach(image, points, words, Flat(groups))
  {
    hide Tiled, WriteAt, WordsOk, Inside, Block, WriteEach;
    after := image;
    assert groups[..0] == [];
    NoWrites(image, points, words);
    for k := 0 to |groups|
      invariant |after| == |image|
      invariant Inside(points, Flat(groups[..k]), |image|) && after == WriteEach(image, points, words, Flat(groups[..k]))
    {
      var g := groups[k];
      assert Good(points, g, maxQty);
      GroupInside(points, groups, k, |image|);
      var regs := RegisterBlock(points, words, g);
      GroupWrites(after, points, words, g);
      EachConcat(image, points, words, Flat(groups[..k]), g.members);
      after := WriteAt(after, g.start, regs);
    }
    assert groups[..|groups|] == groups;
  }

  lemma NoWrites<T>(image: seq<T>, points: seq<Point>, words: seq<seq<T>>)
    requires WordsOk(points, words)
    ensures Inside(points, Flat([]), |image|) && WriteEach(image, points, words, Flat([])) == image
  {}

  lemma GroupWrites<T>(image: seq<T>, points: seq<Point>, words: seq<seq<T>>, g: Group)
    requires WordsOk(points, words) && Tiled(points, g) && Inside(points, g.members, |image|)
    ensures g.start + |Block(points, words, g.members)| <= |image|
    ensures WriteAt(image, g.start, Block(points, words, g.members)) == WriteEach(image, points, words, g.members)
  {
    assert End(points[g.members[0]]) <= |image|;
    GroupIsEach(image, points, words, g.start, g.members);
  }

  lemma {:induction false} FlatPrefix(groups: seq<Group>, k: nat)
    requires k < |groups|
    ensures Flat(groups[..k + 1]) == Flat(groups[..k]) + groups[k].members && Flat(groups[..k + 1]) <= Flat(groups)
    decreases |groups|
  {
    assert groups[..k + 1][..k] == groups[..k];
    if k + 1 == |groups| {
      assert groups[..k + 1] == groups;
    } else {
      var n := |groups| - 1;
      assert groups[..n][..k + 1] == groups[..k + 1] && groups[..n][..k] == groups[..k] && groups[..n][k] == groups[k];
      FlatPrefix(groups[..n], k);
    }
  }

  lemma GroupInside(points: seq<Point>, groups: seq<Group>, k: nat, size: nat)
    requires k < |groups| && Inside(points, Flat(groups), size)
    ensures Flat(groups[..k + 1]) == Flat(groups[..k]) + groups[k].members
    ensures Inside(points, groups[k].members, size) && Inside(points, Flat(groups[..k + 1]), size)
  {
    hide Flat, Inside;
    FlatPrefix(groups, k);
    InsideFront(points, Flat(groups[..k + 1]), Flat(groups), size);
    InsideBack(points, Flat(groups[..k]), groups[k].members, size);
  }

  lemma InsideFront(points: seq<Point>, a: seq<nat>, all: seq<nat>, size: nat)
    requires a <= all && Inside(points, all, size)
    ensures Inside(points, a, size)
  {}

  lemma InsideBack(points: seq<Point>, a: seq<nat>, b: seq<nat>, size: nat)
    requires Inside(points, a + b, size)
    ensures Inside(points, b, size)
  {
    forall i | 0 <= i < |b| ensures b[i] == (a + b)[|a| + i] {}
  }

  /** Coils likewise. */
  method WriteCoils(image: seq<bool>, points: seq<Point>, groups: seq<Group>, words: seq<seq<bool>>, maxQty: nat)
      returns (after: seq<bool>)
    requires PointsOk(points) && WordsOk(points, words) && Grouped(points, groups, maxQty) && Inside(points, Flat(groups), |image|)
    requires forall k :: 0 <= k < |Flat(groups)| ==> points[Flat(groups)[k]].words == 1
    ensures after == WriteEach(image, points, words, Flat(groups))
  {
    hide WriteAt, WriteEach, Block;
    after := image;
    assert groups[..0] == [];
    NoWrites(image, points, words);
    for k := 0 to |groups|
      invariant |after| == |image|
      invariant Inside(points, Flat(groups[..k]), |image|) && after == WriteEach(image, points, words, Flat(groups[..k]))
    {
      var g := groups[k];
      assert Good(points, g, maxQty);
      GroupInside(points, groups, k, |image|);
      FlatPrefix(groups, k);
      OneBitEach(points, groups, k);
      var bits := CoilBits(points, words, g);
      GroupWrites(after, points, words, g);
      EachConcat(image, points, words, Flat(groups[..k]), g.members);
      after := WriteAt(after, g.start, bits);
    }
    assert groups[..|groups|] == groups;
  }

  /** One bit per member, pushed in order. */
  method CoilBits(points: seq<Point>, words: seq<seq<bool>>, g: Group) returns (bits: seq<bool>)
    requires WordsOk(points, words) && Tiled(points, g) && forall i :: 0 <= i < |g.members| ==> points[g.members[i]].words == 1
    ensures bits == Block(points, words, g.members)
  {
    bits := [];
    for i := 0 to |g.members|
      invariant bits == Block(points, words, g.members[..i])
    {
      assert g.members[..i + 1][..i] == g.members[..i];
      assert words[g.members[i]] == [words[g.members[i]][0]];
      bits := bits + [words[g.members[i]][0]];
    }
    assert g.members[..|g.members|] == g.members;
  }

  lemma OneBitEach(points: seq<Point>, groups: seq<Group>, k: nat)
    requires k < |groups| && (forall i :: 0 <= i < |Flat(groups)| ==> Flat(groups)[i] < |points|)
    requires forall i :: 0 <= i < |Flat(groups)| ==> points[Flat(groups)[i]].words == 1
    ensures forall i :: 0 <= i < |groups[k].members| ==> groups[k].members[i] < |points| && points[groups[k].members[i]].words == 1
  {
    FlatPrefix(groups, k);
    var front := Flat(groups[..k]);
    forall i | 0 <= i < |groups[k].members| ensures groups[k].members[i] == Flat(groups)[|front| + i] {
      assert Flat(groups[..k + 1])[|front| + i] == groups[k].members[i];
    }
  }

  /** Every wanted point's words are in place, and nothing else has changed. */
  ghost predicate Placed<T>(image: seq<T>, after: seq<T>, points: seq<Point>, words: seq<seq<T>>, want: Point -> bool)
    requires WordsOk(points, words) && |after| == |image|
  {
    && (forall i, d :: 0 <= i < |points| && want(points[i]) && 0 <= d < points[i].words ==>
          points[i].pdu + d < |after| && after[points[i].pdu + d] == words[i][d])
    && (forall at :: 0 <= at < |image| && (forall i :: 0 <= i < |points| && want(points[i]) ==> !Covers(points[i], at)) ==>
          after[at] == image[at])
  }

  /** Wanted points of one table lie inside the image and clear of each other. */
  lemma WantedApart(points: seq<Point>, want: Point -> bool, table: Table, size: nat)
    requires PointsOk(points) && Disjoint(points) && size >= 10001 && forall p :: want(p) ==> p.table == table
    ensures var idxs := InOrder(points, want);
            && Inside(points, idxs, size)
            && forall j, k :: 0 <= j < k < |idxs| ==> End(points[idxs[j]]) <= points[idxs[k]].pdu || End(points[idxs[k]]) <= points[idxs[j]].pdu
  {
    hide InOrder;
    InOrderExact(points, want);
    var idxs := InOrder(points, want);
    forall k | 0 <= k < |idxs| ensures End(points[idxs[k]]) <= size { assert PointOk(points[idxs[k]]); }
    hide PointsOk;
    forall j, k | 0 <= j < k < |idxs|
      ensures End(points[idxs[j]]) <= points[idxs[k]].pdu || End(points[idxs[k]]) <= points[idxs[j]].pdu
    {
      if idxs[j] < idxs[k] {
        assert Clear(points[idxs[j]], points[idxs[k]]);
      } else {
        assert Clear(points[idxs[k]], points[idxs[j]]);
      }
    }
  }

  /** What grouped writes leave, for planned points that passed the overlap check: the same
      as writing each point alone, in whatever order. */
  lemma GroupedWriteExact<T>(image: seq<T>, points: seq<Point>, words: seq<seq<T>>, want: Point -> bool, table: Table)
    requires PointsOk(points) && Disjoint(points) && WordsOk(points, words) && |image| >= 10001
    requires forall p :: want(p) ==> p.table == table
    ensures Inside(points, InOrder(points, want), |image|)
    ensures Placed(image, WriteEach(image, points, words, InOrder(points, want)), points, words, want)
  {
    WantedApart(points, want, table, |image|);
    InOrderExact(points, want);
    hide InOrder, WriteEach, PointsOk, Disjoint, Inside, WordsOk;
    var idxs := InOrder(points, want);
    EachExact(image, points, words, idxs);
    ChosenPlaced(image, WriteEach(image, points, words, idxs), points, words, want, idxs);
  }

  lemma ChosenPlaced<T>(image: seq<T>, r: seq<T>, points: seq<Point>, words: seq<seq<T>>, want: Point -> bool, idxs: seq<nat>)
    requires WordsOk(points, words) && |r| == |image| && Inside(points, idxs, |image|)
    requires forall k :: 0 <= k < |idxs| ==> want(points[idxs[k]])
    requires forall i :: 0 <= i < |points| && want(points[i]) ==> i in idxs
    requires forall k, d :: 0 <= k < |idxs| && 0 <= d < points[idxs[k]].words ==> r[points[idxs[k]].pdu + d] == words[idxs[k]][d]
    requires forall at :: 0 <= at < |image| && (forall k :: 0 <= k < |idxs| ==> !Covers(points[idxs[k]], at)) ==> r[at] == image[at]
    ensures Placed(image, r, points, words, want)
  {
    hide Covers;
    forall i, d | 0 <= i < |points| && want(points[i]) && 0 <= d < points[i].words
      ensures points[i].pdu + d < |r| && r[points[i].pdu + d] == words[i][d]
    {
      var k: nat :| k < |idxs| && idxs[k] == i;
      assert End(points[idxs[k]]) <= |image|;
    }
  }

  /** Validation, grouping and grouped register writes together: points whose ranges clash are
      refused; otherwise every point's registers hold its words and no other register changed. */
  method WriteHolding(image: seq<nat>, points: seq<Point>, words: seq<seq<nat>>, want: Point -> bool, maxQty: nat)
      returns (after: Option<seq<nat>>)
    requires PointsOk(points) && WordsOk(points, words) && |image| >= 10001 && 2 <= maxQty <= 2000
    requires forall p :: want(p) ==> p.table == Holding
    ensures after.Some? <==> Disjoint(points)
    ensures after.Some? ==> |after.value| == |image| && Placed(image, after.value, points, words, want)
  {
    hide Disjoint, WordsOk, Inside, WriteEach, InOrder, Flat, Grouped, Placed;
    var ok := CheckOverlaps(points);
    if !ok { return None; }
    var groups := BuildGroups(points, want, maxQty);
    GroupedWriteExact(image, points, words, want, Holding);
    var r := WriteRegisters(image, points, groups, words, maxQty);
    after := Some(r);
  }

  /** The same for coils. */
  method WriteCoilTable(image: seq<bool>, points: seq<Point>, words: seq<seq<bool>>, want: Point -> bool, maxQty: nat)
      returns (after: Option<seq<bool>>)
    requires PointsOk(points) && WordsOk(points, words) && |image| >= 10001 && 2 <= maxQty <= 2000
    requires forall p :: want(p) ==> p.table == Coil
    ensures after.Some? <==> Disjoint(points)
    ensures after.Some? ==> |after.value| == |image| && Placed(image, after.value, points, words, want)
  {
    hide Disjoint, WordsOk, Inside, WriteEach, Flat, Grouped, Placed;
    var ok := CheckOverlaps(points);
    if !ok { return None; }
    var groups := BuildGroups(points, want, maxQty);
    GroupedWriteExact(image, points, words, want, Coil);
    OneBitPoints(points, want);
    var r := WriteCoils(image, points, groups, words, maxQty);
    after := Some(r);
  }

  lemma OneBitPoints(points: seq<Point>, want: Point -> bool)
    requires PointsOk(points) && forall p :: want(p) ==> p.table == Coil
    ensures var idxs := InOrder(points, want); forall k :: 0 <= k < |idxs| ==> idxs[k] < |points| && points[idxs[k]].words == 1
  {
    hide InOrder;
    InOrderExact(points, want);
  }

  // ----- single bits of holding registers -----

  function BitOf(b: nat, k: nat): bool { if k == 0 then b % 2 == 1 else BitOf(b / 2, k - 1) }

  /** The register with one bit set or cleared. */
  function SetBit(reg: nat, bit: nat, on: bool): nat
  {
    if bit == 0 then reg / 2 * 2 + (if on then 1 else 0) else reg % 2 + 2 * SetBit(reg / 2, bit - 1, on)
  }

  /** That bit and no other. */
  lemma {:induction false} SetBitOnly(reg: nat, bit: nat, on: bool, k: nat)
    ensures BitOf(SetBit(reg, bit, on), k) == if k == bit then on else BitOf(reg, k)
    decreases bit
  {
    if bit == 0 {
      if k > 0 { assert SetBit(reg, 0, on) / 2 == reg / 2; }
    } else {
      var rest := SetBit(reg / 2, bit - 1, on);
      assert SetBit(reg, bit, on) % 2 == reg % 2 && SetBit(reg, bit, on) / 2 == rest;
      if k > 0 { SetBitOnly(reg / 2, bit - 1, on, k - 1); }
    }
  }

  datatype BitOut = BitOut(pdu: nat, bit: nat, on: bool)

  ghost predicate OneRegisterEach(outs: seq<BitOut>)
  {
    forall j, k :: 0 <= j < k < |outs| ==> outs[j].pdu != outs[k].pdu
  }

  /** Each point's register is read, its bit changed, and the register written back. What the
      overlap check leaves, one point a register, ends with every point's bit as wanted,
      every other bit and every other register as it was. */
  method WriteBits(image: seq<nat>, outs: seq<BitOut>) returns (after: seq<nat>)
    requires OneRegisterEach(outs) && forall k :: 0 <= k < |outs| ==> outs[k].pdu < |image|
    ensures |after| == |image|
    ensures forall k, b: nat :: 0 <= k < |outs| ==>
              BitOf(after[outs[k].pdu], b) == if b == outs[k].bit then outs[k].on else BitOf(image[outs[k].pdu], b)
    ensures forall at :: 0 <= at < |image| && (forall k :: 0 <= k < |outs| ==> outs[k].pdu != at) ==> after[at] == image[at]
  {
    hide BitOf, SetBit;
    after := image;
    for i := 0 to |outs|
      invariant |after| == |image|
      invariant forall k :: 0 <= k < i ==> after[outs[k].pdu] == SetBit(image[outs[k].pdu], outs[k].bit, outs[k].on)
      invariant forall at :: 0 <= at < |image| && (forall k :: 0 <= k < i ==> outs[k].pdu != at) ==> after[at] == image[at]
    {
      var p := outs[i];
      after := after[p.pdu := SetBit(after[p.pdu], p.bit, p.on)];
    }
    forall k, b: nat | 0 <= k < |outs|
      ensures BitOf(after[outs[k].pdu], b) == if b == outs[k].bit then outs[k].on else BitOf(image[outs[k].pdu], b)
    {
      SetBitOnly(image[outs[k].pdu], outs[k].bit, outs[k].on, b);
    }
  }

  // ----- grouped reads -----

  /** Bits packed eight to a byte, first bit lowest, as a bit read returns them (sections 6.1
      and 6.2 of the MODBUS Application Protocol V1.1b3). */
  function PackByte(bits: seq<bool>): (b: nat)
    requires |bits| <= 8
  {
    if bits == [] then 0 else (if bits[0] then 1 else 0) + 2 * PackByte(bits[1..])
  }

  function Pack(bits: seq<bool>): seq<nat>
  {
    if |bits| <= 8 then (if bits == [] then [] else [PackByte(bits)]) else [PackByte(bits[..8])] + Pack(bits[8..])
  }

  function BitAt(data: seq<nat>, rel: nat): bool { rel / 8 < |data| && BitOf(data[rel / 8], rel % 8) }

  lemma {:induction false} PackedBit(bits: seq<bool>, k: nat)
    requires k < |bits| <= 8
    ensures BitOf(PackByte(bits), k) == bits[k]
  {
    if k > 0 { PackedBit(bits[1..], k - 1); }
  }

  lemma {:induction false} PackedAt(bits: seq<bool>, k: nat)
    requires k < |bits|
    ensures BitAt(Pack(bits), k) == bits[k]
  {
    if |bits| <= 8 {
      PackedBit(bits, k);
    } else if k < 8 {
      PackedBit(bits[..8], k);
    } else {
      PackedAt(bits[8..], k - 8);
      assert k / 8 == (k - 8) / 8 + 1 && k % 8 == (k - 8) % 8;
    }
  }

  lemma MemberOffset(points: seq<Point>, g: Group, k: nat)
    requires Tiled(points, g) && k < |g.members|
    ensures g.start <= points[g.members[k]].pdu && End(points[g.members[k]]) <= g.start + g.qty
  {
    var words := seq(|points|, i requires 0 <= i < |points| => seq(points[i].words, d => 0));
    TiledOffset(points, words, g, k);
  }

  /** Every point read has exactly its own registers. */
  ghost predicate ReadsOwn(image: seq<nat>, points: seq<Point>, read: map<nat, seq<nat>>)
  {
    forall i :: i in read ==> i < |points| && End(points[i]) <= |image| && read[i] == image[points[i].pdu..End(points[i])]
  }

  /** Register groups read and stored. */
  method ReadRegisters(image: seq<nat>, points: seq<Point>, groups: seq<Group>, maxQty: nat) returns (read: map<nat, seq<nat>>)
    requires PointsOk(points) && Grouped(points, groups, maxQty) && Inside(points, Flat(groups), |image|)
    ensures (forall i :: i in read <==> i in Flat(groups)) && ReadsOwn(image, points, read)
  {
    hide Tiled, ReadsOwn, Inside;
    read := map[];
    assert groups[..0] == [];
    NothingRead(image, points);
    for k := 0 to |groups|
      invariant (forall i :: i in read <==> i in Flat(groups[..k])) && ReadsOwn(image, points, read)
    {
      var g := groups[k];
      assert Good(points, g, maxQty);
      GroupInside(points, groups, k, |image|);
      GroupEnds(points, g, |image|);
      read := StoreRegisters(image, points, g, image[g.start..g.start + g.qty], read);
    }
    assert groups[..|groups|] == groups;
  }

  lemma NothingRead(image: seq<nat>, points: seq<Point>) ensures ReadsOwn(image, points, map[]) {}

  lemma GroupEnds(points: seq<Point>, g: Group, size: nat)
    requires Tiled(points, g) && Inside(points, g.members, size)
    ensures g.start + g.qty <= size
  {}

  method StoreRegisters(ghost image: seq<nat>, points: seq<Point>, g: Group, data: seq<nat>, was: map<nat, seq<nat>>)
      returns (read: map<nat, seq<nat>>)
    requires Tiled(points, g) && g.start + g.qty <= |image| && data == image[g.start..g.start + g.qty] && ReadsOwn(image, points, was)
    ensures (forall i :: i in read <==> i in was || i in g.members) && ReadsOwn(image, points, read)
  {
    hide Tiled, ReadsOwn, SatSub;
    TiledIndices(points, g);
    read := was;
    for m := 0 to |g.members|
      invariant forall i :: i in read <==> i in was || i in g.members[..m]
      invariant ReadsOwn(image, points, read)
    {
      var p := points[g.members[m]];
      MemberData(image, points, g, m);
      var rel := SatSub(p.pdu, g.start);
      var w := data[rel..rel + p.words];
      OneRead(image, points, read, g.members[m], w);
      read := read[g.members[m] := w];
      assert g.members[..m + 1] == g.members[..m] + [g.members[m]];
    }
    assert g.members[..|g.members|] == g.members;
  }

  lemma TiledIndices(points: seq<Point>, g: Group)
    requires Tiled(points, g)
    ensures forall i :: 0 <= i < |g.members| ==> g.members[i] < |points|
  {}

  lemma OneRead(image: seq<nat>, points: seq<Point>, read: map<nat, seq<nat>>, i: nat, w: seq<nat>)
    requires ReadsOwn(image, points, read) && i < |points| && End(points[i]) <= |image| && w == image[points[i].pdu..End(points[i])]
    ensures ReadsOwn(image, points, read[i := w])
  {}

  /** A member's registers within the group's data. */
  lemma MemberData(image: seq<nat>, points: seq<Point>, g: Group, m: nat)
    requires Tiled(points, g) && g.start + g.qty <= |image| && m < |g.members|
    ensures var p, rel := points[g.members[m]], SatSub(points[g.members[m]].pdu, g.start);
            && rel + p.words <= g.qty && End(p) <= |image|
            && image[g.start..g.start + g.qty][rel..rel + p.words] == image[p.pdu..End(p)]
  {
    MemberOffset(points, g, m);
    var p := points[g.members[m]];
    SubSlice(image, g.start, g.start + g.qty, p.pdu - g.start, p.pdu - g.start + p.words);
  }

  ghost predicate ReadsOwnBit(image: seq<bool>, points: seq<Point>, read: map<nat, bool>)
  {
    forall i :: i in read ==> i < |points| && points[i].pdu < |image| && read[i] == image[points[i].pdu]
  }

  /** Bit groups likewise, through the packed bytes. */
  method ReadBits(image: seq<bool>, points: seq<Point>, groups: seq<Group>, maxQty: nat) returns (read: map<nat, bool>)
    requires PointsOk(points) && Grouped(points, groups, maxQty) && Inside(points, Flat(groups), |image|)
    ensures (forall i :: i in read <==> i in Flat(groups)) && ReadsOwnBit(image, points, read)
  {
    hide Tiled, Inside, Pack;
    read := map[];
    assert groups[..0] == [];
    for k := 0 to |groups|
      invariant (forall i :: i in read <==> i in Flat(groups[..k])) && ReadsOwnBit(image, points, read)
    {
      var g := groups[k];
      assert Good(points, g, maxQty);
      GroupInside(points, groups, k, |image|);
      GroupEnds(points, g, |image|);
      read := StoreBits(image, points, g, Pack(image[g.start..g.start + g.qty]), read);
    }
    assert groups[..|groups|] == groups;
  }

  method StoreBits(ghost image: seq<bool>, points: seq<Point>, g: Group, data: seq<nat>, was: map<nat, bool>)
      returns (read: map<nat, bool>)
    requires PointsOk(points) && Tiled(points, g) && g.start + g.qty <= |image| && data == Pack(image[g.start..g.start + g.qty])
    requires ReadsOwnBit(image, points, was)
    ensures (forall i :: i in read <==> i in was || i in g.members) && ReadsOwnBit(image, points, read)
  {
    hide Pack, BitAt, Tiled, SatSub, ReadsOwnBit;
    TiledIndices(points, g);
    read := was;
    for m := 0 to |g.members|
      invariant forall i :: i in read <==> i in was || i in g.members[..m]
      invariant ReadsOwnBit(image, points, read)
    {
      var rel := SatSub(points[g.members[m]].pdu, g.start);
      MemberBit(image, points, g, m);
      OneBitRead(image, points, read, g.members[m]);
      read := read[g.members[m] := BitAt(data, rel)];
      assert g.members[..m + 1] == g.members[..m] + [g.members[m]];
    }
    assert g.members[..|g.members|] == g.members;
  }

  lemma OneBitRead(image: seq<bool>, points: seq<Point>, read: map<nat, bool>, i: nat)
    requires ReadsOwnBit(image, points, read) && i < |points| && points[i].pdu < |image|
    ensures ReadsOwnBit(image, points, read[i := image[points[i].pdu]])
  {}

  lemma MemberBit(image: seq<bool>, points: seq<Point>, g: Group, m: nat)
    requires PointsOk(points) && Tiled(points, g) && g.start + g.qty <= |image| && m < |g.members|
    ensures var p := points[g.members[m]];
            p.pdu < |image| && BitAt(Pack(image[g.start..g.start + g.qty]), SatSub(p.pdu, g.start)) == image[p.pdu]
  {
    hide Pack, BitAt;
    MemberOffset(points, g, m);
    var p := points[g.members[m]];
    assert PointOk(p);
    PackedAt(image[g.start..g.start + g.qty], p.pdu - g.start);
  }
}
