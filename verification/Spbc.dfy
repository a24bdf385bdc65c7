/** Module framing: a fixed header, the entry table, constants and code
    (crates/plc-ir/src/spbc.rs). Names are byte strings with UTF-8 validity as a parameter. */
module Spbc {
  import opened Bytes
  import opened Ir

  type Utf8 = seq<byte> -> bool

  datatype Entry = Entry(name: seq<byte>, pc: nat, isUserFb: bool)

  datatype Module = Module(
    major: nat, minor: nat, constSize: nat, dataSize: nat, retainSize: nat, inputSlots: nat, outputSlots: nat,
    entries: seq<Entry>, constData: seq<byte>, code: seq<byte>)

  const MAGIC: seq<byte> := [0x53, 0x50, 0x42, 0x43]
  const HEADER: nat := 36

  /** Names of user function blocks start with "fb." in lower or upper case. */
  predicate FbName(name: seq<byte>)
  {
    |name| >= 3 && (name[..3] == [0x66, 0x62, 0x2E] || name[..3] == [0x46, 0x42, 0x2E])
  }

  /** Field ranges of the module type; lengths below 2^32. */
  predicate Widths(utf8: Utf8, m: Module)
  {
    && m.major < Pow256(2) && m.minor < Pow256(2)
    && m.constSize < Pow256(4) && m.dataSize < Pow256(4) && m.retainSize < Pow256(4) && m.inputSlots < Pow256(4) && m.outputSlots < Pow256(4)
    && |m.entries| < Pow256(4) && |m.constData| < Pow256(4) && |m.code| < Pow256(4)
    && forall k :: 0 <= k < |m.entries| ==> m.entries[k].pc < Pow256(4) && utf8(m.entries[k].name)
  }

  // ----- writing -----

  /** The numbers of the header: two of two bytes, then seven of four. */
  function Words(ns: seq<nat>): (s: seq<byte>)
    ensures |s| == 4 * |ns|
  {
    if ns == [] then [] else Words(ns[..|ns| - 1]) + Bytes.Le(ns[|ns| - 1], 4)
  }

  function HeaderWords(m: Module): seq<nat>
  {
    [|m.code|, |m.constData|, m.dataSize, m.retainSize, m.inputSlots, m.outputSlots, |m.entries|]
  }

  function HeaderBytes(m: Module): (s: seq<byte>)
    ensures |s| == HEADER
  {
    MAGIC + Bytes.Le(m.major, 2) + Bytes.Le(m.minor, 2) + Words(HeaderWords(m))
  }

  function EntryBytes(e: Entry): seq<byte>
    requires |e.name| <= 255
  {
    [|e.name|] + e.name + Bytes.Le(e.pc, 4)
  }

  ghost predicate NamesFit(es: seq<Entry>) { forall k :: 0 <= k < |es| ==> |es[k].name| <= 255 }

  function EntriesBytes(es: seq<Entry>): (s: seq<byte>)
    requires NamesFit(es)
    ensures |s| >= 5 * |es|
  {
    if es == [] then [] else EntriesBytes(es[..|es| - 1]) + EntryBytes(es[|es| - 1])
  }

  function Framed(m: Module): seq<byte>
    requires NamesFit(m.entries)
  {
    HeaderBytes(m) + EntriesBytes(m.entries) + m.constData + m.code
  }

  /** Fails only for an entry name longer than its length byte can say. */
  method Write(m: Module) returns (r: Option<seq<byte>>)
    ensures r.Some? <==> NamesFit(m.entries)
    ensures r.Some? ==> r.value == Framed(m)
  {
    hide Bytes.Le;
    var out := MAGIC + Bytes.Le(m.major, 2) + Bytes.Le(m.minor, 2);
    var ns := HeaderWords(m);
    ghost var front := out;
    for k := 0 to |ns|
      invariant out == front + Words(ns[..k])
    {
      out := out + Bytes.Le(ns[k], 4);
      assert ns[..k + 1][..k] == ns[..k];
    }
    assert ns[..|ns|] == ns;
    for k := 0 to |m.entries|
      invariant NamesFit(m.entries[..k]) && out == HeaderBytes(m) + EntriesBytes(m.entries[..k])
    {
      if |m.entries[k].name| > 255 { return None; }
      assert m.entries[..k + 1][..k] == m.entries[..k];
      out := out + [|m.entries[k].name|] + m.entries[k].name + Bytes.Le(m.entries[k].pc, 4);
    }
    assert m.entries[..|m.entries|] == m.entries;
    r := Some(out + m.constData + m.code);
  }

  // ----- parsing -----

  /** One entry: its name, its place, and the flag its name implies. */
  function ParseEntry(utf8: Utf8, b: seq<byte>, off: nat): (r: Option<(Entry, nat)>)
    requires off <= |b|
    ensures r.Some? ==> off + 5 <= r.value.1 <= |b|
  {
    if off == |b| then None
    else
      var n: nat := b[off];
      if off + 1 + n + 4 > |b| then None
      else
        var name := b[off + 1..off + 1 + n];
        if !utf8(name) then None
        else Some((Entry(name, FromLe(b[off + 1 + n..off + 5 + n]), FbName(name)), off + 5 + n))
  }

  function EntriesFrom(utf8: Utf8, b: seq<byte>, off: nat, count: nat): (r: Option<(seq<Entry>, nat)>)
    requires off <= |b|
    ensures r.Some? ==> |r.value.0| == count && off <= r.value.1 <= |b|
    decreases count
  {
    if count == 0 then Some(([], off))
    else
      var e := ParseEntry(utf8, b, off);
      if e.None? then None
      else
        var rest := EntriesFrom(utf8, b, e.value.1, count - 1);
        if rest.None? then None else Some(([e.value.0] + rest.value.0, rest.value.1))
  }

  function Word(b: seq<byte>, k: nat): nat
    requires 8 + 4 * k + 4 <= |b|
  {
    FromLe(b[8 + 4 * k..12 + 4 * k])
  }

  function Parsed(utf8: Utf8, b: seq<byte>): Option<Module>
  {
    if |b| < HEADER || b[..4] != MAGIC then None
    else if Word(b, 6) > (|b| - HEADER) / 5 then None
    else
      var es := EntriesFrom(utf8, b, HEADER, Word(b, 6));
      if es.None? then None
      else
        var off := es.value.1;
        var mid := off + Word(b, 1);
        var end := mid + Word(b, 0);
        if end > |b| then None
        else Some(Module(FromLe(b[4..6]), FromLe(b[6..8]), Word(b, 1), Word(b, 2), Word(b, 3), Word(b, 4), Word(b, 5),
                         es.value.0, b[off..mid], b[mid..end]))
  }

  method Parse(utf8: Utf8, b: seq<byte>) returns (r: Option<Module>)
    ensures r == Parsed(utf8, b)
  {
    hide FromLe, Word, ParseEntry;
    if |b| < HEADER { return None; }
    if b[..4] != MAGIC { return None; }
    var off, count := HEADER, Word(b, 6);
    if count > (|b| - off) / 5 { return None; }
    var entries: seq<Entry> := [];
    ghost var whole := EntriesFrom(utf8, b, off, count);
    if whole.Some? { assert [] + whole.value.0 == whole.value.0; }
    for k := 0 to count
      invariant |entries| == k && HEADER <= off <= |b|
      invariant var rest := EntriesFrom(utf8, b, off, count - k);
                if rest.None? then whole.None? else whole == Some((entries + rest.value.0, rest.value.1))
    {
      var e := ParseEntry(utf8, b, off);
      if e.None? { return None; }
      ghost var rest := EntriesFrom(utf8, b, e.value.1, count - k - 1);
      if rest.Some? { assert entries + ([e.value.0] + rest.value.0) == entries + [e.value.0] + rest.value.0; }
      entries := entries + [e.value.0];
      off := e.value.1;
    }
    assert entries + [] == entries;
    if off + Word(b, 1) + Word(b, 0) > |b| { return None; }
    var mid := off + Word(b, 1);
    r := Some(Module(FromLe(b[4..6]), FromLe(b[6..8]), Word(b, 1), Word(b, 2), Word(b, 3), Word(b, 4), Word(b, 5),
                     entries, b[off..mid], b[mid..mid + Word(b, 0)]));
  }

  // ----- exactness -----

  /** The entry as parsing sees it. */
  function Reflagged(e: Entry): Entry { e.(isUserFb := FbName(e.name)) }

  function ReflaggedAll(es: seq<Entry>): (r: seq<Entry>)
    ensures |r| == |es|
  {
    seq(|es|, i requires 0 <= i < |es| => Reflagged(es[i]))
  }

  lemma EntryRead(utf8: Utf8, pre: seq<byte>, e: Entry, post: seq<byte>)
    requires |e.name| <= 255 && e.pc < Pow256(4) && utf8(e.name)
    ensures ParseEntry(utf8, pre + EntryBytes(e) + post, |pre|) == Some((Reflagged(e), |pre| + |EntryBytes(e)|))
  {
    hide FromLe, Bytes.Le, Pow256;
    FromLeOfLe(e.pc, 4);
    var b, n := pre + EntryBytes(e) + post, |e.name|;
    assert b[|pre|] == n;
    assert b[|pre| + 1..|pre| + 1 + n] == e.name;
    assert b[|pre| + 1 + n..|pre| + 5 + n] == Bytes.Le(e.pc, 4);
  }

  lemma {:induction false} FirstEntry(es: seq<Entry>)
    requires es != [] && NamesFit(es)
    ensures NamesFit(es[1..]) && EntriesBytes(es) == EntryBytes(es[0]) + EntriesBytes(es[1..])
  {
    hide EntryBytes;
    var n := |es| - 1;
    if n > 0 {
      FirstEntry(es[..n]);
      assert es[..n][1..] == es[1..][..n - 1];
    } else {
      assert es[..n] == [] && es[1..] == [];
    }
  }

  lemma {:induction false} EntriesRead(utf8: Utf8, pre: seq<byte>, es: seq<Entry>, post: seq<byte>)
    requires NamesFit(es) && forall k :: 0 <= k < |es| ==> es[k].pc < Pow256(4) && utf8(es[k].name)
    ensures EntriesFrom(utf8, pre + EntriesBytes(es) + post, |pre|, |es|) == Some((ReflaggedAll(es), |pre| + |EntriesBytes(es)|))
    decreases es
  {
    hide EntryBytes, ParseEntry, Pow256;
    if es != [] {
      FirstEntry(es);
      var pre2, more := pre + EntryBytes(es[0]), EntriesBytes(es[1..]) + post;
      var b := pre + EntriesBytes(es) + post;
      assert b == pre + EntryBytes(es[0]) + more;
      EntryRead(utf8, pre, es[0], more);
      assert b == pre2 + EntriesBytes(es[1..]) + post;
      EntriesRead(utf8, pre2, es[1..], post);
      assert ReflaggedAll(es) == [Reflagged(es[0])] + ReflaggedAll(es[1..]);
    } else {
      assert ReflaggedAll(es) == [];
    }
  }

  lemma {:induction false} WordsRead(pre: seq<byte>, ns: seq<nat>, post: seq<byte>, k: nat)
    requires |pre| == 8 && k < |ns| && forall i :: 0 <= i < |ns| ==> ns[i] < Pow256(4)
    ensures Word(pre + Words(ns) + post, k) == ns[k]
    decreases |ns|
  {
    hide FromLe, Bytes.Le, Pow256;
    var n := |ns| - 1;
    var b := pre + Words(ns) + post;
    if k == n {
      FromLeOfLe(ns[n], 4);
      assert b[8 + 4 * k..12 + 4 * k] == Bytes.Le(ns[n], 4);
    } else {
      assert b == pre + Words(ns[..n]) + (Bytes.Le(ns[n], 4) + post);
      WordsRead(pre, ns[..n], Bytes.Le(ns[n], 4) + post, k);
    }
  }

  lemma HeaderRead(m: Module, post: seq<byte>, utf8: Utf8)
    requires Widths(utf8, m)
    ensures var b := HeaderBytes(m) + post;
            && |b| >= HEADER && b[..4] == MAGIC && FromLe(b[4..6]) == m.major && FromLe(b[6..8]) == m.minor
            && forall k :: 0 <= k < 7 ==> Word(b, k) == HeaderWords(m)[k]
  {
    hide FromLe, Bytes.Le, Pow256, Words, Word;
    FromLeOfLe(m.major, 2);
    FromLeOfLe(m.minor, 2);
    var pre, ns := MAGIC + Bytes.Le(m.major, 2) + Bytes.Le(m.minor, 2), HeaderWords(m);
    var b := HeaderBytes(m) + post;
    assert b[4..6] == Bytes.Le(m.major, 2) && b[6..8] == Bytes.Le(m.minor, 2);
    assert b == pre + Words(ns) + post;
    forall k | 0 <= k < 7 ensures Word(b, k) == ns[k] { WordsRead(pre, ns, post, k); }
  }

  /** What a written module parses to: the bound on the entry count refuses none, the flags
      follow the names and the constant size follows the data. */
  lemma ParseOfWrite(utf8: Utf8, m: Module)
    requires Widths(utf8, m) && NamesFit(m.entries)
    ensures Parsed(utf8, Framed(m)) == Some(m.(entries := ReflaggedAll(m.entries), constSize := |m.constData|))
  {
    hide FromLe, Word, EntriesFrom, EntriesBytes, HeaderBytes, ReflaggedAll;
    var b, rest := Framed(m), m.constData + m.code;
    assert b == HeaderBytes(m) + (EntriesBytes(m.entries) + rest);
    HeaderRead(m, EntriesBytes(m.entries) + rest, utf8);
    assert b == HeaderBytes(m) + EntriesBytes(m.entries) + rest;
    EntriesRead(utf8, HeaderBytes(m), m.entries, rest);
    assert Word(b, 0) == |m.code| && Word(b, 1) == |m.constData| && Word(b, 6) == |m.entries|;
    assert Word(b, 2) == m.dataSize && Word(b, 3) == m.retainSize && Word(b, 4) == m.inputSlots && Word(b, 5) == m.outputSlots;
    var off := HEADER + |EntriesBytes(m.entries)|;
    assert b[off..off + |m.constData|] == m.constData;
    assert b[off + |m.constData|..off + |m.constData| + |m.code|] == m.code;
  }

  /** A module survives framing exactly when its flags are those of its names and its
      constant size is that of its data. */
  lemma RoundTrip(utf8: Utf8, m: Module)
    requires Widths(utf8, m) && NamesFit(m.entries)
    ensures Parsed(utf8, Framed(m)) == Some(m) <==>
              m.constSize == |m.constData| && forall k :: 0 <= k < |m.entries| ==> m.entries[k].isUserFb == FbName(m.entries[k].name)
  {
    hide Parsed, Framed, FbName;
    ParseOfWrite(utf8, m);
    ReflagsSame(m.entries);
  }

  lemma ReflagsSame(es: seq<Entry>)
    ensures ReflaggedAll(es) == es <==> forall k :: 0 <= k < |es| ==> es[k].isUserFb == FbName(es[k].name)
  {
    hide FbName;
    if forall k :: 0 <= k < |es| ==> es[k].isUserFb == FbName(es[k].name) {
      assert ReflaggedAll(es) == es;
    } else {
      var k :| 0 <= k < |es| && es[k].isUserFb != FbName(es[k].name);
      assert ReflaggedAll(es)[k] != es[k];
    }
  }

  lemma {:induction false} EntriesWrite(utf8: Utf8, b: seq<byte>, off: nat, count: nat)
    requires off <= |b| && EntriesFrom(utf8, b, off, count).Some?
    ensures var (es, end) := EntriesFrom(utf8, b, off, count).value;
            && NamesFit(es) && EntriesBytes(es) == b[off..end]
    decreases count
  {
    hide FromLe, Bytes.Le, ParseEntry;
    if count > 0 {
      var (e, next) := ParseEntry(utf8, b, off).value;
      OneEntryWrite(utf8, b, off);
      EntriesWrite(utf8, b, next, count - 1);
      var (es, end) := EntriesFrom(utf8, b, off, count).value;
      assert es[1..] == EntriesFrom(utf8, b, next, count - 1).value.0 && es[0] == e;
      FirstEntry(es);
      assert b[off..end] == b[off..next] + b[next..end];
    }
  }

  lemma OneEntryWrite(utf8: Utf8, b: seq<byte>, off: nat)
    requires off <= |b| && ParseEntry(utf8, b, off).Some?
    ensures var (e, next) := ParseEntry(utf8, b, off).value; |e.name| <= 255 && EntryBytes(e) == b[off..next]
  {
    hide FromLe, Bytes.Le;
    var (e, next) := ParseEntry(utf8, b, off).value;
    var n: nat := b[off];
    LeOfFromLe(b[off + 1 + n..off + 5 + n]);
    assert EntryBytes(e) == [b[off]] + b[off + 1..off + 1 + n] + b[off + 1 + n..off + 5 + n] == b[off..next];
  }

  lemma {:induction false} WordsWrite(b: seq<byte>, ns: seq<nat>, k: nat)
    requires k <= |ns| && 8 + 4 * k <= |b| && forall i :: 0 <= i < k ==> ns[i] == Word(b, i)
    ensures Words(ns[..k]) == b[8..8 + 4 * k]
  {
    hide FromLe, Bytes.Le;
    if k > 0 {
      WordsWrite(b, ns, k - 1);
      assert ns[..k][..k - 1] == ns[..k - 1];
      LeOfFromLe(b[8 + 4 * (k - 1)..12 + 4 * (k - 1)]);
    }
  }

  /** An accepted buffer is what writing the parsed module gives, followed by bytes that
      parsing ignores; so it is re-written unchanged exactly when nothing follows the code. */
  lemma WriteOfParse(utf8: Utf8, b: seq<byte>)
    requires Parsed(utf8, b).Some?
    ensures var m := Parsed(utf8, b).value; NamesFit(m.entries) && Framed(m) <= b
  {
    hide FromLe, Bytes.Le, EntriesFrom, EntriesBytes, Word, Words;
    var m := Parsed(utf8, b).value;
    EntriesWrite(utf8, b, HEADER, Word(b, 6));
    var off := EntriesFrom(utf8, b, HEADER, Word(b, 6)).value.1;
    var ns := HeaderWords(m);
    WordsWrite(b, ns, 7);
    assert ns[..7] == ns;
    LeOfFromLe(b[4..6]);
    LeOfFromLe(b[6..8]);
    assert HeaderBytes(m) == b[..4] + b[4..6] + b[6..8] + b[8..36] == b[..36];
    var end := off + |m.constData| + |m.code|;
    assert Framed(m) == b[..36] + b[36..off] + b[off..off + |m.constData|] + b[off + |m.constData|..end] == b[..end];
  }
}
