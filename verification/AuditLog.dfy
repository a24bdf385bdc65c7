/** The rotating audit log: append, rotation by renames with abort and crash recovery, and
    the paged reader (crates/plc-api/src/audit_log.rs). Every file operation may fail, also
    those that undo another one, or be cut by a crash. */
module AuditLog {
  import opened Ir

  datatype Row = Row(number: nat, detail: string, size: nat)

  /** The rows of a file that parse, and the bytes after the last of them that do not: -1 when
      the last row lacks only its newline, which no reader notices. */
  datatype Segment = Segment(rows: seq<Row>, torn: int)

  datatype FileName = Active | Rotated(index: nat) | Incoming | Dropping

  type Files = map<FileName, Segment>

  /** How a file operation ended; a crash comes before or after its effect. */
  datatype Fs = Ok | Err | Crash

  const TAIL_WINDOW: nat := 65536

  // ----- contents -----

  function RowsAt(f: Files, name: FileName): seq<Row> { if name in f then f[name].rows else [] }

  /** Rows of the rotated files `k`, ..., 1: oldest first. */
  function RotatedRows(f: Files, k: nat): seq<Row>
  {
    if k == 0 then [] else RowsAt(f, Rotated(k)) + RotatedRows(f, k - 1)
  }

  /** What a reader sees with `n` files in all. */
  function Visible(f: Files, n: nat): seq<Row>
    requires n >= 2
  {
    RotatedRows(f, n - 1) + RowsAt(f, Active)
  }

  /** What is still on disk: also the file being dropped, older than all others. */
  function Everything(f: Files, n: nat): seq<Row>
    requires n >= 2
  {
    RowsAt(f, Dropping) + Visible(f, n)
  }

  function RowsSize(rows: seq<Row>): nat
  {
    if rows == [] then 0 else RowsSize(rows[..|rows| - 1]) + rows[|rows| - 1].size
  }

  function Moved(f: Files, a: FileName, b: FileName): Files
    requires a in f
  {
    (f - {a})[b := f[a]]
  }

  ghost predicate Suffix(s: seq<Row>, t: seq<Row>)
  {
    |s| <= |t| && s == t[|t| - |s|..]
  }

  lemma SuffixTrans(a: seq<Row>, b: seq<Row>, c: seq<Row>)
    requires Suffix(a, b) && Suffix(b, c)
    ensures Suffix(a, c)
  {}

  lemma SuffixTail(d: seq<Row>, s: seq<Row>)
    ensures Suffix(s, d + s)
  {}

  // ----- renames keep the rows in order -----

  lemma {:induction false} RotatedSame(f: Files, g: Files, k: nat)
    requires forall i :: 1 <= i <= k ==> RowsAt(f, Rotated(i)) == RowsAt(g, Rotated(i))
    ensures RotatedRows(f, k) == RotatedRows(g, k)
  {
    if k > 0 { RotatedSame(f, g, k - 1); }
  }

  lemma {:induction false} MoveUp(f: Files, i: nat, k: nat)
    requires 1 <= i && Rotated(i) in f && Rotated(i + 1) !in f && k >= i + 1
    ensures RotatedRows(Moved(f, Rotated(i), Rotated(i + 1)), k) == RotatedRows(f, k)
  {
    var g := Moved(f, Rotated(i), Rotated(i + 1));
    if k > i + 1 {
      MoveUp(f, i, k - 1);
    } else {
      RotatedSame(f, g, i - 1);
      assert RotatedRows(f, k) == RowsAt(f, Rotated(k)) + (RowsAt(f, Rotated(i)) + RotatedRows(f, i - 1));
      assert RotatedRows(g, k) == RowsAt(g, Rotated(k)) + (RowsAt(g, Rotated(i)) + RotatedRows(g, i - 1));
    }
  }

  /** The renames of a rotation and of its undoing, each onto a free name. */
  predicate Shifts(f: Files, a: FileName, b: FileName, n: nat)
    requires n >= 2
  {
    && a in f && b !in f
    && (|| (a == Rotated(n - 1) && b == Dropping)
        || (a.Rotated? && 1 <= a.index < n - 1 && b == Rotated(a.index + 1))
        || (a == Active && b == Rotated(1))
        || (a == Incoming && b == Active && f[a].rows == [])
        || (a == Rotated(1) && b == Active)
        || (a == Dropping && b == Rotated(n - 1)))
  }

  /** No such rename loses, adds or reorders a row. */
  lemma ShiftKeeps(f: Files, a: FileName, b: FileName, n: nat)
    requires n >= 2 && Shifts(f, a, b, n)
    ensures Everything(Moved(f, a, b), n) == Everything(f, n)
  {
    hide Everything, RotatedRows;
    if a.Rotated? && b.Rotated? {
      MiddleKeeps(f, a.index, n);
    } else if a == Dropping || b == Dropping {
      OldestKeeps(f, Moved(f, a, b), n);
    } else if a == Incoming {
      NewestKeeps(f, Moved(f, a, b), n);
    } else {
      NewestKeeps(f, Moved(f, a, b), n);
    }
  }

  lemma MiddleKeeps(f: Files, i: nat, n: nat)
    requires n >= 2 && 1 <= i < n - 1 && Rotated(i) in f && Rotated(i + 1) !in f
    ensures Everything(Moved(f, Rotated(i), Rotated(i + 1)), n) == Everything(f, n)
  {
    MoveUp(f, i, n - 1);
  }

  /** Files that differ only at the old end, with the same rows there. */
  lemma OldestKeeps(f: Files, g: Files, n: nat)
    requires n >= 2 && RowsAt(f, Active) == RowsAt(g, Active)
    requires forall i :: 1 <= i <= n - 2 ==> RowsAt(f, Rotated(i)) == RowsAt(g, Rotated(i))
    requires RowsAt(f, Dropping) + RowsAt(f, Rotated(n - 1)) == RowsAt(g, Dropping) + RowsAt(g, Rotated(n - 1))
    ensures Everything(f, n) == Everything(g, n)
  {
    OldestApart(f, n);
    OldestApart(g, n);
    RotatedSame(f, g, n - 2);
  }

  lemma Regroup(a: seq<Row>, b: seq<Row>, c: seq<Row>, d: seq<Row>)
    ensures a + (b + c + d) == a + b + (c + d)
  {}

  /** Files that differ only at the new end, with the same rows there. */
  lemma NewestKeeps(f: Files, g: Files, n: nat)
    requires n >= 2 && RowsAt(f, Dropping) == RowsAt(g, Dropping)
    requires forall i :: 2 <= i <= n - 1 ==> RowsAt(f, Rotated(i)) == RowsAt(g, Rotated(i))
    requires RowsAt(f, Rotated(1)) + RowsAt(f, Active) == RowsAt(g, Rotated(1)) + RowsAt(g, Active)
    ensures Everything(f, n) == Everything(g, n)
  {
    NewestApart(f, n - 1);
    NewestApart(g, n - 1);
    UpperSame(f, g, n - 1);
    hide RowsAt, RotatedRows, Upper;
    Regroup(RowsAt(f, Dropping), Upper(f, n - 1), RowsAt(f, Rotated(1)), RowsAt(f, Active));
    Regroup(RowsAt(g, Dropping), Upper(g, n - 1), RowsAt(g, Rotated(1)), RowsAt(g, Active));
  }

  lemma OldestApart(f: Files, n: nat)
    requires n >= 2
    ensures Everything(f, n) == RowsAt(f, Dropping) + RowsAt(f, Rotated(n - 1)) + RotatedRows(f, n - 2) + RowsAt(f, Active)
  {}

  /** Rows of the rotated files `k`, ..., 2. */
  function Upper(f: Files, k: nat): seq<Row>
  {
    if k <= 1 then [] else RowsAt(f, Rotated(k)) + Upper(f, k - 1)
  }

  lemma {:induction false} NewestApart(f: Files, k: nat)
    requires k >= 1
    ensures RotatedRows(f, k) == Upper(f, k) + RowsAt(f, Rotated(1))
  {
    if k > 1 { NewestApart(f, k - 1); }
  }

  lemma {:induction false} UpperSame(f: Files, g: Files, k: nat)
    requires forall i :: 2 <= i <= k ==> RowsAt(f, Rotated(i)) == RowsAt(g, Rotated(i))
    ensures Upper(f, k) == Upper(g, k)
  {
    if k > 1 { UpperSame(f, g, k - 1); }
  }

  /** Only removing the dropped file or the incoming one is a loss, of that file's rows. */
  lemma RemoveKeeps(f: Files, n: nat)
    requires n >= 2
    ensures Visible(f - {Dropping}, n) == Visible(f, n) == Everything(f - {Dropping}, n)
    ensures Visible(f - {Incoming}, n) == Visible(f, n) && Everything(f - {Incoming}, n) == Everything(f, n)
  {
    RotatedSame(f, f - {Dropping}, n - 1);
    RotatedSame(f, f - {Incoming}, n - 1);
  }

  lemma OtherKeeps(f: Files, s: Segment, n: nat)
    requires n >= 2
    ensures Visible(f[Incoming := s], n) == Visible(f, n) && Everything(f[Incoming := s], n) == Everything(f, n)
    ensures Visible(f[Active := s], n) == RotatedRows(f, n - 1) + s.rows
    ensures Everything(f[Active := s], n) == RowsAt(f, Dropping) + RotatedRows(f, n - 1) + s.rows
  {
    RotatedSame(f, f[Incoming := s], n - 1);
    RotatedSame(f, f[Active := s], n - 1);
  }

  // ----- the newest file -----

  /** The file that is written to: the active one or, while that is missing, the rotated file
      with the lowest number. */
  ghost predicate Newest(f: Files, h: FileName, n: nat)
  {
    && h in f
    && (h == Active
        || (Active !in f && h.Rotated? && 1 <= h.index <= n - 1 && forall i :: 1 <= i < h.index ==> Rotated(i) !in f))
  }

  /** Rows of the rotated files `hi`, ..., `lo` + 1. */
  function Above(f: Files, hi: nat, lo: nat): seq<Row>
  {
    if hi <= lo then [] else RowsAt(f, Rotated(hi)) + Above(f, hi - 1, lo)
  }

  lemma {:induction false} AboveSplit(f: Files, hi: nat, lo: nat)
    requires lo <= hi
    ensures RotatedRows(f, hi) == Above(f, hi, lo) + RotatedRows(f, lo)
    decreases hi
  {
    if lo < hi { AboveSplit(f, hi - 1, lo); }
  }

  lemma {:induction false} AboveSame(f: Files, g: Files, hi: nat, lo: nat)
    requires forall i :: lo < i <= hi ==> RowsAt(f, Rotated(i)) == RowsAt(g, Rotated(i))
    ensures Above(f, hi, lo) == Above(g, hi, lo)
    decreases hi
  {
    if lo < hi { AboveSame(f, g, hi - 1, lo); }
  }

  lemma {:induction false} NoneBelow(f: Files, k: nat)
    requires forall i :: 1 <= i <= k ==> Rotated(i) !in f
    ensures RotatedRows(f, k) == []
  {
    if k > 0 { NoneBelow(f, k - 1); }
  }

  /** What a reader sees before the newest file. */
  function Older(f: Files, h: FileName, n: nat): seq<Row>
    requires n >= 2
  {
    Above(f, n - 1, if h.Rotated? then h.index else 0)
  }

  lemma NewestLast(f: Files, h: FileName, n: nat)
    requires n >= 2 && Newest(f, h, n)
    ensures Visible(f, n) == Older(f, h, n) + f[h].rows
  {
    if h == Active {
      AboveSplit(f, n - 1, 0);
    } else {
      AboveSplit(f, n - 1, h.index);
      NoneBelow(f, h.index - 1);
    }
  }

  /** Another content of the newest file. */
  lemma NewestSet(f: Files, h: FileName, s: Segment, n: nat)
    requires n >= 2 && Newest(f, h, n)
    ensures Newest(f[h := s], h, n)
    ensures Visible(f[h := s], n) == Older(f, h, n) + s.rows
    ensures Everything(f[h := s], n) == RowsAt(f, Dropping) + Older(f, h, n) + s.rows
  {
    NewestLast(f[h := s], h, n);
    AboveSame(f, f[h := s], n - 1, if h.Rotated? then h.index else 0);
    assert RowsAt(f[h := s], Dropping) == RowsAt(f, Dropping);
  }

  // ----- reading -----

  function RowsOf(f: Files, names: seq<FileName>): seq<Row>
  {
    if names == [] then [] else RowsOf(f, names[..|names| - 1]) + RowsAt(f, names[|names| - 1])
  }

  lemma {:induction false} RowsOfConcat(f: Files, a: seq<FileName>, b: seq<FileName>)
    ensures RowsOf(f, a + b) == RowsOf(f, a) + RowsOf(f, b)
  {
    if b == [] {
      assert a + b == a;
    } else {
      assert (a + b)[..|a + b| - 1] == a + b[..|b| - 1];
      RowsOfConcat(f, a, b[..|b| - 1]);
    }
  }

  /** Rows numbered above the cursor. */
  function Newer(rows: seq<Row>, cursor: nat): seq<Row>
  {
    if rows == [] then []
    else
      var n := |rows| - 1;
      Newer(rows[..n], cursor) + if rows[n].number > cursor then [rows[n]] else []
  }

  lemma {:induction false} NewerConcat(a: seq<Row>, b: seq<Row>, cursor: nat)
    ensures Newer(a + b, cursor) == Newer(a, cursor) + Newer(b, cursor)
  {
    if b == [] {
      assert a + b == a;
    } else {
      assert (a + b)[..|a + b| - 1] == a + b[..|b| - 1];
      NewerConcat(a, b[..|b| - 1], cursor);
    }
  }

  lemma {:induction false} NoneNewer(rows: seq<Row>, cursor: nat)
    requires forall i :: 0 <= i < |rows| ==> rows[i].number <= cursor
    ensures Newer(rows, cursor) == []
  {
    if rows != [] { NoneNewer(rows[..|rows| - 1], cursor); }
  }

  function Take(rows: seq<Row>, limit: nat): seq<Row> { if |rows| <= limit then rows else rows[..limit] }

  /** The first row that lies wholly within the last `window` bytes of a file. */
  function FirstWithin(rows: seq<Row>, window: int): (k: nat)
    ensures k <= |rows|
  {
    if rows == [] || rows[|rows| - 1].size > window then |rows|
    else FirstWithin(rows[..|rows| - 1], window - rows[|rows| - 1].size)
  }

  /** The greatest number in the last bytes of a file, if a whole row lies there. */
  method TrailingSeq(s: Segment) returns (r: Option<nat>)
    ensures r.Some? <==> FirstWithin(s.rows, TAIL_WINDOW - s.torn) < |s.rows|
    ensures r.Some? ==> exists i :: 0 <= i < |s.rows| && s.rows[i].number == r.value
    ensures forall i :: FirstWithin(s.rows, TAIL_WINDOW - s.torn) <= i < |s.rows| ==> r.Some? && s.rows[i].number <= r.value
  {
    r := None;
    var first := FirstWithin(s.rows, TAIL_WINDOW - s.torn);
    for i := first to |s.rows|
      invariant r.Some? <==> first < i
      invariant r.Some? ==> exists k :: 0 <= k < |s.rows| && s.rows[k].number == r.value
      invariant forall k :: first <= k < i ==> r.Some? && s.rows[k].number <= r.value
    {
      if r.None? || s.rows[i].number > r.value { r := Some(s.rows[i].number); }
    }
  }

  ghost predicate Ascending(rows: seq<Row>)
  {
    forall i, j :: 0 <= i < j < |rows| ==> rows[i].number < rows[j].number
  }

  /** The last number of an ascending file bounds all, so a file skipped by it has nothing
      above the cursor. */
  lemma LastBounds(s: Segment, last: nat)
    requires Ascending(s.rows) && (exists i :: 0 <= i < |s.rows| && s.rows[i].number == last)
    requires forall i :: FirstWithin(s.rows, TAIL_WINDOW - s.torn) <= i < |s.rows| ==> s.rows[i].number <= last
    requires FirstWithin(s.rows, TAIL_WINDOW - s.torn) < |s.rows|
    ensures forall i :: 0 <= i < |s.rows| ==> s.rows[i].number <= last
  {
    assert s.rows[|s.rows| - 1].number <= last;
  }

  // ----- the log -----

  /** Rows are numbered 1, 2, 3, ... */
  ghost predicate Numbered(rows: seq<Row>)
  {
    forall i :: 0 <= i < |rows| ==> rows[i].number == i + 1
  }

  /** After a rotation or part of one: what is visible lacks at most the oldest rotated file
      and what was being dropped already. */
  ghost predicate Kept(f: Files, g: Files, n: nat)
    requires n >= 2
  {
    && Suffix(Everything(g, n), Everything(f, n))
    && |Everything(f, n)| <= |Visible(g, n)| + |RowsAt(f, Dropping)| + |RowsAt(f, Rotated(n - 1))|
  }

  /** What any crash leaves behind, `ever` being every row that reached the disk whole: rows
      numbered without gap or reuse, oldest first, the newest of them readable. */
  ghost predicate Disk(f: Files, n: nat, ever: seq<Row>)
  {
    && n >= 2 && Numbered(ever) && Suffix(Everything(f, n), ever)
    && (ever != [] ==> Visible(f, n) != [])
    && (Incoming in f ==> f[Incoming].rows == [])
    && TornOk(f)
  }

  ghost predicate TornOk(f: Files)
  {
    forall a :: a in f ==> f[a].torn >= -1 && (f[a].torn == -1 ==> f[a].rows != [])
  }

  /** Nothing has been dropped or moved to be dropped yet. */
  ghost predicate Untouched(f: Files, g: Files, n: nat)
    requires n >= 2
  {
    && Everything(g, n) == Everything(f, n) && RowsAt(g, Dropping) == RowsAt(f, Dropping)
    && RowsAt(g, Rotated(n - 1)) == RowsAt(f, Rotated(n - 1))
  }

  lemma UntouchedKept(f: Files, g: Files, n: nat)
    requires n >= 2 && Untouched(f, g, n)
    ensures Kept(f, g, n)
  {}

  lemma SlideFacts(f0: Files, f: Files, a: FileName, b: FileName, n: nat, ever: seq<Row>)
    requires Disk(f, n, ever) && Kept(f0, f, n) && Shifts(f, a, b, n) && a != Dropping && b != Dropping
    ensures var g := Moved(f, a, b);
            Disk(g, n, ever) && Kept(f0, g, n) && Visible(g, n) == Visible(f, n) && RowsAt(g, Dropping) == RowsAt(f, Dropping)
  {
    ShiftKeeps(f, a, b, n);
    var g := Moved(f, a, b);
    SameTail(RowsAt(f, Dropping), Visible(f, n), Visible(g, n));
    hide Visible;
  }

  lemma SameTail(d: seq<Row>, v: seq<Row>, w: seq<Row>)
    requires d + v == d + w
    ensures v == w
  {
    assert v == (d + v)[|d|..] && w == (d + w)[|d|..];
  }

  lemma DropFacts(f0: Files, f: Files, h: FileName, n: nat, ever: seq<Row>)
    requires Disk(f, n, ever) && Newest(f, h, n) && f[h].rows != [] && h != Rotated(n - 1) && Rotated(n - 1) in f && Dropping !in f
    requires Kept(f0, f, n) && RowsAt(f0, Rotated(n - 1)) == RowsAt(f, Rotated(n - 1))
    requires |Everything(f0, n)| == |Everything(f, n)| + |RowsAt(f0, Dropping)|
    ensures var g := Moved(f, Rotated(n - 1), Dropping);
            Disk(g, n, ever) && Kept(f0, g, n) && RowsAt(g, Dropping) == RowsAt(f, Rotated(n - 1))
  {
    ShiftKeeps(f, Rotated(n - 1), Dropping, n);
    var g := Moved(f, Rotated(n - 1), Dropping);
    assert Newest(g, h, n) && g[h] == f[h];
    NewestLast(g, h, n);
    hide RotatedRows, Above;
  }

  lemma UndropFacts(f0: Files, f: Files, n: nat, ever: seq<Row>)
    requires Disk(f, n, ever) && Kept(f0, f, n) && Dropping in f && Rotated(n - 1) !in f
    ensures var g := Moved(f, Dropping, Rotated(n - 1)); Disk(g, n, ever) && Kept(f0, g, n) && Visible(g, n) == Everything(f, n)
  {
    hide RotatedRows, Visible, Everything, Numbered, Suffix, RowsAt;
    ShiftKeeps(f, Dropping, Rotated(n - 1), n);
    var g := Moved(f, Dropping, Rotated(n - 1));
    EverythingSize(f, n);
    NoneDropped(g, n);
  }

  lemma NoneDropped(f: Files, n: nat)
    requires n >= 2 && Dropping !in f
    ensures Everything(f, n) == Visible(f, n)
  {
    hide Visible;
    assert Everything(f, n) == [] + Visible(f, n) == Visible(f, n);
  }

  lemma RemoveFacts(f0: Files, f: Files, n: nat, ever: seq<Row>)
    requires Disk(f, n, ever) && Kept(f0, f, n)
    ensures Disk(f - {Dropping}, n, ever) && Kept(f0, f - {Dropping}, n)
    ensures Everything(f - {Dropping}, n) == Visible(f - {Dropping}, n) == Visible(f, n)
  {
    hide Visible, Everything, Suffix, Numbered, RowsAt;
    RemoveKeeps(f, n);
    EverythingOf(f, n);
    SuffixTail(RowsAt(f, Dropping), Visible(f, n));
    SuffixTrans(Visible(f, n), Everything(f, n), ever);
    SuffixTrans(Visible(f, n), Everything(f, n), Everything(f0, n));
  }

  lemma IncomingFacts(f0: Files, f: Files, n: nat, ever: seq<Row>)
    requires Disk(f, n, ever) && Kept(f0, f, n)
    ensures Disk(f - {Incoming}, n, ever) && Kept(f0, f - {Incoming}, n)
    ensures Disk(f[Incoming := Segment([], 0)], n, ever) && Kept(f0, f[Incoming := Segment([], 0)], n)
    ensures Visible(f - {Incoming}, n) == Visible(f, n) && Everything(f - {Incoming}, n) == Everything(f, n)
    ensures Everything(f[Incoming := Segment([], 0)], n) == Everything(f, n)
  {
    hide Visible, Everything, RotatedRows, Suffix, Numbered, RowsAt;
    RemoveKeeps(f, n);
    OtherKeeps(f, Segment([], 0), n);
  }

  lemma {:induction false} NoRows(k: nat)
    ensures RotatedRows(map[], k) == []
  {
    if k > 0 { NoRows(k - 1); }
  }

  /** The invariant of the log: `ever` is what was acknowledged, and one row more where a failed
      write could not be taken back. */
  ghost predicate LogOk(f: Files, n: nat, accepted: seq<Row>, stale: seq<Row>)
  {
    && Disk(f, n, accepted + stale) && |stale| <= 1
    && |stale| <= |Visible(f, n)| && (accepted != [] ==> |stale| < |Visible(f, n)|)
    && (Active in f && f[Active].torn == -1 ==> stale != [])
  }

  lemma LogClean(f: Files, n: nat, accepted: seq<Row>)
    requires n >= 2
    ensures LogOk(f, n, accepted, []) <==> Disk(f, n, accepted) && (Active in f ==> f[Active].torn != -1)
  {
    hide Visible, Everything;
    assert accepted + [] == accepted;
  }

  /** In the middle of a rotation: nothing lost but the oldest file, and the file `s` that is
      written to is still the newest. */
  ghost predicate Mid(f0: Files, f: Files, h: FileName, s: Segment, n: nat, accepted: seq<Row>)
  {
    && LogOk(f, n, accepted, []) && Kept(f0, f, n) && Newest(f, h, n)
    && f[h] == s && s.rows != [] && s.torn != -1
  }

  lemma MidStart(f0: Files, f: Files, h: FileName, n: nat, accepted: seq<Row>)
    requires n >= 2 && LogOk(f, n, accepted, []) && Untouched(f0, f, n) && Newest(f, h, n) && f[h].rows != [] && f[h].torn != -1
    ensures Mid(f0, f, h, f[h], n, accepted)
  {
    hide LogOk, Everything, Visible, Kept;
    UntouchedKept(f0, f, n);
  }

  lemma MidLog(f0: Files, f: Files, h: FileName, s: Segment, n: nat, accepted: seq<Row>)
    requires n >= 2 && Mid(f0, f, h, s, n, accepted)
    ensures LogOk(f, n, accepted, []) && Kept(f0, f, n) && Newest(f, h, n) && f[h] == s
    ensures Disk(f, n, accepted)
  {
    hide LogOk, Kept, Newest;
    LogClean(f, n, accepted);
  }

  /** A rename of the rotation, or the one that takes its first step back. */
  predicate MidStep(f: Files, a: FileName, b: FileName, n: nat)
  {
    && a in f && b !in f
    && (|| (a.Rotated? && 1 <= a.index < n - 1 && b == Rotated(a.index + 1))
        || (a == Active && b == Rotated(1))
        || (a == Rotated(1) && b == Active))
  }

  lemma MidSlide(f0: Files, f: Files, h: FileName, s: Segment, a: FileName, b: FileName, n: nat, accepted: seq<Row>)
    requires n >= 2 && Mid(f0, f, h, s, n, accepted) && MidStep(f, a, b, n)
    ensures Mid(f0, Moved(f, a, b), if h == a then b else h, s, n, accepted)
  {
    hide LogOk, Kept, Disk, Visible, Everything;
    MidLog(f0, f, h, s, n, accepted);
    SlideFacts(f0, f, a, b, n, accepted);
    var g := Moved(f, a, b);
    LogClean(f, n, accepted);
    LogClean(g, n, accepted);
  }

  lemma MidIncoming(f0: Files, f: Files, h: FileName, s: Segment, n: nat, accepted: seq<Row>)
    requires n >= 2 && Mid(f0, f, h, s, n, accepted)
    ensures Mid(f0, f - {Incoming}, h, s, n, accepted)
  {
    hide LogOk, Kept, Disk, Visible, Everything;
    MidLog(f0, f, h, s, n, accepted);
    IncomingFacts(f0, f, n, accepted);
    LogClean(f, n, accepted);
    LogClean(f - {Incoming}, n, accepted);
  }

  lemma MidUndrop(f0: Files, f: Files, h: FileName, s: Segment, n: nat, accepted: seq<Row>)
    requires n >= 2 && Mid(f0, f, h, s, n, accepted) && Dropping in f && Rotated(n - 1) !in f
    ensures Mid(f0, Moved(f, Dropping, Rotated(n - 1)), h, s, n, accepted) && h != Dropping
  {
    hide LogOk, Kept, Disk, Visible, Everything;
    MidLog(f0, f, h, s, n, accepted);
    UndropFacts(f0, f, n, accepted);
    LogClean(f, n, accepted);
    LogClean(Moved(f, Dropping, Rotated(n - 1)), n, accepted);
  }

  /** A leftover of an earlier rotation is removed. */
  lemma MidRemove(f0: Files, f: Files, h: FileName, s: Segment, n: nat, accepted: seq<Row>)
    requires n >= 2 && Mid(f0, f, h, s, n, accepted)
    ensures Mid(f0, f - {Dropping}, h, s, n, accepted) && Everything(f - {Dropping}, n) == Visible(f, n)
  {
    hide LogOk, Kept, Disk, Visible, Everything;
    MidLog(f0, f, h, s, n, accepted);
    RemoveFacts(f0, f, n, accepted);
    LogClean(f, n, accepted);
    LogClean(f - {Dropping}, n, accepted);
  }

  lemma MidDrop(f0: Files, f: Files, h: FileName, s: Segment, n: nat, accepted: seq<Row>)
    requires n >= 2 && Mid(f0, f, h, s, n, accepted) && h != Rotated(n - 1) && Rotated(n - 1) in f && Dropping !in f
    requires RowsAt(f0, Rotated(n - 1)) == RowsAt(f, Rotated(n - 1))
    requires |Everything(f0, n)| == |Everything(f, n)| + |RowsAt(f0, Dropping)|
    ensures Mid(f0, Moved(f, Rotated(n - 1), Dropping), h, s, n, accepted)
  {
    hide LogOk, Kept, Disk, Visible, Everything;
    MidLog(f0, f, h, s, n, accepted);
    DropFacts(f0, f, h, n, accepted);
    LogClean(f, n, accepted);
    LogClean(Moved(f, Rotated(n - 1), Dropping), n, accepted);
  }

  /** The last rename of a rotation. */
  lemma MidEnd(f0: Files, f: Files, h: FileName, s: Segment, n: nat, accepted: seq<Row>)
    requires n >= 2 && Mid(f0, f, h, s, n, accepted) && Incoming in f && f[Incoming] == Segment([], 0) && Active !in f
    ensures var g := Moved(f, Incoming, Active); LogOk(g, n, accepted, []) && Kept(f0, g, n) && Newest(g, Active, n)
    ensures h != Incoming
  {
    hide LogOk, Kept, Disk, Visible, Everything;
    MidLog(f0, f, h, s, n, accepted);
    SlideFacts(f0, f, Incoming, Active, n, accepted);
    LogClean(Moved(f, Incoming, Active), n, accepted);
  }

  lemma DroppedFacts(f0: Files, f: Files, n: nat, accepted: seq<Row>)
    requires n >= 2 && LogOk(f, n, accepted, []) && Kept(f0, f, n)
    ensures LogOk(f - {Dropping}, n, accepted, []) && Kept(f0, f - {Dropping}, n)
    ensures Newest(f, Active, n) ==> Newest(f - {Dropping}, Active, n)
  {
    hide Kept, Disk, Visible, Everything, LogOk;
    LogClean(f, n, accepted);
    RemoveFacts(f0, f, n, accepted);
    LogClean(f - {Dropping}, n, accepted);
  }

  // ----- what a complete rotation leaves -----

  function Get(f: Files, a: FileName): Option<Segment> { if a in f then Some(f[a]) else None }

  /** What stands under a name after every step of a rotation succeeded; the dropping name is
      left open, because removing that file may fail. */
  function RotatedTo(f: Files, n: nat, a: FileName): Option<Segment>
  {
    match a
    case Active => Some(Segment([], 0))
    case Incoming => None
    case Dropping => None
    case Rotated(i) => if i == 1 then Get(f, Active) else if 1 < i <= n - 1 then Get(f, Rotated(i - 1)) else Get(f, a)
  }

  /** And after the rotated files from `i` on have moved. */
  function StageAt(f: Files, n: nat, i: nat, a: FileName): Option<Segment>
  {
    if a.Rotated? && i <= a.index <= n - 1 then
      if a.index == i then None else RotatedTo(f, n, a)
    else Get(f, a)
  }

  ghost predicate Staged(f: Files, g: Files, n: nat, i: nat)
  {
    forall a: FileName :: a != Dropping ==> Get(g, a) == StageAt(f, n, i, a)
  }

  ghost predicate Complete(f: Files, g: Files, n: nat)
  {
    forall a: FileName :: a != Dropping ==> Get(g, a) == RotatedTo(f, n, a)
  }

  lemma StageStart(f: Files, g: Files, n: nat)
    requires n >= 2 && (g == f || g == f - {Dropping})
    ensures Rotated(n - 1) !in g ==> Staged(f, g, n, n - 1)
    ensures Rotated(n - 1) in g ==> Staged(f, Moved(g, Rotated(n - 1), Dropping), n, n - 1)
  {}

  lemma StageStep(f: Files, g: Files, n: nat, i: nat)
    requires 1 <= i < n - 1 && Staged(f, g, n, i + 1)
    ensures Rotated(i + 1) !in g
    ensures Rotated(i) !in g ==> Staged(f, g, n, i)
    ensures Rotated(i) in g ==> Staged(f, Moved(g, Rotated(i), Rotated(i + 1)), n, i)
  {
    assert Get(g, Rotated(i + 1)) == None;
    assert Get(g, Rotated(i)) == Get(f, Rotated(i));
    var h := if Rotated(i) in g then Moved(g, Rotated(i), Rotated(i + 1)) else g;
    forall a: FileName | a != Dropping ensures Get(h, a) == StageAt(f, n, i, a) {
      assert Get(g, a) == StageAt(f, n, i + 1, a);
    }
  }

  lemma StageEnd(f: Files, g: Files, n: nat)
    requires n >= 2 && Incoming in f && f[Incoming] == Segment([], 0) && Staged(f, g, n, 1)
    ensures Rotated(1) !in g && Incoming in g && g[Incoming] == Segment([], 0)
    ensures var h := if Active in g then Moved(g, Active, Rotated(1)) else g;
            && Incoming in h && h[Incoming] == Segment([], 0) && Active !in h && Complete(f, Moved(h, Incoming, Active), n)
  {
    assert Get(g, Rotated(1)) == None && Get(g, Incoming) == Some(Segment([], 0)) && Get(g, Active) == Get(f, Active);
    var h := if Active in g then Moved(g, Active, Rotated(1)) else g;
    forall a: FileName | a != Dropping ensures Get(Moved(h, Incoming, Active), a) == RotatedTo(f, n, a) {
      assert Get(g, a) == StageAt(f, n, 1, a);
    }
  }

  /** A rotation does not look at the incoming file. */
  lemma CompleteFrom(f: Files, g: Files, r: Files, n: nat)
    requires (forall a: FileName :: a != Incoming ==> Get(g, a) == Get(f, a)) && Complete(g, r, n)
    ensures Complete(f, r, n)
  {
    forall a: FileName | a != Dropping ensures Get(r, a) == RotatedTo(f, n, a) {
      assert Get(r, a) == RotatedTo(g, n, a);
    }
  }

  lemma SameFile(f: Files, g: Files, h: FileName)
    requires (forall a: FileName :: a != Incoming ==> Get(g, a) == Get(f, a)) && h != Incoming && h in f
    ensures h in g && g[h] == f[h]
  {
    assert Get(g, h) == Get(f, h);
  }

  /** A complete rotation keeps the newest row readable exactly when the file that was written
      to is not the one that is dropped. */
  lemma RotationExact(f: Files, g: Files, h: FileName, n: nat)
    requires n >= 2 && Newest(f, h, n) && f[h].rows != []
    requires Complete(f, g, n)
    ensures Visible(g, n) != [] <==> h != Rotated(n - 1)
  {
    assert Get(g, Active) == Some(Segment([], 0)) && RowsAt(g, Active) == [];
    if h == Rotated(n - 1) {
      forall i | 1 <= i <= n - 1 ensures Rotated(i) !in g {
        assert Get(g, Rotated(i)) == RotatedTo(f, n, Rotated(i));
      }
      NoneBelow(g, n - 1);
    } else {
      var i := if h == Active then 1 else h.index + 1;
      assert Get(g, Rotated(i)) == RotatedTo(f, n, Rotated(i)) == Some(f[h]);
      AboveSplit(g, n - 1, i);
      assert RotatedRows(g, i) == f[h].rows + RotatedRows(g, i - 1);
    }
  }

  /** The failing case. With two files in all, a rotation has moved the active file, could not
      put the new one in its place, and could not move the old one back: the log goes on in
      `audit.jsonl.1`. The next rotation drops that file, and with it every row; opened then, the
      log numbers from 1 again. */
  lemma Stranded(s: Segment, g: Files)
    requires s.rows != []
    requires Complete(Moved(map[Active := s], Active, Rotated(1)), g, 2)
    ensures Newest(Moved(map[Active := s], Active, Rotated(1)), Rotated(1), 2)
    ensures Visible(g, 2) == [] && forall ever :: ever != [] ==> !Disk(g, 2, ever)
  {
    RotationExact(Moved(map[Active := s], Active, Rotated(1)), g, Rotated(1), 2);
  }

  ghost predicate Consecutive(rows: seq<Row>)
  {
    forall i :: 0 <= i < |rows| - 1 ==> rows[i + 1].number == rows[i].number + 1
  }

  lemma {:induction false} RotatedUp(f: Files, g: Files, n: nat, k: nat)
    requires n >= 2 && Complete(f, g, n) && 1 <= k <= n - 1
    ensures RotatedRows(g, k) == RotatedRows(f, k - 1) + RowsAt(f, Active)
  {
    assert Get(g, Rotated(k)) == RotatedTo(f, n, Rotated(k));
    if k > 1 { RotatedUp(f, g, n, k - 1); }
  }

  /** A complete rotation loses the rows of the oldest file and keeps all others in order. */
  lemma RotationLoses(f: Files, g: Files, n: nat)
    requires n >= 2 && Complete(f, g, n)
    ensures Visible(f, n) == RowsAt(f, Rotated(n - 1)) + Visible(g, n)
  {
    assert Get(g, Active) == Some(Segment([], 0));
    RotatedUp(f, g, n, n - 1);
  }

  /** A row that could not be taken back must not be rotated away. When the next row has been
      written after a rotation, the numbers on disk are consecutive if and only if there was no
      such row; otherwise one is used twice. */
  lemma StaleNumber(f: Files, g: Files, h: FileName, n: nat, accepted: seq<Row>, stale: seq<Row>, next: Row)
    requires n >= 2 && LogOk(f, n, accepted, stale) && Newest(f, h, n) && f[h].rows != [] && h != Rotated(n - 1)
    requires Complete(f, g, n) && next.number == |accepted| + 1
    ensures Consecutive(Visible(g[Active := Segment([next], 0)], n)) <==> stale == []
  {
    var kept, ever := Visible(g, n), accepted + stale;
    RotationExact(f, g, h, n);
    RotationLoses(f, g, n);
    VisibleSuffix(f, n, ever);
    assert Get(g, Active) == Some(Segment([], 0));
    NextVisible(g, n, next);
    hide Visible, Everything, LogOk, RotatedRows, RowsAt, Complete, Newest;
    assert Numbered(ever) && |stale| <= 1;
    NextFollows(kept, ever, accepted, stale, next);
  }

  lemma NextVisible(g: Files, n: nat, next: Row)
    requires n >= 2 && Active in g && g[Active].rows == []
    ensures Visible(g[Active := Segment([next], 0)], n) == Visible(g, n) + [next]
  {
    OtherKeeps(g, Segment([next], 0), n);
  }

  lemma NextFollows(kept: seq<Row>, ever: seq<Row>, accepted: seq<Row>, stale: seq<Row>, next: Row)
    requires ever == accepted + stale && Numbered(ever) && |stale| <= 1 && kept != [] && Suffix(kept, ever)
    requires next.number == |accepted| + 1
    ensures Consecutive(kept + [next]) <==> stale == []
  {
    var rows, d := kept + [next], |ever| - |kept|;
    forall i | 0 <= i < |kept| ensures rows[i].number == d + i + 1 { assert kept[i] == ever[d + i]; }
    assert rows[|kept| - 1].number == |ever| && rows[|kept|] == next;
    if stale != [] { assert rows[|kept| - 1 + 1].number == rows[|kept| - 1].number; }
  }

  /** Two files: row 2 stands behind row 1 although writing it failed; the log rotates, and the
      next row is numbered 2 again. */
  lemma NumberTwice() returns (f: Files, g: Files, one: Row, two: Row, next: Row)
    ensures LogOk(f, 2, [one], [two]) && Newest(f, Active, 2) && Complete(f, g, 2) && next.number == |[one]| + 1
    ensures var rows := Visible(g[Active := Segment([next], 0)], 2);
            |rows| == 3 && rows[0].number == 1 && rows[1].number == 2 && rows[2].number == 2
  {
    one, two, next := Row(1, "first", 40), Row(2, "failed", 40), Row(2, "second", 40);
    var s := Segment([one, two], 0);
    f, g := map[Active := s], map[Active := Segment([], 0), Rotated(1) := s];
    assert RowsAt(f, Active) == [one, two] && RowsAt(f, Rotated(1)) == [] && RowsAt(f, Dropping) == [];
    NoneBelow(f, 1);
    assert Visible(f, 2) == [] + [one, two] == [one, two];
    assert Everything(f, 2) == [] + [one, two] == [one] + [two];
    RotationLoses(f, g, 2);
    NextVisible(g, 2, next);
    assert Visible(f, 2) == [] + Visible(g, 2) == Visible(g, 2);
    assert Visible(g, 2) + [next] == [one, two, next];
  }

  /** The active file and at least one rotated one. */
  type FileCount = n: nat | n >= 2 witness 2

  class RotatingAudit {
    const maxBytes: nat
    const maxFiles: FileCount
    var files: Files
    /** The name of the file behind the handle. */
    var handle: FileName
    var len: nat
    var nextSeq: nat
    /** Every row acknowledged, or found when the log was opened, in order. */
    ghost var accepted: seq<Row>
    /** A row that reached the disk whole although writing it failed, until it is taken back. */
    ghost var stale: seq<Row>

    ghost predicate OnDisk()
      reads this
    {
      LogOk(files, maxFiles, accepted, stale)
    }

    /** The file behind the handle: what is acknowledged in it is `len` bytes long. */
    ghost predicate Writable()
      reads this
    {
      && handle in files && (Active in files <==> handle == Active)
      && var s := files[handle]; Split(s, stale, len) && s.torn >= -1 && (s.torn == -1 ==> stale != [])
    }

    ghost predicate Running()
      reads this
    {
      OnDisk() && Writable() && Newest(files, handle, maxFiles) && nextSeq == |accepted| + 1
    }

    /** Over an empty directory; `Reopen` makes the log usable. */
    constructor (maxBytes: nat, maxFiles: nat)
      ensures OnDisk() && accepted == [] && stale == [] && files == map[]
      ensures this.maxFiles >= 2 && this.maxBytes >= 1
    {
      this.maxBytes := if maxBytes < 1 then 1 else maxBytes;
      this.maxFiles := if maxFiles < 2 then 2 else maxFiles;
      files, handle, len, nextSeq, accepted, stale := map[], Active, 0, 1, [], [];
      new;
      NoRows(this.maxFiles - 1);
    }

    // ----- file operations -----

    method Rename(a: FileName, b: FileName) returns (r: Fs)
      modifies `files, `handle
      ensures r.Ok? ==> a in old(files) && files == Moved(old(files), a, b) && handle == if old(handle) == a then b else old(handle)
      ensures r.Err? ==> files == old(files) && handle == old(handle)
      ensures r.Crash? ==>
                || (files == old(files) && handle == old(handle))
                || (a in old(files) && files == Moved(old(files), a, b) && handle == if old(handle) == a then b else old(handle))
    {
      if a !in files { return Err; }
      r := *;
      var done: bool := *;
      if r.Ok? || (r.Crash? && done) {
        files := Moved(files, a, b);
        if handle == a { handle := b; }
      }
    }

    method Remove(a: FileName) returns (r: Fs)
      modifies `files
      ensures r.Ok? ==> files == old(files) - {a}
      ensures r.Err? ==> files == old(files)
      ensures r.Crash? ==> files == old(files) || files == old(files) - {a}
    {
      if a !in files { return Err; }
      r := *;
      var done: bool := *;
      if r.Ok? || (r.Crash? && done) { files := files - {a}; }
    }

    method Create(a: FileName) returns (r: Fs)
      modifies `files
      ensures var g := if a in old(files) then old(files) else old(files)[a := Segment([], 0)];
              && (r.Ok? ==> files == g) && (r.Err? ==> files == old(files)) && (r.Crash? ==> files == old(files) || files == g)
    {
      r := *;
      var done: bool := *;
      if (r.Ok? || (r.Crash? && done)) && a !in files { files := files[a := Segment([], 0)]; }
    }

    method SyncAll() returns (r: Fs)
    {
      r := *;
    }

    // ----- rotation -----

    /** Nothing stands in the way of a rotation: no row waits to be taken back, and the newest
        file is not the one to be dropped. */
    ghost predicate Clean()
      reads this
    {
      stale == [] && handle != Rotated(maxFiles - 1)
    }

    /** Moves every file one name up, the oldest to the dropping name, and the incoming file
        to the active name. */
    method ShiftSegments(ghost f0: Files, ghost clean: bool, ghost s: Segment) returns (r: Fs)
      requires handle in files && Incoming in files && files[Incoming] == Segment([], 0) && handle != Incoming
      requires clean ==> Mid(f0, files, handle, s, maxFiles, accepted) && handle != Rotated(maxFiles - 1) && Untouched(f0, files, maxFiles)
      modifies `files, `handle
      ensures clean && r.Err? ==> Mid(f0, files, handle, s, maxFiles, accepted)
      ensures clean && !r.Err? ==> LogOk(files, maxFiles, accepted, []) && Kept(f0, files, maxFiles)
      ensures clean && r.Ok? ==> Newest(files, Active, maxFiles)
      ensures r.Ok? ==> Complete(old(files), files, maxFiles)
    {
      hide Everything, Visible, Disk, Kept, Newest, Mid, LogOk;
      hide Staged, Complete;
      ghost var g := files;
      r := DropOldest(f0, clean, s);
      if clean { MidLog(f0, files, handle, s, maxFiles, accepted); }
      if !r.Ok? { return; }
      for i := maxFiles - 1 downto 1
        invariant clean ==> Mid(f0, files, handle, s, maxFiles, accepted)
        invariant Staged(g, files, maxFiles, i)
      {
        StageStep(g, files, maxFiles, i);
        if Rotated(i) in files {
          if clean { MidSlide(f0, files, handle, s, Rotated(i), Rotated(i + 1), maxFiles, accepted); }
          r := Rename(Rotated(i), Rotated(i + 1));
          if clean { MidLog(f0, files, handle, s, maxFiles, accepted); }
          if !r.Ok? { return; }
        }
      }
      StageEnd(g, files, maxFiles);
      if Active in files {
        if clean { MidSlide(f0, files, handle, s, Active, Rotated(1), maxFiles, accepted); }
        r := Rename(Active, Rotated(1));
        if clean { MidLog(f0, files, handle, s, maxFiles, accepted); }
        if !r.Ok? { return; }
      }
      if clean { MidLog(f0, files, handle, s, maxFiles, accepted); }
      if clean { MidEnd(f0, files, handle, s, maxFiles, accepted); }
      r := Rename(Incoming, Active);
    }

    method DropOldest(ghost f0: Files, ghost clean: bool, ghost s: Segment) returns (r: Fs)
      requires clean ==> Mid(f0, files, handle, s, maxFiles, accepted) && handle != Rotated(maxFiles - 1) && Untouched(f0, files, maxFiles)
      modifies `files, `handle
      ensures clean ==> Mid(f0, files, handle, s, maxFiles, accepted)
      ensures r.Ok? ==> Staged(old(files), files, maxFiles, maxFiles - 1)
    {
      hide Everything, Visible, Disk, Mid, LogOk, Kept, Staged;
      var oldest := maxFiles - 1;
      StageStart(files, files, maxFiles);
      StageStart(files, files - {Dropping}, maxFiles);
      if Rotated(oldest) !in files { return Ok; }
      EverythingSize(files, maxFiles);
      if Dropping in files {
        if clean { MidRemove(f0, files, handle, s, maxFiles, accepted); }
        r := Remove(Dropping);
        if !r.Ok? { return; }
      }
      if clean { MidDrop(f0, files, handle, s, maxFiles, accepted); }
      r := Rename(Rotated(oldest), Dropping);
    }

    /** Undoes what can be undone, best effort: any part of it may fail. */
    method AbortRotate(ghost f0: Files, ghost clean: bool, ghost s: Segment) returns (r: Fs)
      requires clean ==> Mid(f0, files, handle, s, maxFiles, accepted)
      modifies `files, `handle
      ensures clean ==> Mid(f0, files, handle, s, maxFiles, accepted)
      ensures !r.Err?
    {
      hide Everything, Visible, Disk, Kept, Mid, LogOk;
      if Active !in files {
        if clean && Rotated(1) in files { MidSlide(f0, files, handle, s, Rotated(1), Active, maxFiles, accepted); }
        r := Rename(Rotated(1), Active);
        if r.Crash? { return; }
      }
      if Incoming in files {
        if clean { MidIncoming(f0, files, handle, s, maxFiles, accepted); }
        r := Remove(Incoming);
        if r.Crash? { return; }
      }
      if Dropping in files && Rotated(maxFiles - 1) !in files {
        if clean { MidUndrop(f0, files, handle, s, maxFiles, accepted); }
        r := Rename(Dropping, Rotated(maxFiles - 1));
        if r.Crash? { return; }
      }
      r := Ok;
    }

    /** Starts a new active file. When nothing stands in its way, then however it ends at most
        the oldest rotated file is lost and, unless it crashed, the log goes on: on the new
        file, on the old one, or on the old one under a rotated name. */
    method Rotate() returns (r: Fs)
      requires Running() && len > 0
      modifies `files, `handle, `len, `stale
      ensures old(Clean()) ==> OnDisk() && stale == [] && Kept(old(files), files, maxFiles)
      ensures old(Clean()) && !r.Crash? ==> Running()
      ensures stale == [] || stale == old(stale)
      ensures r.Ok? ==> Writable() && handle == Active && len == 0 && stale == []
      ensures r.Ok? ==> Complete(old(files), files, maxFiles)
    {
      hide Everything, Visible, Disk, Kept, Newest, LogOk, Mid, Complete;
      ghost var f0, clean, s := files, Clean(), files[handle];
      SameKept(files, maxFiles);
      NewestActive(files, handle, maxFiles);
      if clean {
        assert s.rows[..|s.rows|] == s.rows;
        RowsThere(s.rows);
      }
      r := SyncAll();
      if !r.Ok? { return; }
      r := MakeIncoming();
      NewestActive(files, handle, maxFiles);
      SameFile(f0, files, handle);
      if !r.Ok? { return; }
      r := SyncAll();
      if !r.Ok? { return; }
      ghost var g := files;
      if clean { MidStart(f0, files, handle, maxFiles, accepted); }
      r := MoveNames(f0, clean, s);
      if !r.Ok? {
        if clean && r.Err? {
          MidLog(f0, files, handle, s, maxFiles, accepted);
          NewestActive(files, handle, maxFiles);
        }
        return;
      }
      CompleteFrom(f0, g, files, maxFiles);
      handle := Active;
      len := 0;
      stale := [];
      FreshFile(files, f0, maxFiles);
      AllKept(files[Active], 0);
      r := SyncAll();
      if !r.Ok? { return; }
      if clean { DroppedFacts(f0, files, maxFiles, accepted); }
      WithoutDropping(f0, files, maxFiles);
      var dropped := Remove(Dropping);
      r := if dropped.Crash? then Crash else Ok;
    }

    /** The renames, undone as far as possible when one of them fails. */
    method MoveNames(ghost f0: Files, ghost clean: bool, ghost s: Segment) returns (r: Fs)
      requires handle in files && Incoming in files && files[Incoming] == Segment([], 0) && handle != Incoming
      requires clean ==> Mid(f0, files, handle, s, maxFiles, accepted) && handle != Rotated(maxFiles - 1) && Untouched(f0, files, maxFiles)
      modifies `files, `handle
      ensures clean && r.Err? ==> Mid(f0, files, handle, s, maxFiles, accepted)
      ensures clean && !r.Err? ==> LogOk(files, maxFiles, accepted, []) && Kept(f0, files, maxFiles)
      ensures clean && r.Ok? ==> Newest(files, Active, maxFiles)
      ensures r.Ok? ==> Complete(old(files), files, maxFiles)
    {
      hide Everything, Visible, Disk, Kept, Newest, LogOk, Mid, Complete;
      r := ShiftSegments(f0, clean, s);
      if r.Err? {
        r := AbortRotate(f0, clean, s);
        if clean { MidLog(f0, files, handle, s, maxFiles, accepted); }
        return if r.Crash? then Crash else Err;
      }
    }

    method MakeIncoming() returns (r: Fs)
      requires OnDisk() && Newest(files, handle, maxFiles)
      modifies `files
      ensures OnDisk() && Newest(files, handle, maxFiles) && Untouched(old(files), files, maxFiles) && Kept(old(files), files, maxFiles)
      ensures r.Ok? ==> Incoming in files && files[Incoming] == Segment([], 0)
      ensures forall a: FileName :: a != Incoming ==> Get(files, a) == Get(old(files), a)
    {
      hide Everything, Visible, Disk, Kept, LogOk, Newest, Untouched;
      ghost var f0 := files;
      SameKept(files, maxFiles);
      SameUntouched(files, maxFiles);
      IncomingLog(f0, files, handle, maxFiles, accepted, stale);
      if Incoming in files {
        r := Remove(Incoming);
        if !r.Ok? { return; }
        IncomingLog(f0, files, handle, maxFiles, accepted, stale);
      }
      r := Create(Incoming);
    }

    // ----- appending -----

    /** Whether the line already stands at the end of the active file. */
    method TailMatches(row: Row) returns (r: Fs, same: bool)
      requires Writable() && row.size > 1
      ensures same <==> handle == Active && stale == [row] && files[Active].torn == 0
    {
      r := *;
      if Active !in files { return r, false; }
      var s := files[Active];
      var n := |s.rows| - 1;
      same := s.torn == 0 && s.rows != [] && s.rows[n] == row && RowsSize(s.rows[..n]) == len;
      TailFacts(s, stale, len, row);
    }

    /** Cuts whatever stands behind the acknowledged rows. */
    method RewindTo() returns (r: Fs)
      requires Writable()
      modifies `files, `stale
      ensures accepted == old(accepted) && Writable() && (stale == [] || stale == old(stale))
      ensures old(Running()) ==> Running() && |Visible(files, maxFiles)| - |stale| == old(|Visible(files, maxFiles)| - |stale|)
      ensures old(handle) == handle && (r.Ok? ==> stale == [] && files[handle].torn == 0)
      ensures Dropping in files <==> Dropping in old(files)
    {
      hide Everything, Visible, Disk, LogOk, Newest, Split;
      ghost var running := Running();
      var s := files[handle];
      RewindFacts(s, stale, len);
      var keep := if RowsSize(s.rows) == len then s.rows else s.rows[..|s.rows| - 1];
      if |keep| == |s.rows| && s.torn == 0 { return Ok; }
      if running { RewindLog(files, handle, maxFiles, accepted, stale, keep); }
      RewoundFile(s, stale, len);
      r := *;
      var done: bool := *;
      if r.Ok? || done {
        files := files[handle := Segment(keep, 0)];
        stale := [];
      }
    }

    /** Writes a line behind the acknowledged rows, or takes back what was written of it. */
    method CommitLine(row: Row) returns (r: Fs)
      requires Writable() && row.size > 1 && (Running() ==> row.number == nextSeq)
      modifies `files, `accepted, `stale
      ensures r.Ok? ==> accepted == old(accepted) + [row] && stale == []
      ensures !r.Ok? ==> accepted == old(accepted) && (stale == [] || stale == [row] || stale == old(stale))
      ensures handle in files && (r.Ok? ==> files[handle].torn == 0 && RowsSize(files[handle].rows) == len + row.size)
      ensures old(Running()) ==>
                && OnDisk() && Newest(files, handle, maxFiles) && (!r.Ok? ==> Running())
                && |Visible(files, maxFiles)| - |accepted| - |stale| == old(|Visible(files, maxFiles)| - |accepted| - |stale|)
      ensures Active in files <==> handle == Active
    {
      hide Everything, Visible, Disk, LogOk, RotatedRows, Newest, Split;
      ghost var running := Running();
      var same;
      r, same := TailMatches(row);
      if !r.Ok? { return; }
      if same {
        Promote(row, running);
        return Ok;
      }
      r := RewindTo();
      if !r.Ok? { return; }
      r := WriteLine(row, running);
      if r.Ok? {
        Promote(row, running);
        return;
      }
      if r.Crash? { return; }
      var r2;
      r2, same := TailMatches(row);
      if !r2.Ok? { return r2; }
      if same {
        Promote(row, running);
        return Ok;
      }
      r2 := RewindTo();
      r := if r2.Crash? then Crash else Err;
    }

    /** As much of a line as the file system takes. */
    method WriteLine(row: Row, ghost running: bool) returns (r: Fs)
      requires Writable() && stale == [] && files[handle].torn == 0 && row.size > 1
      requires running ==> Running() && row.number == nextSeq
      modifies `files, `stale
      ensures Writable() && (stale == [] || stale == [row]) && (r.Ok? ==> stale == [row] && files[handle].torn == 0)
      ensures running ==> Running() && |Visible(files, maxFiles)| - |stale| == old(|Visible(files, maxFiles)|)
      ensures Dropping in files <==> Dropping in old(files)
    {
      hide Everything, Visible, Disk, LogOk, RotatedRows, Newest, Split;
      r := *;
      var written: nat := *;
      if r.Ok? || written > row.size { written := row.size; }
      var s := files[handle];
      WholeFile(s, len);
      if running { WriteLog(files, handle, maxFiles, accepted, row, written); }
      WrittenFile(s, row, written);
      WrittenTorn(s, row, written);
      files := files[handle := WrittenTo(s, row, written)];
      stale := LeftBehind(row, written);
    }

    /** The line that stands whole behind the acknowledged rows is acknowledged. */
    ghost method Promote(row: Row, running: bool)
      requires Writable() && stale == [row] && files[handle].torn == 0 && (running ==> Running())
      modifies `accepted, `stale
      ensures accepted == old(accepted) + [row] && stale == []
      ensures running ==> OnDisk()
      ensures RowsSize(files[handle].rows) == len + row.size
    {
      hide Everything, Visible, Disk, LogOk, Newest, Split;
      if running { PromoteAll(files, maxFiles, accepted, stale); }
      SplitSize(files[handle], stale, len);
      accepted := accepted + [row];
      stale := [];
    }

    /** Adds one row. When it need not rotate, or nothing stands in the way of rotating:
        success means that the row has the next number and is the newest; failure and crash
        acknowledge nothing, and leave at most this one row on disk whole; unless it crashed
        the log goes on; and at most the oldest rotated file is lost, and only by rotating. */
    method Append(detail: string, size: nat) returns (r: Fs)
      requires Running() && size > 1
      modifies this
      ensures var row := Row(old(nextSeq), detail, size);
              && (r.Ok? ==> accepted == old(accepted) + [row] && stale == [])
              && (!r.Ok? ==> accepted == old(accepted) && (stale == [] || stale == [row] || stale == old(stale)))
      ensures var rotates := old(len > 0 && len + size > maxBytes);
              rotates ==> old(Clean()) ==>
                && OnDisk() && (!r.Crash? ==> Running()) && Suffix(Visible(files, maxFiles), accepted + stale)
                && |accepted + stale| <= |Visible(files, maxFiles)| + (|old(accepted)| - |old(Visible(files, maxFiles))|)
                                         + |old(RowsAt(files, Rotated(maxFiles - 1)))|
      ensures var rotates := old(len > 0 && len + size > maxBytes);
              !rotates ==>
                && OnDisk() && (!r.Crash? ==> Running()) && Suffix(Visible(files, maxFiles), accepted + stale)
                && |accepted + stale| - |Visible(files, maxFiles)| == |old(accepted + stale)| - |old(Visible(files, maxFiles))|
    {
      hide Everything, Visible, Disk, Kept, RotatedRows, Suffix, Newer, LogOk, Newest, Complete, Split;
      ghost var f0, sound := files, true;
      if len > 0 && len + size > maxBytes {
        sound := Clean();
        r := Rotate();
        if sound {
          LogKept(f0, files, maxFiles, accepted);
          LogSuffix(files, maxFiles, accepted, stale);
        }
        if !r.Ok? { return; }
      }
      r := CommitLine(Row(nextSeq, detail, size));
      if sound { LogSuffix(files, maxFiles, accepted, stale); }
      if r.Ok? {
        len := len + size;
        nextSeq := nextSeq + 1;
        AllKept(files[handle], len);
      }
    }

    // ----- opening -----

    /** Opens the log over whatever a crash left. Nothing visible is lost but a last line that
        lacks its newline; a whole row that was never acknowledged now counts; and numbering goes
        on after the last row that is kept. */
    method Reopen() returns (r: Fs)
      requires OnDisk()
      modifies this
      ensures OnDisk() && (accepted == old(accepted) || accepted == old(accepted + stale))
      ensures r.Ok? ==> Running() && stale == []
      ensures Suffix(old(Visible(files, maxFiles)), Visible(files, maxFiles))
              || (old(stale) != [] && old(Visible(files, maxFiles)) != []
                  && Suffix(old(Visible(files, maxFiles))[..|old(Visible(files, maxFiles))| - 1], Visible(files, maxFiles)))
    {
      hide Everything, Visible, Disk, RotatedRows, LogOk, Suffix;
      r := RecoverIncomplete();
      if !r.Ok? { return; }
      ghost var v := Visible(files, maxFiles);
      r := RepairTail();
      if Visible(files, maxFiles) != v { CutSuffix(old(Visible(files, maxFiles)), v); }
      if !r.Ok? { return; }
      r := OpenActive();
    }

    /** Takes every whole row for acknowledged, numbers on after the greatest, and opens the
        active file. */
    method OpenActive() returns (r: Fs)
      requires OnDisk() && (Active in files ==> files[Active].torn == 0)
      modifies this
      ensures OnDisk() && accepted == old(accepted + stale) && stale == []
      ensures Visible(files, maxFiles) == old(Visible(files, maxFiles))
      ensures r.Ok? ==> Running()
    {
      hide Everything, Visible, Disk, RotatedRows, LogOk, Split;
      len := if Active in files then RowsSize(files[Active].rows) else 0;
      PromoteAll(files, maxFiles, accepted, stale);
      accepted := accepted + stale;
      stale := [];
      var last := MaxSeq();
      nextSeq := last + 1;
      CreateFacts(files, maxFiles, accepted);
      r := Create(Active);
      handle := Active;
      if r.Ok? { AllKept(files[Active], len); }
    }

    /** Shortens the active file by a last line without a newline. */
    method RepairTail() returns (r: Fs)
      requires OnDisk()
      modifies `files, `stale
      ensures OnDisk() && (stale == old(stale) || stale == [])
      ensures r.Ok? ==> (Active in files ==> files[Active].torn == 0)
      ensures Visible(files, maxFiles) == old(Visible(files, maxFiles))
              || (old(stale) != [] && old(Visible(files, maxFiles)) != []
                  && Visible(files, maxFiles) == old(Visible(files, maxFiles))[..|old(Visible(files, maxFiles))| - 1])
    {
      hide Everything, Visible, Disk, RotatedRows, LogOk;
      if Active !in files || files[Active].torn == 0 { return Ok; }
      r := *;
      var done: bool := *;
      RepairFacts(files, maxFiles, accepted, stale);
      if r.Ok? || done {
        var s := files[Active];
        if s.torn < 0 { stale := []; }
        files := files[Active := Repaired(s)];
      }
    }

    method RecoverIncomplete() returns (r: Fs)
      requires OnDisk()
      modifies `files, `handle
      ensures OnDisk() && Suffix(old(Visible(files, maxFiles)), Visible(files, maxFiles))
      ensures r.Ok? ==> Incoming !in files && Dropping !in files
    {
      hide Everything, Visible, Disk, Kept, RotatedRows, LogOk;
      VisibleSame(files, maxFiles);
      RecoverFacts(files, maxFiles, accepted, stale);
      if Incoming in files {
        r := Remove(Incoming);
        if !r.Ok? { return; }
        RecoverFacts(files, maxFiles, accepted, stale);
      }
      if Dropping !in files { return Ok; }
      if Rotated(maxFiles - 1) in files {
        r := Remove(Dropping);
      } else {
        r := Rename(Dropping, Rotated(maxFiles - 1));
      }
    }

    // ----- reading -----

    method FilesOldestFirst() returns (names: seq<FileName>)
      ensures RowsOf(files, names) == Visible(files, maxFiles)
      ensures forall i :: 0 <= i < |names| ==> names[i] in files
      ensures if names == [] then forall h :: !Newest(files, h, maxFiles) else Newest(files, names[|names| - 1], maxFiles)
    {
      hide RowsOf, RotatedRows, RowsAt;
      names := [];
      ListingStart(files, 0);
      for i := maxFiles downto 1
        invariant RowsOf(files, names) + RotatedRows(files, i - 1) == RotatedRows(files, maxFiles - 1)
        invariant forall i :: 0 <= i < |names| ==> names[i] in files
        invariant names != [] ==> names[|names| - 1].Rotated? && i <= names[|names| - 1].index < maxFiles
        invariant forall k :: i <= k < (if names == [] then maxFiles else names[|names| - 1].index) ==> Rotated(k) !in files
      {
        RotatedStep(files, i);
        OneMoreFile(files, names, Rotated(i));
        if Rotated(i) in files { names := names + [Rotated(i)]; }
      }
      RotatedStep(files, 0);
      OneMoreFile(files, names, Active);
      if Active in files { names := names + [Active]; }
    }

    /** The greatest number readable: the last row ever written. */
    method MaxSeq() returns (m: nat)
      requires OnDisk()
      ensures m == |accepted + stale|
    {
      hide Visible, LogOk, RowsOf, Greatest;
      var names := FilesOldestFirst();
      m := 0;
      assert names[..0] == [];
      NoneGreatest(files);
      for k := 0 to |names|
        invariant Greatest(RowsOf(files, names[..k]), m)
      {
        var rows := files[names[k]].rows;
        ghost var before := RowsOf(files, names[..k]);
        assert before + rows[..0] == before;
        for i := 0 to |rows|
          invariant Greatest(before + rows[..i], m)
        {
          GreatestStep(before + rows[..i], rows[i], m);
          assert before + rows[..i] + [rows[i]] == before + rows[..i + 1];
          if rows[i].number > m { m := rows[i].number; }
        }
        assert rows[..|rows|] == rows;
        FileInListing(files, names, k);
      }
      assert names[..|names|] == names;
      MaxIsLast(files, maxFiles, accepted, stale, m);
    }

    /** What one file adds to a page, `glance` being its content when its last number is looked
        up and `body` its content when it is read: a file whose last row is not above the
        cursor is passed over unread. */
    method PageFile(read: seq<Row>, ghost before: seq<Row>, glance: Segment, body: Segment, cursor: nat, limit: nat)
      returns (page: seq<Row>, ghost seen: Segment)
      requires read == Newer(before, cursor) && |read| < limit && Ascending(glance.rows)
      ensures (seen == glance || seen == body) && |page| <= limit
      ensures page == Take(Newer(before + seen.rows, cursor), limit)
      ensures |page| < limit ==> page == Newer(before + seen.rows, cursor)
    {
      hide FirstWithin, Newer, Ascending;
      page, seen := read, glance;
      var last := TrailingSeq(glance);
      NewerConcat(before, glance.rows, cursor);
      if last.Some? && last.value <= cursor {
        SkippedFile(glance, last.value, cursor);
        return;
      }
      seen := body;
      NoRowsRead(cursor);
      assert body.rows[..0] == [];
      for i := 0 to |body.rows|
        invariant page == read + Newer(body.rows[..i], cursor) && |page| < limit
      {
        NewerStep(body.rows, i, cursor);
        if body.rows[i].number > cursor {
          page := page + [body.rows[i]];
          if |page| == limit {
            FullPage(before, body.rows, i + 1, cursor, limit);
            return;
          }
        }
      }
      assert body.rows[..|body.rows|] == body.rows;
      NewerConcat(before, body.rows, cursor);
    }

    /** Rows above the cursor, oldest first, at most `limit`. The lock is given back once the
        files are opened, so appends may change the newest of them before its last number is
        looked up (`glance`) and again before it is read (`body`): the page is then that of the
        files opened, with one of these contents of the newest. */
    method Page(cursor: nat, limit: nat, glance: Segment, body: Segment) returns (page: seq<Row>)
      requires OnDisk() && Ascending(glance.rows)
      ensures forall h :: Newest(files, h, maxFiles) ==>
                || page == Take(Newer(Older(files, h, maxFiles) + glance.rows, cursor), limit)
                || page == Take(Newer(Older(files, h, maxFiles) + body.rows, cursor), limit)
      ensures (forall h :: Newest(files, h, maxFiles) ==> glance == body == files[h]) ==>
                page == Take(Newer(Visible(files, maxFiles), cursor), limit)
    {
      hide Disk, RowsOf, Newer, Visible, Ascending, Older, Newest;
      NoRowsRead(cursor);
      page := [];
      if limit == 0 { return; }
      var names := FilesOldestFirst();
      ListingStart(files, cursor);
      if names == [] { return; }
      ghost var h, older := names[|names| - 1], Older(files, names[|names| - 1], maxFiles);
      OlderListed(files, names, maxFiles);
      OneNewest(files, h, maxFiles);
      assert names[..0] == [];
      for k := 0 to |names| - 1
        invariant page == Newer(RowsOf(files, names[..k]), cursor) && |page| < limit
      {
        ghost var before := RowsOf(files, names[..k]);
        FileAscending(files, maxFiles, accepted + stale, names, k);
        ghost var seen;
        page, seen := PageFile(page, before, files[names[k]], files[names[k]], cursor, limit);
        FileInListing(files, names, k);
        if |page| == limit {
          PageEnds(files, names, k, glance.rows, cursor, limit);
          PageEnds(files, names, k, body.rows, cursor, limit);
          PageEnds(files, names, k, files[h].rows, cursor, limit);
          return;
        }
      }
      ghost var seen;
      page, seen := PageFile(page, older, glance, body, cursor, limit);
    }
  }

  // ----- lemmas of appending and opening -----

  lemma RowsThere(rows: seq<Row>)
    ensures RowsSize(rows) > 0 ==> rows != []
  {}

  lemma SameUntouched(f: Files, n: nat)
    requires n >= 2
    ensures Untouched(f, f, n)
  {}

  lemma FreshFile(f: Files, f0: Files, n: nat)
    requires Complete(f0, f, n)
    ensures Active in f && f[Active] == Segment([], 0)
  {
    assert Get(f, Active) == RotatedTo(f0, n, Active);
  }

  lemma WithoutDropping(f0: Files, f: Files, n: nat)
    requires Complete(f0, f, n)
    ensures Complete(f0, f - {Dropping}, n)
  {
    forall a: FileName | a != Dropping ensures Get(f - {Dropping}, a) == RotatedTo(f0, n, a) {
      assert Get(f, a) == RotatedTo(f0, n, a);
    }
  }

  lemma NewestActive(f: Files, h: FileName, n: nat)
    requires Newest(f, h, n)
    ensures h in f && h != Incoming && h != Dropping && (Active in f <==> h == Active)
  {}

  lemma IncomingLog(f0: Files, f: Files, h: FileName, n: nat, accepted: seq<Row>, stale: seq<Row>)
    requires n >= 2 && LogOk(f, n, accepted, stale) && Newest(f, h, n) && Untouched(f0, f, n)
    ensures var g := f - {Incoming}; LogOk(g, n, accepted, stale) && Newest(g, h, n) && Untouched(f0, g, n) && Kept(f0, g, n)
    ensures var g := f[Incoming := Segment([], 0)];
            LogOk(g, n, accepted, stale) && Newest(g, h, n) && Untouched(f0, g, n) && Kept(f0, g, n)
  {
    hide Visible, Everything, Disk, Kept;
    SameKept(f, n);
    IncomingFacts(f, f, n, accepted + stale);
    RemoveKeeps(f, n);
    OtherKeeps(f, Segment([], 0), n);
    UntouchedKept(f0, f - {Incoming}, n);
    UntouchedKept(f0, f[Incoming := Segment([], 0)], n);
  }

  /** The file that is written to: acknowledged rows, `len` bytes in all, then at most one more. */
  ghost predicate Split(s: Segment, stale: seq<Row>, len: nat)
  {
    && |stale| <= 1 && |stale| <= |s.rows| && s.rows[|s.rows| - |stale|..] == stale
    && len == RowsSize(s.rows[..|s.rows| - |stale|]) && (stale != [] ==> stale[0].size > 1)
  }

  lemma SplitSize(s: Segment, stale: seq<Row>, len: nat)
    requires Split(s, stale, len)
    ensures RowsSize(s.rows) == len + if stale == [] then 0 else stale[0].size
    ensures s.rows == s.rows[..|s.rows| - |stale|] + stale
  {
    if stale == [] {
      assert s.rows[..|s.rows|] == s.rows;
    } else {
      assert s.rows[|s.rows| - 1] == stale[0];
    }
  }

  lemma TailFacts(s: Segment, stale: seq<Row>, len: nat, row: Row)
    requires Split(s, stale, len) && row.size > 1
    ensures s.rows != [] && s.rows[|s.rows| - 1] == row && RowsSize(s.rows[..|s.rows| - 1]) == len <==> stale == [row]
  {
    SplitSize(s, stale, len);
    if stale != [] { assert s.rows[|s.rows| - 1] == stale[0] && stale == [stale[0]]; }
  }

  lemma RewindFacts(s: Segment, stale: seq<Row>, len: nat)
    requires Split(s, stale, len)
    ensures RowsSize(s.rows) == len <==> stale == []
    ensures |s.rows| >= |stale| && s.rows == s.rows[..|s.rows| - |stale|] + stale
    ensures s.rows[..|s.rows| - |stale|] == if stale == [] then s.rows else s.rows[..|s.rows| - 1]
  {
    SplitSize(s, stale, len);
  }

  lemma RewoundFile(s: Segment, stale: seq<Row>, len: nat)
    requires Split(s, stale, len)
    ensures |s.rows| >= |stale| && Split(Segment(s.rows[..|s.rows| - |stale|], 0), [], len)
  {
    var keep := s.rows[..|s.rows| - |stale|];
    assert keep[..|keep|] == keep;
  }

  lemma RewindLog(f: Files, h: FileName, n: nat, accepted: seq<Row>, stale: seq<Row>, keep: seq<Row>)
    requires n >= 2 && LogOk(f, n, accepted, stale) && Newest(f, h, n) && f[h].rows == keep + stale
    ensures var g := f[h := Segment(keep, 0)];
            LogOk(g, n, accepted, []) && Newest(g, h, n) && |Visible(g, n)| == |Visible(f, n)| - |stale|
            && Visible(f, n) == Visible(g, n) + stale
  {
    hide Visible, RotatedRows, Above, Older, Everything, Numbered;
    var g := f[h := Segment(keep, 0)];
    NewestSet(f, h, Segment(keep, 0), n);
    NewestLast(f, h, n);
    NewestActive(f, h, n);
    EverythingOf(f, n);
    var front := RowsAt(f, Dropping) + Older(f, h, n) + keep;
    assert Visible(f, n) == Older(f, h, n) + keep + stale;
    assert Everything(f, n) == front + stale;
    ShorterSuffix(front, accepted, stale);
    LogClean(g, n, accepted);
  }

  lemma EverythingOf(f: Files, n: nat)
    requires n >= 2
    ensures Everything(f, n) == RowsAt(f, Dropping) + Visible(f, n)
  {}

  lemma ShorterSuffix(a: seq<Row>, b: seq<Row>, c: seq<Row>)
    requires Suffix(a + c, b + c) && Numbered(b + c)
    ensures Suffix(a, b) && Numbered(b)
  {
    assert (b + c)[|b| - |a|..] == b[|b| - |a|..] + c;
    assert (a + c)[..|a|] == a && (b[|b| - |a|..] + c)[..|a|] == b[|b| - |a|..];
    forall i | 0 <= i < |b| ensures b[i].number == i + 1 { assert (b + c)[i] == b[i]; }
  }

  lemma LongerSuffix(a: seq<Row>, b: seq<Row>, row: Row)
    requires Suffix(a, b) && Numbered(b) && row.number == |b| + 1
    ensures Suffix(a + [row], b + [row]) && Numbered(b + [row])
  {
    assert (b + [row])[|b| - |a|..] == b[|b| - |a|..] + [row];
  }

  /** What stands in a file after `written` bytes of a row's line. */
  function WrittenTo(s: Segment, row: Row, written: nat): Segment
  {
    if written >= row.size then Segment(s.rows + [row], 0)
    else if written + 1 == row.size then Segment(s.rows + [row], -1)
    else Segment(s.rows, written)
  }

  function LeftBehind(row: Row, written: nat): seq<Row> { if written + 1 >= row.size then [row] else [] }

  lemma WriteLog(f: Files, h: FileName, n: nat, accepted: seq<Row>, row: Row, written: nat)
    requires n >= 2 && LogOk(f, n, accepted, []) && Newest(f, h, n) && row.number == |accepted| + 1
    ensures var g, more := f[h := WrittenTo(f[h], row, written)], LeftBehind(row, written);
            LogOk(g, n, accepted, more) && Newest(g, h, n) && |Visible(g, n)| == |Visible(f, n)| + |more|
  {
    hide Visible, RotatedRows, Above, Older, Everything, Suffix, Numbered;
    var s, more := WrittenTo(f[h], row, written), LeftBehind(row, written);
    var g := f[h := s];
    NewestSet(f, h, s, n);
    NewestLast(f, h, n);
    NewestActive(f, h, n);
    EverythingOf(f, n);
    LogClean(f, n, accepted);
    assert s.rows == f[h].rows + more;
    assert Visible(g, n) == Visible(f, n) + more;
    assert Everything(g, n) == Everything(f, n) + more;
    if more == [] {
      assert accepted + more == accepted && Everything(f, n) + more == Everything(f, n);
    } else {
      LongerSuffix(Everything(f, n), accepted, row);
    }
  }

  lemma WrittenTorn(s: Segment, row: Row, written: nat)
    ensures var g := WrittenTo(s, row, written);
            g.torn >= -1 && (g.torn == -1 ==> LeftBehind(row, written) != []) && (written >= row.size ==> g.torn == 0)
  {}

  lemma WholeFile(s: Segment, len: nat)
    requires Split(s, [], len)
    ensures len == RowsSize(s.rows)
  {
    SplitSize(s, [], len);
  }

  lemma AllKept(s: Segment, len: nat)
    requires len == RowsSize(s.rows)
    ensures Split(s, [], len)
  {
    assert s.rows[..|s.rows|] == s.rows;
  }

  lemma WrittenFile(s: Segment, row: Row, written: nat)
    requires row.size > 1
    ensures Split(WrittenTo(s, row, written), LeftBehind(row, written), RowsSize(s.rows))
  {
    assert s.rows[..|s.rows|] == s.rows;
    if written + 1 >= row.size { assert (s.rows + [row])[..|s.rows|] == s.rows; }
  }

  lemma PromoteAll(f: Files, n: nat, accepted: seq<Row>, stale: seq<Row>)
    requires n >= 2 && LogOk(f, n, accepted, stale) && (Active in f ==> f[Active].torn != -1)
    ensures LogOk(f, n, accepted + stale, [])
  {
    hide Visible, Everything;
    LogClean(f, n, accepted + stale);
  }

  lemma LogSuffix(f: Files, n: nat, accepted: seq<Row>, stale: seq<Row>)
    requires n >= 2 && LogOk(f, n, accepted, stale)
    ensures Suffix(Visible(f, n), accepted + stale)
  {
    VisibleSuffix(f, n, accepted + stale);
  }

  lemma LogKept(f: Files, g: Files, n: nat, accepted: seq<Row>)
    requires n >= 2 && LogOk(g, n, accepted, []) && Kept(f, g, n)
    ensures |Visible(f, n)| <= |Visible(g, n)| + |RowsAt(f, Rotated(n - 1))|
  {
    hide Disk, Kept, Visible;
    LogClean(g, n, accepted);
    KeptCount(f, g, n, accepted);
  }

  function Repaired(s: Segment): Segment
    requires s.torn < 0 ==> s.rows != []
  {
    Segment(if s.torn < 0 then s.rows[..|s.rows| - 1] else s.rows, 0)
  }

  /** Cutting a torn last line; one that lacks only its newline is the row that was never
      acknowledged. */
  lemma RepairFacts(f: Files, n: nat, accepted: seq<Row>, stale: seq<Row>)
    requires n >= 2 && LogOk(f, n, accepted, stale) && Active in f && f[Active].torn != 0
    ensures f[Active].torn < 0 ==> f[Active].rows != [] && stale != [] && Visible(f, n) != []
    ensures var g := f[Active := Repaired(f[Active])];
            if f[Active].torn < 0 then LogOk(g, n, accepted, []) && Visible(g, n) == Visible(f, n)[..|Visible(f, n)| - 1]
            else LogOk(g, n, accepted, stale) && Visible(g, n) == Visible(f, n)
  {
    hide Visible, Everything;
    var s := f[Active];
    assert Newest(f, Active, n);
    NewestLast(f, Active, n);
    NewestSet(f, Active, Repaired(s), n);
    EverythingOf(f, n);
    EverythingOf(f[Active := Repaired(s)], n);
    if s.torn < 0 {
      var keep := s.rows[..|s.rows| - 1];
      LastIsStale(Everything(f, n), accepted, stale);
      assert Everything(f, n)[|Everything(f, n)| - 1] == s.rows[|s.rows| - 1];
      assert s.rows == keep + stale;
      RewindLog(f, Active, n, accepted, stale, keep);
    }
  }

  lemma CutSuffix(v: seq<Row>, w: seq<Row>)
    requires Suffix(v, w) && w != []
    ensures if v == [] then Suffix(v, w[..|w| - 1]) else Suffix(v[..|v| - 1], w[..|w| - 1])
  {
    if v != [] { assert w[..|w| - 1][|w| - |v|..] == w[|w| - |v|..][..|v| - 1]; }
  }

  lemma LastIsStale(all: seq<Row>, accepted: seq<Row>, stale: seq<Row>)
    requires Suffix(all, accepted + stale) && all != [] && |stale| == 1
    ensures all[|all| - 1] == stale[0]
  {}

  lemma CreateFacts(f: Files, n: nat, accepted: seq<Row>)
    requires n >= 2 && LogOk(f, n, accepted, [])
    ensures var g := f[Active := Segment([], 0)];
            Active !in f ==> Visible(g, n) == Visible(f, n) && LogOk(g, n, accepted, [])
  {
    hide RotatedRows;
    OtherKeeps(f, Segment([], 0), n);
    LogClean(f, n, accepted);
    LogClean(f[Active := Segment([], 0)], n, accepted);
  }

  lemma RecoverFacts(f: Files, n: nat, accepted: seq<Row>, stale: seq<Row>)
    requires n >= 2 && LogOk(f, n, accepted, stale)
    ensures LogOk(f - {Incoming}, n, accepted, stale) && Visible(f - {Incoming}, n) == Visible(f, n)
    ensures LogOk(f - {Dropping}, n, accepted, stale) && Visible(f - {Dropping}, n) == Visible(f, n)
    ensures Dropping in f && Rotated(n - 1) !in f ==>
              var g := Moved(f, Dropping, Rotated(n - 1)); LogOk(g, n, accepted, stale) && Suffix(Visible(f, n), Visible(g, n))
  {
    hide Visible, Everything, Disk, Kept;
    SameKept(f, n);
    IncomingFacts(f, f, n, accepted + stale);
    RemoveFacts(f, f, n, accepted + stale);
    if Dropping in f && Rotated(n - 1) !in f {
      UndropFacts(f, f, n, accepted + stale);
      VisibleLast(f, n);
    }
  }

  lemma VisibleSuffix(f: Files, n: nat, ever: seq<Row>)
    requires Disk(f, n, ever)
    ensures Suffix(Visible(f, n), ever)
  {
    SuffixTail(RowsAt(f, Dropping), Visible(f, n));
    SuffixTrans(Visible(f, n), Everything(f, n), ever);
  }

  lemma VisibleSame(f: Files, n: nat)
    requires n >= 2
    ensures Suffix(Visible(f, n), Visible(f, n)) && Suffix(Visible(f, n), Everything(f, n))
  {
    SuffixTail(RowsAt(f, Dropping), Visible(f, n));
  }

  lemma VisibleLast(f: Files, n: nat)
    requires n >= 2
    ensures Suffix(Visible(f, n), Everything(f, n))
  {
    VisibleSame(f, n);
  }

  lemma KeptCount(f: Files, g: Files, n: nat, ever: seq<Row>)
    requires Disk(g, n, ever) && Kept(f, g, n)
    ensures |Visible(f, n)| <= |Visible(g, n)| + |RowsAt(f, Rotated(n - 1))|
    ensures Suffix(Visible(g, n), ever)
  {
    VisibleSuffix(g, n, ever);
  }

  // ----- lemmas of reading -----

  ghost predicate Greatest(rows: seq<Row>, m: nat)
  {
    && (forall i :: 0 <= i < |rows| ==> rows[i].number <= m)
    && (m == 0 || exists i :: 0 <= i < |rows| && rows[i].number == m)
  }

  lemma GreatestStep(rows: seq<Row>, row: Row, m: nat)
    requires Greatest(rows, m)
    ensures Greatest(rows + [row], if row.number > m then row.number else m)
  {
    var all := rows + [row];
    if row.number > m {
      assert all[|rows|].number == row.number;
    } else if m > 0 {
      var i :| 0 <= i < |rows| && rows[i].number == m;
      assert all[i].number == m;
    }
  }

  lemma SuffixGreatest(v: seq<Row>, ever: seq<Row>, m: nat)
    requires Numbered(ever) && Suffix(v, ever) && (ever != [] ==> v != []) && Greatest(v, m)
    ensures m == |ever|
  {
    if ever != [] {
      assert v[|v| - 1] == ever[|ever| - 1];
    }
  }

  lemma LastIsGreatest(f: Files, n: nat, ever: seq<Row>, m: nat)
    requires Disk(f, n, ever) && Greatest(Visible(f, n), m)
    ensures m == |ever|
  {
    VisibleSuffix(f, n, ever);
    SuffixGreatest(Visible(f, n), ever, m);
  }

  lemma NoneGreatest(f: Files)
    ensures Greatest(RowsOf(f, []), 0)
  {}

  lemma MaxIsLast(f: Files, n: nat, accepted: seq<Row>, stale: seq<Row>, m: nat)
    requires n >= 2 && LogOk(f, n, accepted, stale) && Greatest(Visible(f, n), m)
    ensures m == |accepted + stale|
  {
    hide Visible;
    LastIsGreatest(f, n, accepted + stale, m);
  }

  lemma MiddleAscending(ever: seq<Row>, a: seq<Row>, rows: seq<Row>, b: seq<Row>)
    requires Numbered(ever) && Suffix(a + (rows + b), ever)
    ensures Ascending(rows)
  {
    var v := a + (rows + b);
    forall i | 0 <= i < |rows| ensures rows[i] == ever[|ever| - |v| + |a| + i] {
      assert rows[i] == v[|a| + i];
    }
  }

  lemma FileInListing(f: Files, names: seq<FileName>, k: nat)
    requires k < |names|
    ensures RowsOf(f, names) == RowsOf(f, names[..k]) + (RowsAt(f, names[k]) + RowsOf(f, names[k + 1..]))
    ensures RowsOf(f, names[..k + 1]) == RowsOf(f, names[..k]) + RowsAt(f, names[k])
  {
    hide RowsAt;
    assert names == names[..k] + ([names[k]] + names[k + 1..]);
    RowsOfConcat(f, names[..k], [names[k]] + names[k + 1..]);
    RowsOfConcat(f, [names[k]], names[k + 1..]);
    assert RowsOf(f, [names[k]]) == RowsAt(f, names[k]);
    assert names[..k + 1][..k] == names[..k];
  }

  /** Rows of one file of the listing keep their order. */
  lemma FileAscending(f: Files, n: nat, ever: seq<Row>, names: seq<FileName>, k: nat)
    requires Disk(f, n, ever) && RowsOf(f, names) == Visible(f, n) && k < |names|
    ensures Ascending(RowsAt(f, names[k]))
  {
    VisibleSuffix(f, n, ever);
    FileInListing(f, names, k);
    hide Visible, RowsOf, RowsAt;
    MiddleAscending(ever, RowsOf(f, names[..k]), RowsAt(f, names[k]), RowsOf(f, names[k + 1..]));
  }

  /** Skipping by the last number is right; a file in whose last bytes no row lies is never
      skipped. */
  lemma SkippedFile(s: Segment, last: nat, cursor: nat)
    requires Ascending(s.rows) && last <= cursor && exists i :: 0 <= i < |s.rows| && s.rows[i].number == last
    requires forall i :: FirstWithin(s.rows, TAIL_WINDOW - s.torn) <= i < |s.rows| ==> s.rows[i].number <= last
    requires FirstWithin(s.rows, TAIL_WINDOW - s.torn) < |s.rows|
    ensures Newer(s.rows, cursor) == []
  {
    LastBounds(s, last);
    NoneNewer(s.rows, cursor);
  }

  /** A full page is the first `limit` rows of all that are newer. */
  lemma FullPage(before: seq<Row>, rows: seq<Row>, i: nat, cursor: nat, limit: nat)
    requires i <= |rows| && |Newer(before, cursor) + Newer(rows[..i], cursor)| == limit
    ensures Take(Newer(before + rows, cursor), limit) == Newer(before, cursor) + Newer(rows[..i], cursor)
  {
    hide Newer;
    assert rows == rows[..i] + rows[i..];
    NewerConcat(before, rows, cursor);
    NewerConcat(rows[..i], rows[i..], cursor);
    TakeFront(Newer(before, cursor) + Newer(rows[..i], cursor), Newer(rows[i..], cursor), Newer(before + rows, cursor), limit);
  }

  /** Files after the one that fills the page add nothing to it. */
  lemma PageEnds(f: Files, names: seq<FileName>, k: nat, last: seq<Row>, cursor: nat, limit: nat)
    requires k < |names| - 1
    requires |Take(Newer(RowsOf(f, names[..k + 1]), cursor), limit)| == limit
    ensures Take(Newer(RowsOf(f, names[..|names| - 1]) + last, cursor), limit)
            == Take(Newer(RowsOf(f, names[..k + 1]), cursor), limit)
  {
    hide RowsOf, Newer;
    var read, rest := RowsOf(f, names[..k + 1]), RowsOf(f, names[k + 1..|names| - 1]);
    assert names[..|names| - 1] == names[..k + 1] + names[k + 1..|names| - 1];
    RowsOfConcat(f, names[..k + 1], names[k + 1..|names| - 1]);
    assert read + rest + last == read + (rest + last);
    NewerConcat(read, rest + last, cursor);
  }

  lemma OlderListed(f: Files, names: seq<FileName>, n: nat)
    requires n >= 2 && names != [] && Newest(f, names[|names| - 1], n) && RowsOf(f, names) == Visible(f, n)
    ensures RowsOf(f, names[..|names| - 1]) == Older(f, names[|names| - 1], n)
    ensures Visible(f, n) == Older(f, names[|names| - 1], n) + f[names[|names| - 1]].rows
  {
    var h := names[|names| - 1];
    NewestLast(f, h, n);
    var a, b := RowsOf(f, names[..|names| - 1]), Older(f, h, n);
    assert a + f[h].rows == b + f[h].rows;
    assert |a| == |b| && a == (a + f[h].rows)[..|a|];
  }

  lemma OneNewest(f: Files, h: FileName, n: nat)
    requires Newest(f, h, n)
    ensures forall k :: Newest(f, k, n) ==> k == h
  {}

  lemma TakeFront(a: seq<Row>, b: seq<Row>, all: seq<Row>, limit: nat)
    requires all == a + b && |a| == limit
    ensures Take(all, limit) == a
  {}

  lemma RotatedStep(f: Files, i: nat)
    ensures if i == 0 then RotatedRows(f, i) == [] else RotatedRows(f, i) == RowsAt(f, Rotated(i)) + RotatedRows(f, i - 1)
  {}

  lemma OneMoreFile(f: Files, names: seq<FileName>, a: FileName)
    ensures RowsOf(f, names + [a]) == RowsOf(f, names) + RowsAt(f, a)
    ensures a !in f ==> RowsOf(f, names + [a]) == RowsOf(f, names)
  {
    assert (names + [a])[..|names|] == names;
  }

  lemma ListingStart(f: Files, cursor: nat)
    ensures RowsOf(f, []) == [] && Newer([], cursor) == []
  {}

  lemma NoRowsRead(cursor: nat)
    ensures Newer([], cursor) == []
  {}

  lemma NewerStep(rows: seq<Row>, i: nat, cursor: nat)
    requires i < |rows|
    ensures Newer(rows[..i + 1], cursor) == Newer(rows[..i], cursor) + if rows[i].number > cursor then [rows[i]] else []
  {
    assert rows[..i + 1][..i] == rows[..i];
  }

  lemma SameKept(f: Files, n: nat)
    requires n >= 2
    ensures Kept(f, f, n)
  {}

  lemma EverythingSize(f: Files, n: nat)
    requires n >= 2
    ensures |Everything(f, n)| == |Visible(f, n)| + |RowsAt(f, Dropping)|
  {}
}
