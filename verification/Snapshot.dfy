/** The retain snapshot handoff between one writer and one reader, as atomic steps over
    shared memory (crates/plc-retain/src/snapshot.rs). Steps are sequentially consistent
    and the sequence number does not wrap. */
module Snapshot {
  import opened Bytes

  // ----- alone: the two calls without interference -----

  /** The buffer with its two preallocated slots. */
  class SnapshotBuffer {
    const size: nat
    const slot0: array<byte>
    const slot1: array<byte>
    var seqNo: nat
    var published: nat
    var lastTake: nat

    ghost predicate Valid()
      reads this
    {
      slot0.Length == size && slot1.Length == size && slot0 != slot1 && published <= 1
    }

    ghost function Current(): seq<byte>
      reads this, slot0, slot1
    {
      if published == 0 then slot0[..] else slot1[..]
    }

    constructor (size: nat)
      ensures Valid() && fresh(slot0) && fresh(slot1) && this.size == size
      ensures seqNo == 0 && lastTake == 0
    {
      this.size := size;
      slot0 := new byte[size](i => 0);
      slot1 := new byte[size](i => 0);
      seqNo, published, lastTake := 0, 0, 0;
    }

    /** Fills the back slot, padding or cutting to size, then publishes it. */
    method Publish(image: seq<byte>)
      requires Valid()
      modifies this, slot0, slot1
      ensures Valid() && Current() == Padded(image, size) && seqNo == old(seqNo) + 1 && lastTake == old(lastTake)
    {
      var back := if published == 0 then slot1 else slot0;
      var n := if |image| < size then |image| else size;
      for i := 0 to n
        invariant forall k :: 0 <= k < i ==> back[k] == image[k]
        modifies back
      {
        back[i] := image[i];
      }
      for i := n to size
        invariant forall k :: 0 <= k < n ==> back[k] == image[k]
        invariant forall k :: n <= k < i ==> back[k] == 0
        modifies back
      {
        back[i] := 0;
      }
      published := 1 - published;
      seqNo := seqNo + 1;
      assert Current() == Padded(image, size);
    }

    /** Copies the published image out if it is newer than the last one taken. */
    method Read(dst: array<byte>) returns (r: nat)
      requires Valid() && dst != slot0 && dst != slot1
      modifies this`lastTake, dst
      ensures Valid() && Current() == old(Current())
      ensures (seqNo == 0 || seqNo == old(lastTake)) ==> r == 0 && dst[..] == old(dst[..]) && lastTake == old(lastTake)
      ensures (seqNo != 0 && seqNo != old(lastTake)) ==>
                && r == seqNo == lastTake
                && var n := if dst.Length < size then dst.Length else size;
                dst[..n] == Current()[..n] && dst[n..] == old(dst[n..])
    {
      if seqNo == 0 || seqNo == lastTake { return 0; }
      var slot := if published == 0 then slot0 else slot1;
      var n := if dst.Length < size then dst.Length else size;
      for i := 0 to n
        invariant forall k :: 0 <= k < i ==> dst[k] == slot[k]
        invariant forall k :: i <= k < dst.Length ==> dst[k] == old(dst[k])
        modifies dst
      {
        dst[i] := slot[i];
      }
      lastTake := seqNo;
      return seqNo;
    }
  }

  function Padded(image: seq<byte>, size: nat): (r: seq<byte>)
    ensures |r| == size
  {
    if |image| >= size then image[..size] else image + seq(size - |image|, i => 0)
  }

  // ----- interleaved -----

  /** What the writer is about to do. */
  datatype Writer = Idle | Filling(image: seq<byte>, at: nat) | Flipping(image: seq<byte>) | Counting

  /** What the reader is about to do. `s` is the sequence number it started from. */
  datatype Reader =
    | Resting
    | Started(attempts: nat)
    | Numbered(s: nat, attempts: nat)
    | Copying(s: nat, slot: nat, at: nat, attempts: nat)
    | Took(s: nat, settled: bool)
    | NothingNew

  /** Shared memory, both program counters, the reader's buffer, and the images published
      so far in order. */
  datatype System = System(
    size: nat, slots: seq<seq<byte>>, seqNo: nat, published: nat, lastTake: nat,
    dst: seq<byte>, writer: Writer, reader: Reader, ghost history: seq<seq<byte>>)

  datatype Event = WriterBegins(image: seq<byte>) | WriterSteps | ReaderBegins | ReaderSteps

  ghost function Init(size: nat, dst: seq<byte>): (y: System)
    ensures Consistent(y)
  {
    System(size, [seq(size, i => 0), seq(size, i => 0)], 0, 0, 0, dst, Idle, Resting, [])
  }

  ghost predicate Shaped(y: System)
  {
    && |y.slots| == 2 && |y.slots[0]| == y.size && |y.slots[1]| == y.size && y.published <= 1
    && (y.writer.Filling? ==> |y.writer.image| == y.size && y.writer.at < y.size)
    && (y.writer.Flipping? ==> |y.writer.image| == y.size)
    && (y.reader.Copying? ==> y.reader.slot <= 1 && y.reader.at <= Span(y))
  }

  /** Bytes a read copies. */
  function Span(y: System): nat { if |y.dst| < y.size then |y.dst| else y.size }

  ghost function WriterNext(y: System): System
    requires Shaped(y)
  {
    match y.writer
    case Idle => y
    case Filling(image, at) =>
      var back := 1 - y.published;
      var y1 := y.(slots := y.slots[back := y.slots[back][at := image[at]]]);
      y1.(writer := if at + 1 == y.size then Flipping(image) else Filling(image, at + 1))
    case Flipping(image) =>
      y.(published := 1 - y.published, history := y.history + [image], writer := Counting)
    case Counting => y.(seqNo := y.seqNo + 1, writer := Idle)
  }

  const MAX_ATTEMPTS: nat := 8

  ghost function ReaderNext(y: System): System
    requires Shaped(y)
  {
    match y.reader
    case Resting => y
    case Took(_, _) => y
    case NothingNew => y
    case Started(attempts) =>
      if y.seqNo == 0 || y.seqNo == y.lastTake then y.(reader := NothingNew)
      else y.(reader := Numbered(y.seqNo, attempts))
    case Numbered(s, attempts) => y.(reader := Copying(s, y.published, 0, attempts))
    case Copying(s, slot, at, attempts) =>
      if at < Span(y) then
        y.(dst := y.dst[at := y.slots[slot][at]], reader := Copying(s, slot, at + 1, attempts))
      else if y.seqNo == s then y.(lastTake := s, reader := Took(s, true))
      else if attempts + 1 >= MAX_ATTEMPTS then y.(lastTake := y.seqNo, reader := Took(y.seqNo, false))
      else y.(reader := Started(attempts + 1))
  }

  /** One atomic step of either side. A new publish may begin when the writer is idle, a new
      read when the last one is over. */
  ghost function Next(y: System, e: Event): System
    requires Shaped(y)
  {
    match e
    case WriterBegins(image) =>
      if !y.writer.Idle? then y
      else
        var padded := Padded(image, y.size);
        y.(writer := if y.size == 0 then Flipping(padded) else Filling(padded, 0))
    case WriterSteps => WriterNext(y)
    case ReaderBegins =>
      if y.reader.Resting? || y.reader.Took? || y.reader.NothingNew? then y.(reader := Started(0)) else y
    case ReaderSteps => ReaderNext(y)
  }

  /** The slot that the k-th published image (from 0) went to. */
  function SlotOf(k: nat): nat { (k + 1) % 2 }

  /** Published images stand intact in their slots until they are overwritten, and a reader
      whose sequence number is still current is copying one of two whole images. */
  ghost predicate Consistent(y: System)
  {
    && Shaped(y)
    && y.lastTake <= y.seqNo
    && |y.history| == y.seqNo + (if y.writer.Counting? then 1 else 0)
    && y.published == (if y.history == [] then 0 else SlotOf(|y.history| - 1))
    && (forall k :: 0 <= k < |y.history| ==> |y.history[k]| == y.size)
    && (y.history != [] ==> y.slots[y.published] == y.history[|y.history| - 1])
    && (y.writer.Counting? && |y.history| >= 2 ==> y.slots[1 - y.published] == y.history[|y.history| - 2])
    && (y.writer.Filling? ==> y.slots[1 - y.published][..y.writer.at] == y.writer.image[..y.writer.at])
    && (y.writer.Flipping? ==> y.slots[1 - y.published] == y.writer.image)
    && ReaderOk(y)
  }

  ghost predicate ReaderOk(y: System)
    requires Shaped(y)
  {
    match y.reader
    case Numbered(s, _) => y.lastTake < s <= y.seqNo
    case Copying(s, slot, at, _) =>
      && y.lastTake < s <= y.seqNo
      && (s == y.seqNo ==> exists k: nat :: CopyOf(y, k, s, slot, at))
    case Took(s, settled) => s == y.lastTake && (settled ==> exists k: nat :: TakenFrom(y, k, s))
    case _ => true
  }

  /** The copy so far is the start of image `k`, the s-th published one or the next. */
  ghost predicate CopyOf(y: System, k: nat, s: nat, slot: nat, at: nat)
  {
    && (k == s - 1 || k == s) && k < |y.history| && slot == SlotOf(k)
    && at <= |y.dst| && at <= |y.history[k]| && y.dst[..at] == y.history[k][..at]
  }

  ghost predicate TakenFrom(y: System, k: nat, s: nat)
  {
    && (k == s - 1 || k == s) && k < |y.history| && Span(y) <= |y.history[k]|
    && y.dst[..Span(y)] == y.history[k][..Span(y)]
  }

  lemma WriterKeeps(y: System)
    requires Consistent(y)
    ensures Consistent(WriterNext(y))
  {
    var z := WriterNext(y);
    match y.writer {
      case Idle =>
      case Filling(image, at) => FillKeeps(y);
      case Flipping(image) =>
        assert forall k :: 0 <= k < |y.history| ==> z.history[k] == y.history[k];
        KeepReader(y, z);
      case Counting => CountKeeps(y);
    }
  }

  lemma FillKeeps(y: System)
    requires Consistent(y) && y.writer.Filling?
    ensures Consistent(WriterNext(y))
  {
    var z := WriterNext(y);
    var at, image, back := y.writer.at, y.writer.image, 1 - y.published;
    assert z.slots[back][..at + 1] == y.slots[back][..at] + [image[at]];
    assert image[..at + 1] == image[..at] + [image[at]];
    if at + 1 == y.size { assert z.slots[back][..y.size] == z.slots[back] && image[..y.size] == image; }
    assert z.slots[y.published] == y.slots[y.published];
    KeepReader(y, z);
  }

  lemma CountKeeps(y: System)
    requires Consistent(y) && y.writer.Counting?
    ensures Consistent(WriterNext(y))
  {
    KeepReader(y, WriterNext(y));
  }

  /** Steps that only extend the history and do not touch the reader keep what it knows. */
  lemma KeepReader(y: System, z: System)
    requires Shaped(y) && Shaped(z) && ReaderOk(y)
    requires z.reader == y.reader && z.dst == y.dst && z.size == y.size && z.lastTake == y.lastTake
    requires y.history <= z.history && y.seqNo <= z.seqNo
    ensures ReaderOk(z)
  {
    match y.reader {
      case Copying(s, slot, at, _) =>
        if s == z.seqNo {
          var k: nat :| CopyOf(y, k, s, slot, at);
          assert CopyOf(z, k, s, slot, at);
        }
      case Took(s, settled) =>
        if settled {
          var k: nat :| TakenFrom(y, k, s);
          assert TakenFrom(z, k, s);
        }
      case _ =>
    }
  }

  lemma ReaderKeeps(y: System)
    requires Consistent(y)
    ensures Consistent(ReaderNext(y))
  {
    match y.reader {
      case Numbered(s, attempts) => PickKeeps(y);
      case Copying(s, slot, at, attempts) => if s == y.seqNo { CopyKeeps(y); } else { RetryKeeps(y); }
      case _ =>
    }
    ReaderOnly(y);
  }

  lemma PickKeeps(y: System)
    requires Consistent(y) && y.reader.Numbered?
    ensures Shaped(ReaderNext(y)) && ReaderOk(ReaderNext(y))
  {
    var z := ReaderNext(y);
    if y.reader.s == y.seqNo {
      var k := |y.history| - 1;
      assert y.dst[..0] == y.history[k][..0];
      assert CopyOf(z, k, y.reader.s, y.published, 0);
    }
  }

  lemma RetryKeeps(y: System)
    requires Consistent(y) && y.reader.Copying? && y.reader.s != y.seqNo
    ensures Shaped(ReaderNext(y)) && ReaderOk(ReaderNext(y))
  {}

  /** The reader writes only its own buffer, counter and last-taken number. */
  lemma ReaderOnly(y: System)
    requires Consistent(y)
    ensures var z := ReaderNext(y);
            && z.lastTake <= z.seqNo
            && z == y.(dst := z.dst, reader := z.reader, lastTake := z.lastTake) && |z.dst| == |y.dst|
  {
    hide CopyOf, TakenFrom;
  }

  lemma SlotsAlternate(k: nat)
    ensures SlotOf(k) <= 1 && SlotOf(k + 1) == 1 - SlotOf(k)
  {}

  /** While the sequence number is the reader's, its slot holds the image it is copying. */
  lemma CopyKeeps(y: System)
    requires Consistent(y) && y.reader.Copying? && y.reader.s == y.seqNo
    ensures Shaped(ReaderNext(y)) && ReaderOk(ReaderNext(y))
  {
    var z := ReaderNext(y);
    var s, slot, at := y.reader.s, y.reader.slot, y.reader.at;
    var k: nat :| CopyOf(y, k, s, slot, at);
    SlotsAlternate(k);
    assert y.slots[slot] == y.history[k];
    if at < Span(y) {
      assert z.dst[..at + 1] == y.dst[..at] + [y.history[k][at]];
      assert y.history[k][..at + 1] == y.history[k][..at] + [y.history[k][at]];
      assert CopyOf(z, k, s, slot, at + 1);
    } else {
      assert TakenFrom(z, k, s);
    }
  }

  lemma NextKeeps(y: System, e: Event)
    requires Consistent(y)
    ensures Consistent(Next(y, e))
  {
    hide WriterNext, ReaderNext;
    match e {
      case WriterSteps => WriterKeeps(y);
      case ReaderSteps => ReaderKeeps(y);
      case WriterBegins(image) => KeepReader(y, Next(y, e));
      case ReaderBegins =>
    }
  }

  ghost function Play(y: System, es: seq<Event>): System
    requires Consistent(y)
    ensures Consistent(Play(y, es))
    decreases es
  {
    if es == [] then y
    else
      NextKeeps(y, es[0]);
      Play(Next(y, es[0]), es[1..])
  }

  /** No torn snapshot: under every interleaving of any number of publishes with reads, a
      read that returns S because the sequence number did not change has copied exactly the
      S-th or the next published image. */
  lemma NoTornSnapshot(size: nat, dst: seq<byte>, es: seq<Event>) returns (k: nat)
    ensures var y := Play(Init(size, dst), es);
            y.reader.Took? && y.reader.settled ==>
              && (k == y.reader.s - 1 || k == y.reader.s) && k < |y.history|
              && Span(y) <= |y.history[k]| && y.dst[..Span(y)] == y.history[k][..Span(y)]
  {
    var y := Play(Init(size, dst), es);
    k := 0;
    if y.reader.Took? && y.reader.settled { k :| TakenFrom(y, k, y.reader.s); }
  }

  /** Sequence numbers handed out only grow: a finished read returns more than any earlier. */
  lemma ReadsAdvance(y: System)
    requires Consistent(y) && y.reader.Copying?
    ensures var z := ReaderNext(y); z.reader.Took? ==> z.reader.s > y.lastTake && z.lastTake == z.reader.s
  {}

  // ----- the fallback -----

  lemma PlayOne(y: System, e: Event)
    requires Consistent(y)
    ensures Consistent(Next(y, e)) && Shaped(Next(y, e)) && Play(y, [e]) == Next(y, e)
  {
    hide Next, ReaderOk;
    NextKeeps(y, e);
    assert [e][1..] == [];
  }

  lemma {:induction false} PlayConcat(y: System, a: seq<Event>, b: seq<Event>)
    requires Consistent(y)
    ensures Play(y, a + b) == Play(Play(y, a), b)
    decreases a
  {
    hide Next, ReaderOk;
    if a == [] {
      assert a + b == b;
    } else {
      NextKeeps(y, a[0]);
      assert (a + b)[1..] == a[1..] + b;
      PlayConcat(Next(y, a[0]), a[1..], b);
    }
  }

  /** One more event at the end of a run. */
  lemma PlayThen(y: System, a: seq<Event>, m: System, e: Event)
    requires Consistent(y) && Play(y, a) == m
    ensures Consistent(m) && Play(y, a + [e]) == Next(m, e)
  {
    assert Consistent(m);
    hide Consistent, Next, Play;
    PlayConcat(y, a, [e]);
    PlayOne(m, e);
  }

  /** A whole publish of two bytes. */
  function Publishing(image: seq<byte>): seq<Event>
  {
    [WriterBegins(image)] + [WriterSteps] + [WriterSteps] + [WriterSteps] + [WriterSteps]
  }

  ghost function Published(y: System, image: seq<byte>): System
    requires Shaped(y)
  {
    y.(slots := y.slots[1 - y.published := image], published := 1 - y.published, history := y.history + [image], seqNo := y.seqNo + 1)
  }

  lemma PublishRuns(y: System, image: seq<byte>)
    requires Consistent(y) && y.writer.Idle? && y.size == 2 && |image| == 2
    ensures Play(y, Publishing(image)) == Published(y, image) && Consistent(Published(y, image))
  {
    var back := 1 - y.published;
    var y1 := y.(writer := Filling(image, 0));
    assert Padded(image, 2) == image by { assert image[..2] == image; }
    assert Next(y, WriterBegins(image)) == y1;
    var half := y.slots[back][0 := image[0]];
    var y2 := y.(slots := y.slots[back := half], writer := Filling(image, 1));
    var y3 := y.(slots := y.slots[back := image], writer := Flipping(image));
    assert half[1 := image[1]] == image;
    assert y.slots[back := half][back := image] == y.slots[back := image];
    hide Consistent, Play;
    PlayOne(y, WriterBegins(image));
    var es := [WriterBegins(image)];
    PlayThen(y, es, y1, WriterSteps);
    assert Next(y1, WriterSteps) == y2;
    PlayThen(y, es + [WriterSteps], y2, WriterSteps);
    assert Next(y2, WriterSteps) == y3;
    PlayThen(y, es + [WriterSteps] + [WriterSteps], y3, WriterSteps);
    var y4 := y3.(published := back, history := y.history + [image], writer := Counting);
    assert Next(y3, WriterSteps) == y4;
    PlayThen(y, es + [WriterSteps] + [WriterSteps] + [WriterSteps], y4, WriterSteps);
    assert Next(y4, WriterSteps) == Published(y, image);
  }

  /** A read from its start to the end of its copy of two bytes. */
  function Reading(): seq<Event> { [ReaderSteps] + [ReaderSteps] + [ReaderSteps] + [ReaderSteps] }

  ghost function Picked(y: System, attempts: nat): System
    requires Shaped(y)
  {
    y.(reader := Copying(y.seqNo, y.published, 0, attempts))
  }

  lemma PickRuns(y: System, attempts: nat)
    requires Consistent(y) && y.reader == Started(attempts) && y.seqNo != 0 && y.seqNo != y.lastTake
    ensures Play(y, [ReaderSteps] + [ReaderSteps]) == Picked(y, attempts)
  {
    var y1 := y.(reader := Numbered(y.seqNo, attempts));
    assert Next(y, ReaderSteps) == y1;
    hide Consistent, Play;
    PlayOne(y, ReaderSteps);
    PlayThen(y, [ReaderSteps], y1, ReaderSteps);
  }

  lemma ReadRuns(y: System, attempts: nat)
    requires Consistent(y) && y.reader == Started(attempts) && y.seqNo != 0 && y.seqNo != y.lastTake && y.size == 2 && |y.dst| == 2
    ensures Play(y, Reading()) == y.(dst := y.slots[y.published], reader := Copying(y.seqNo, y.published, 2, attempts))
  {
    var slot, image := y.published, y.slots[y.published];
    var y2, y3 := Picked(y, attempts), y.(dst := y.dst[0 := image[0]], reader := Copying(y.seqNo, slot, 1, attempts));
    assert Next(y2, ReaderSteps) == y3;
    assert y3.dst[1 := image[1]] == image;
    hide Consistent, Play;
    PickRuns(y, attempts);
    PlayThen(y, [ReaderSteps] + [ReaderSteps], y2, ReaderSteps);
    PlayThen(y, [ReaderSteps] + [ReaderSteps] + [ReaderSteps], y3, ReaderSteps);
  }

  function Image(k: nat): seq<byte>
    requires k < 256
  {
    var b: byte := k;
    [b, b]
  }

  /** An attempt that a publish overtakes. */
  function Overtaken(k: nat): seq<Event>
    requires k < 256
  {
    Reading() + Publishing(Image(k)) + [ReaderSteps]
  }

  /** A reader at the start of an attempt, all images so far being of one byte twice. */
  ghost predicate AtAttempt(y: System, a: nat)
  {
    && a < 8 && Consistent(y) && y.size == 2 && |y.dst| == 2 && y.writer.Idle? && y.reader == Started(a) && y.seqNo == a + 1 && y.lastTake == 0
    && |y.history| == a + 1 && forall k :: 0 <= k <= a ==> y.history[k] == Image(k + 1)
  }

  /** One publish during the copy brings the reader to the next attempt. */
  lemma OvertakenRuns(y: System, a: nat)
    requires AtAttempt(y, a) && a < 7
    ensures AtAttempt(Play(y, Overtaken(a + 2)), a + 1)
  {
    var image := Image(a + 2);
    var y1 := y.(dst := y.slots[y.published], reader := Copying(y.seqNo, y.published, 2, a));
    hide Play, Image, Publishing, Reading;
    ReadRuns(y, a);
    PublishRuns(y1, image);
    PlayConcat(y, Reading(), Publishing(image));
    var y2 := Published(y1, image);
    PlayThen(y, Reading() + Publishing(image), y2, ReaderSteps);
    assert Next(y2, ReaderSteps) == y2.(reader := Started(a + 1));
  }

  /** The start of a read after the first publish, and attempts 0, ..., n - 1. */
  function Attempts(n: nat): seq<Event>
    requires n <= 7
    decreases n
  {
    if n == 0 then Publishing(Image(1)) + [ReaderBegins] else Attempts(n - 1) + Overtaken(n + 1)
  }

  lemma {:induction false} AttemptsRun(n: nat)
    requires n <= 7
    ensures AtAttempt(Play(Init(2, [0, 0]), Attempts(n)), n)
    decreases n
  {
    if n == 0 {
      FirstRuns();
    } else {
      hide Play, Overtaken, AtAttempt, Consistent, Init;
      var y := Init(2, [0, 0]);
      AttemptsRun(n - 1);
      PlayConcat(y, Attempts(n - 1), Overtaken(n + 1));
      assert Consistent(Play(y, Attempts(n - 1))) by { AttemptFacts(Play(y, Attempts(n - 1)), n - 1); }
      OvertakenRuns(Play(y, Attempts(n - 1)), n - 1);
    }
  }

  lemma FirstRuns()
    ensures AtAttempt(Play(Init(2, [0, 0]), Attempts(0)), 0)
  {
    var y := Init(2, [0, 0]);
    var z := Published(y, Image(1));
    assert y.history == [] && z.history == [Image(1)];
    assert Shaped(y) && y.writer.Idle?;
    hide Play, Publishing, Consistent, Image, Init;
    PublishRuns(y, Image(1));
    PlayThen(y, Publishing(Image(1)), z, ReaderBegins);
  }

  lemma AttemptFacts(y: System, a: nat)
    requires AtAttempt(y, a)
    ensures Consistent(y)
  {
    hide Consistent;
  }

  /** The last attempt: two publishes between the copies of its two bytes. */
  function LastAttempt(): seq<Event>
  {
    [ReaderSteps] + [ReaderSteps] + [ReaderSteps] + Publishing(Image(9)) + Publishing(Image(10)) + [ReaderSteps] + [ReaderSteps]
  }

  lemma LastRuns(y: System)
    requires AtAttempt(y, 7)
    ensures var z := Play(y, LastAttempt()); z.reader == Took(10, false) && z.dst == [8, 10] && z.history == y.history + [Image(9)] + [Image(10)]
  {
    var slot := y.published;
    assert y.slots[slot] == Image(8);
    var y2, y3 := Picked(y, 7), y.(dst := y.dst[0 := 8], reader := Copying(8, slot, 1, 7));
    assert Next(y2, ReaderSteps) == y3;
    var y4, y5 := Published(y3, Image(9)), Published(Published(y3, Image(9)), Image(10));
    assert y5.slots[slot] == Image(10);
    var y6 := y5.(dst := y5.dst[1 := 10], reader := Copying(8, slot, 2, 7));
    assert Next(y5, ReaderSteps) == y6 && y6.dst == [8, 10];
    assert Next(y6, ReaderSteps) == y6.(lastTake := 10, reader := Took(10, false));
    hide Play, Publishing, Consistent, Image;
    var es := [ReaderSteps] + [ReaderSteps];
    PickRuns(y, 7);
    PlayThen(y, es, y2, ReaderSteps);
    PublishRuns(y3, Image(9));
    PlayConcat(y, es + [ReaderSteps], Publishing(Image(9)));
    PublishRuns(y4, Image(10));
    PlayConcat(y, es + [ReaderSteps] + Publishing(Image(9)), Publishing(Image(10)));
    PlayThen(y, es + [ReaderSteps] + Publishing(Image(9)) + Publishing(Image(10)), y5, ReaderSteps);
    PlayThen(y, es + [ReaderSteps] + Publishing(Image(9)) + Publishing(Image(10)) + [ReaderSteps], y6, ReaderSteps);
  }

  /** The fallback after eight attempts has to be excluded from the promise: in a run from the
      initial buffer a publish overtakes each of seven copies and two overtake the eighth, and
      the read returns a mixture that was never published. */
  lemma FallbackTears() returns (es: seq<Event>)
    ensures var z := Play(Init(2, [0, 0]), es);
            z.reader == Took(10, false) && z.dst == [8, 10] && |z.history| == 10 && z.dst !in z.history
  {
    var y := Init(2, [0, 0]);
    es := Attempts(7) + LastAttempt();
    AttemptsRun(7);
    var m := Play(y, Attempts(7));
    hide Play, Attempts, LastAttempt, Consistent, Image;
    PlayConcat(y, Attempts(7), LastAttempt());
    LastRuns(m);
    NeverPublished(m.history);
  }

  lemma NeverPublished(h: seq<seq<byte>>)
    requires |h| == 8 && forall k :: 0 <= k < 8 ==> h[k] == Image(k + 1)
    ensures var mix: seq<byte> := [8, 10]; mix !in h + [Image(9)] + [Image(10)]
  {
    var mix: seq<byte> := [8, 10];
    assert forall k: nat :: k < 256 ==> Image(k)[0] == Image(k)[1];
  }
}
