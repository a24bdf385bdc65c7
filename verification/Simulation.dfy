/** How machine memory represents the variables of a body, and what single
    instructions do to that representation. */
module Simulation {
  import opened Bytes
  import opened Ir
  import opened Vm
  import opened St
  import opened Lower
  import opened Scope

  // ----- code in memory -----

  ghost predicate DecodesTo(code: seq<byte>, pc: nat, i: Instr)
  {
    Decode(code, pc) == Some((i, Size(i)))
  }

  /** The instructions stand at `pc`, one after the other. */
  ghost predicate CodeAt(code: seq<byte>, pc: nat, ins: seq<Instr>)
    decreases ins
  {
    ins != [] ==> DecodesTo(code, pc, ins[0]) && CodeAt(code, pc + Size(ins[0]), ins[1..])
  }

  lemma {:induction false} CodeAtSplit(code: seq<byte>, pc: nat, a: seq<Instr>, b: seq<Instr>)
    ensures CodeAt(code, pc, a + b) <==> CodeAt(code, pc, a) && CodeAt(code, pc + CodeSize(a), b)
    decreases a
  {
    hide Decode, Encode;
    if a == [] {
      assert a + b == b;
    } else {
      CodeAtSplit(code, pc + Size(a[0]), a[1..], b);
      assert (a + b)[1..] == a[1..] + b;
    }
  }

  /** Splits the code of three consecutive pieces. */
  lemma CodeAtSplit3(code: seq<byte>, pc: nat, a: seq<Instr>, b: seq<Instr>, c: seq<Instr>)
    requires CodeAt(code, pc, a + b + c)
    ensures CodeAt(code, pc, a)
    ensures CodeAt(code, pc + CodeSize(a), b)
    ensures CodeAt(code, pc + CodeSize(a) + CodeSize(b), c)
  {
    hide CodeAt, CodeSize;
    CodeAtSplit(code, pc, a + b, c);
    CodeAtSplit(code, pc, a, b);
    CodeSizeAppend(a, b);
  }

  lemma CodeAtOne(code: seq<byte>, pc: nat, a: Instr)
    requires CodeAt(code, pc, [a])
    ensures DecodesTo(code, pc, a)
    ensures CodeSize([a]) == Size(a)
  {
    CodeAtCons(code, pc, a, []);
  }

  lemma CodeAtCons(code: seq<byte>, pc: nat, a: Instr, rest: seq<Instr>)
    requires CodeAt(code, pc, [a] + rest)
    ensures DecodesTo(code, pc, a) && CodeAt(code, pc + Size(a), rest)
    ensures CodeSize([a] + rest) == Size(a) + CodeSize(rest)
  {
    assert ([a] + rest)[1..] == rest;
  }

  lemma CodeAtTwo(code: seq<byte>, pc: nat, a: Instr, b: Instr)
    requires CodeAt(code, pc, [a, b])
    ensures DecodesTo(code, pc, a) && DecodesTo(code, pc + Size(a), b)
    ensures CodeSize([a, b]) == Size(a) + Size(b)
  {
    assert [a, b] == [a] + [b];
    CodeAtCons(code, pc, a, [b]);
    CodeAtOne(code, pc + Size(a), b);
  }

  lemma CodeAtThree(code: seq<byte>, pc: nat, a: Instr, b: Instr, c: Instr)
    requires CodeAt(code, pc, [a, b, c])
    ensures DecodesTo(code, pc, a) && DecodesTo(code, pc + Size(a), b)
    ensures DecodesTo(code, pc + Size(a) + Size(b), c)
    ensures CodeSize([a, b, c]) == Size(a) + Size(b) + Size(c)
  {
    assert [a, b, c] == [a] + [b, c];
    CodeAtCons(code, pc, a, [b, c]);
    CodeAtTwo(code, pc + Size(a), b, c);
  }

  lemma CodeAtFour(code: seq<byte>, pc: nat, a: Instr, b: Instr, c: Instr, d: Instr)
    requires CodeAt(code, pc, [a, b, c, d])
    ensures DecodesTo(code, pc, a) && DecodesTo(code, pc + Size(a), b)
    ensures DecodesTo(code, pc + Size(a) + Size(b), c)
    ensures DecodesTo(code, pc + Size(a) + Size(b) + Size(c), d)
    ensures CodeSize([a, b, c, d]) == Size(a) + Size(b) + Size(c) + Size(d)
  {
    assert [a, b, c, d] == [a] + [b, c, d];
    CodeAtCons(code, pc, a, [b, c, d]);
    CodeAtThree(code, pc + Size(a), b, c, d);
  }

  lemma OneStep(im: Image, m: Machine, i: Instr)
    requires m.Valid() && DecodesTo(im.code, m.pc, i)
    ensures Run(im, m, 1) == StepInstr(im, m, i)
  {
    hide StepInstr;
    var r := StepInstr(im, m, i);
    if r.Running? { assert Run(im, r.m, 0) == r; }
  }

  /** Continuing a run. */
  lemma Then(im: Image, m: Machine, a: nat, m1: Machine, b: nat)
    requires m.Valid() && Run(im, m, a) == Running(m1)
    ensures m1.Valid() && Run(im, m, a + b) == Run(im, m1, b)
  {
    RunAdd(im, m, a, b);
  }

  // ----- representation -----

  ghost predicate InRetain(env: Env, x: string) { x in env && env[x].Retain? }

  ghost predicate InOutput(env: Env, x: string) { x in env && env[x].Output? }

  /** Variables lie within their segments and do not overlap. */
  ghost predicate LayoutOk(env: Env, dataLen: nat, retainLen: nat)
  {
    && DataDisjoint(env)
    && (forall x :: InData(env, x) ==> DataEnd(env[x]) <= dataLen)
    && (forall x :: InRetain(env, x) ==> env[x].offset + ByteWidth(env[x].ty) <= retainLen)
    && (forall x, y :: InRetain(env, x) && InRetain(env, y) && x != y ==>
          env[x].offset + ByteWidth(env[x].ty) <= env[y].offset
          || env[y].offset + ByteWidth(env[y].ty) <= env[x].offset)
  }

  /** Values of variables are no wider than the declared type of the name that holds them. */
  ghost predicate Typed(w: World, s: State)
  {
    forall x :: InData(w.env, x) || InRetain(w.env, x) ==>
      x in s.vars && Width(s.vars[x]) <= ByteWidth(w.env[x].ty)
  }

  ghost predicate VarsHeld(env: Env, vars: map<string, Value>, data: Segment, retain: Segment)
    requires data.Valid() && retain.Valid()
  {
    && (forall x :: InData(env, x) ==> x in vars && Load(data, env[x].offset) == Some(vars[x]))
    && (forall x :: InRetain(env, x) ==> x in vars && Load(retain, env[x].offset) == Some(vars[x]))
  }

  /** The machine is in a task body and its memory holds the state. */
  ghost predicate Holds(w: World, s: State, m: Machine)
  {
    && m.Valid()
    && m.frames == [] && m.dataBase == 0
    && m.inputs == w.inputs && m.quality == w.quality
    && m.outputs == s.outputs && m.written == s.written && m.retainDirty == s.dirty
    && LayoutOk(w.env, |m.data.bytes|, |m.retain.bytes|)
    && |m.data.bytes| <= 0x100_0000 && |m.retain.bytes| <= 0x100_0000
    && VarsHeld(w.env, s.vars, m.data, m.retain)
    && Typed(w, s)
  }

  /** Moving the program counter or the stack changes nothing the state is held in. */
  lemma HoldsAfterMove(w: World, s: State, m: Machine, pc: nat, stack: seq<Value>)
    requires Holds(w, s, m) && |stack| <= MAX_STACK
    ensures Holds(w, s, m.(pc := pc, stack := stack))
  {}

  // ----- frames -----

  /** No data variable occupies a byte of [lo, hi). */
  ghost predicate Free(env: Env, lo: nat, hi: nat)
  {
    forall x :: InData(env, x) ==> DataEnd(env[x]) <= lo || hi <= env[x].offset
  }

  /** A byte below the frontier that belongs to no variable: someone else's scratch. */
  ghost predicate Protected(env: Env, top: nat, p: nat)
  {
    p < top && Free(env, p, p + 1)
  }

  ghost predicate Same(env: Env, top: nat, a: Segment, b: Segment)
  {
    && a.Valid() && b.Valid() && |a.bytes| == |b.bytes|
    && (forall p :: 0 <= p < |a.bytes| && Protected(env, top, p) ==>
          a.bytes[p] == b.bytes[p] && a.tags[p] == b.tags[p])
  }

  lemma SameTrans(env: Env, top: nat, top': nat, a: Segment, b: Segment, c: Segment)
    requires top <= top' && Same(env, top, a, b) && Same(env, top', b, c)
    ensures Same(env, top, a, c)
  {
    forall p | 0 <= p < |a.bytes| && Protected(env, top, p)
      ensures a.bytes[p] == c.bytes[p] && a.tags[p] == c.tags[p]
    {
      assert Protected(env, top', p);
    }
  }

  /** A scratch slot below the frontier reads the same after the code ran. */
  lemma ScratchKept(env: Env, top: nat, a: Segment, b: Segment, off: nat, w: nat)
    requires Same(env, top, a, b) && Free(env, off, off + w) && off + w <= top
    requires 0 < w && off + w <= |a.bytes|
    requires Load(a, off).Some? && Width(Load(a, off).value) <= w
    ensures Load(b, off) == Load(a, off)
  {
    forall p | off <= p < off + w ensures a.bytes[p] == b.bytes[p] && a.tags[p] == b.tags[p] {
      assert Free(env, p, p + 1);
      assert Protected(env, top, p);
    }
    LoadFrame(a, b, off, w);
  }

  /** A store leaves a cell outside its range as it was. */
  lemma OtherCell(s: Segment, off: nat, v: Value, cell: nat, w: nat)
    requires s.Valid() && off + Width(v) <= |s.bytes| && cell + w <= |s.bytes| && 0 < w
    requires cell + w <= off || off + Width(v) <= cell
    requires Load(s, cell).Some? && Width(Load(s, cell).value) <= w
    ensures Load(Store(s, off, v).value, cell) == Load(s, cell)
  {
    forall p | cell <= p < cell + w
      ensures s.bytes[p] == Store(s, off, v).value.bytes[p] && s.tags[p] == Store(s, off, v).value.tags[p]
    {
      StoreOutside(s, off, v, p);
    }
    hide Store, Load;
    LoadFrame(s, Store(s, off, v).value, cell, w);
  }

  /** A store outside the protected bytes keeps them. */
  lemma StoreKeepsProtected(env: Env, top: nat, s: Segment, off: nat, v: Value)
    requires s.Valid() && off + Width(v) <= |s.bytes|
    requires forall p :: off <= p < off + Width(v) ==> !Protected(env, top, p)
    ensures Same(env, top, s, Store(s, off, v).value)
  {
    forall p | 0 <= p < |s.bytes| && Protected(env, top, p)
      ensures s.bytes[p] == Store(s, off, v).value.bytes[p] && s.tags[p] == Store(s, off, v).value.tags[p]
    {
      StoreOutside(s, off, v, p);
    }
  }

  /** Storing into scratch leaves every variable as it was. */
  lemma StoreScratch(w: World, s: State, m: Machine, off: nat, v: Value, top: nat)
    requires Holds(w, s, m)
    requires Free(w.env, off, off + Width(v)) && off + Width(v) <= |m.data.bytes|
    requires top <= off
    ensures var data := Store(m.data, off, v).value;
            && Holds(w, s, m.(data := data))
            && Same(w.env, top, m.data, data)
            && Load(data, off) == Some(v)
  {
    LoadAfterStore(m.data, off, v);
    StoreKeepsProtected(w.env, top, m.data, off, v);
    hide Load, Store, Same;
    forall x | InData(w.env, x)
      ensures Load(Store(m.data, off, v).value, w.env[x].offset) == Load(m.data, w.env[x].offset)
    {
      OtherCell(m.data, off, v, w.env[x].offset, ByteWidth(w.env[x].ty));
    }
  }

  /** A store to one data variable leaves the cells of the others. */
  lemma OtherDataKept(w: World, s: State, m: Machine, x: string, v: Value)
    requires Holds(w, s, m) && InData(w.env, x) && Width(v) <= ByteWidth(w.env[x].ty)
    ensures var off := w.env[x].offset;
            && off + Width(v) <= |m.data.bytes|
            && forall y :: InData(w.env, y) && y != x ==>
                 Load(Store(m.data, off, v).value, w.env[y].offset) == Load(m.data, w.env[y].offset)
  {
    hide Load, Store, Typed, ToBytes;
    forall y | InData(w.env, y) && y != x
      ensures Load(Store(m.data, w.env[x].offset, v).value, w.env[y].offset) == Load(m.data, w.env[y].offset)
    {
      TypedWidth(w, s, y);
      OtherCell(m.data, w.env[x].offset, v, w.env[y].offset, ByteWidth(w.env[y].ty));
    }
  }

  lemma OtherRetainKept(w: World, s: State, m: Machine, x: string, v: Value)
    requires Holds(w, s, m) && InRetain(w.env, x) && Width(v) <= ByteWidth(w.env[x].ty)
    ensures var off := w.env[x].offset;
            && off + Width(v) <= |m.retain.bytes|
            && forall y :: InRetain(w.env, y) && y != x ==>
                 Load(Store(m.retain, off, v).value, w.env[y].offset) == Load(m.retain, w.env[y].offset)
  {
    hide Load, Store, Typed, ToBytes, DataDisjoint;
    forall y | InRetain(w.env, y) && y != x
      ensures Load(Store(m.retain, w.env[x].offset, v).value, w.env[y].offset) == Load(m.retain, w.env[y].offset)
    {
      TypedWidth(w, s, y);
      OtherCell(m.retain, w.env[x].offset, v, w.env[y].offset, ByteWidth(w.env[y].ty));
    }
  }

  /** Bytes of a data variable are not protected scratch. */
  lemma OwnBytes(env: Env, x: string, n: nat, top: nat)
    requires InData(env, x) && n <= ByteWidth(env[x].ty)
    ensures forall p :: env[x].offset <= p < env[x].offset + n ==> !Protected(env, top, p)
  {}

  /** Storing into a data variable changes that variable and no other. */
  lemma StoreData(w: World, s: State, m: Machine, x: string, v: Value, top: nat)
    requires Holds(w, s, m)
    requires InData(w.env, x) && Width(v) <= ByteWidth(w.env[x].ty)
    ensures var off := w.env[x].offset;
            && off + Width(v) <= |m.data.bytes|
            && var data := Store(m.data, off, v).value;
            && Holds(w, s.(vars := s.vars[x := v]), m.(data := data))
            && Same(w.env, top, m.data, data)
  {
    hide Load, Store, Same, Typed, ToBytes;
    var off := w.env[x].offset;
    OtherDataKept(w, s, m, x, v);
    LoadAfterStore(m.data, off, v);
    OwnBytes(w.env, x, Width(v), top);
    StoreKeepsProtected(w.env, top, m.data, off, v);
    TypedAfterWrite(w, s, x, v);
    hide Protected, LayoutOk;
  }

  /** Storing into a retained variable changes that variable and marks retain dirty. */
  lemma StoreRetained(w: World, s: State, m: Machine, x: string, v: Value)
    requires Holds(w, s, m)
    requires InRetain(w.env, x) && Width(v) <= ByteWidth(w.env[x].ty)
    ensures var off := w.env[x].offset;
            && off + Width(v) <= |m.retain.bytes|
            && var retain := Store(m.retain, off, v).value;
            Holds(w, s.(vars := s.vars[x := v], dirty := true), m.(retain := retain, retainDirty := true))
  {
    OtherRetainKept(w, s, m, x, v);
    LoadAfterStore(m.retain, w.env[x].offset, v);
    TypedAfterWrite(w, s, x, v);
    hide Load, Store, LayoutOk, Typed, ToBytes;
  }

  lemma TypedWidth(w: World, s: State, x: string)
    requires Typed(w, s) && (InData(w.env, x) || InRetain(w.env, x))
    ensures x in s.vars && Width(s.vars[x]) <= ByteWidth(w.env[x].ty)
  {}

  lemma TypedAfterWrite(w: World, s: State, x: string, v: Value)
    requires Typed(w, s) && (InData(w.env, x) || InRetain(w.env, x))
    requires Width(v) <= ByteWidth(w.env[x].ty)
    ensures Typed(w, s.(vars := s.vars[x := v]))
    ensures Typed(w, s.(vars := s.vars[x := v], dirty := true))
  {}

  lemma HoldsBasics(w: World, s: State, m: Machine)
    requires Holds(w, s, m)
    ensures m.Valid() && m.dataBase == 0 && m.frames == [] && |m.data.bytes| <= 0x100_0000
    ensures Typed(w, s)
  {}

  // ----- runs -----

  /** After `n` steps the machine is `m'`, which holds state `s`; scratch below `top`
      is untouched. */
  ghost predicate Goes(w: World, im: Image, top: nat, m: Machine, n: nat, s: State, m': Machine)
  {
    && m.Valid()
    && Run(im, m, n) == Running(m')
    && Holds(w, s, m')
    && Same(w.env, top, m.data, m'.data)
  }

  /** No run from here overflows the operand stack. */
  ghost predicate NeverOverflows(im: Image, m: Machine)
  {
    m.Valid() && forall n: nat :: Run(im, m, n) != Trapped(StackOverflow)
  }

  lemma StillNever(im: Image, m: Machine, n: nat, m': Machine)
    requires NeverOverflows(im, m) && Run(im, m, n) == Running(m')
    ensures NeverOverflows(im, m')
  {
    Then(im, m, n, m', 0);
    forall k: nat ensures Run(im, m', k) != Trapped(StackOverflow) {
      Then(im, m, n, m', k);
      assert Run(im, m, n + k) == Run(im, m', k);
    }
  }

  /** So an instruction that would overflow it is not next. */
  lemma NextFits(im: Image, m: Machine, i: Instr)
    requires NeverOverflows(im, m) && DecodesTo(im.code, m.pc, i)
    ensures StepInstr(im, m, i) != Trapped(StackOverflow)
  {
    hide StepInstr, Decode, Run;
    OneStep(im, m, i);
  }

  lemma GoesBasics(w: World, im: Image, top: nat, m: Machine, n: nat, s: State, m': Machine)
    requires Goes(w, im, top, m, n, s, m')
    ensures m.Valid() && m'.Valid() && m'.dataBase == 0 && m'.frames == []
    ensures |m'.data.bytes| == |m.data.bytes| <= 0x100_0000
    ensures Typed(w, s) && Holds(w, s, m')
    ensures Same(w.env, top, m.data, m'.data)
    ensures NeverOverflows(im, m) ==> NeverOverflows(im, m')
  {
    hide NeverOverflows, Run, Holds, Same;
    GoesHeld(w, im, top, m, n, s, m');
    if NeverOverflows(im, m) { StillNever(im, m, n, m'); }
  }

  lemma GoesHeld(w: World, im: Image, top: nat, m: Machine, n: nat, s: State, m': Machine)
    requires Goes(w, im, top, m, n, s, m')
    ensures m.Valid() && m'.Valid() && m'.dataBase == 0 && m'.frames == []
    ensures |m'.data.bytes| == |m.data.bytes| <= 0x100_0000 && Typed(w, s)
  {}

  lemma GoesTrans(w: World, im: Image, top: nat, m: Machine, a: nat, s1: State, m1: Machine,
                  top': nat, b: nat, s2: State, m2: Machine)
    requires top <= top' && Goes(w, im, top, m, a, s1, m1) && Goes(w, im, top', m1, b, s2, m2)
    ensures Goes(w, im, top, m, a + b, s2, m2)
  {
    hide Run, Same, Holds;
    Then(im, m, a, m1, b);
    SameTrans(w.env, top, top', m.data, m1.data, m2.data);
  }

  lemma GoesThen(w: World, im: Image, top: nat, m: Machine, a: nat, s1: State, m1: Machine, b: nat)
    requires Goes(w, im, top, m, a, s1, m1)
    ensures m.Valid() && m1.Valid()
    ensures Run(im, m, a + b) == Run(im, m1, b)
  {
    Then(im, m, a, m1, b);
  }

  /** An instruction that only moves the program counter and the stack. */
  lemma MoveGoes(w: World, im: Image, top: nat, s: State, m: Machine, i: Instr, pc: nat, stack: seq<Value>)
    returns (m': Machine)
    requires Holds(w, s, m) && DecodesTo(im.code, m.pc, i)
    requires StepInstr(im, m, i) == Running(m.(pc := pc, stack := stack)) && |stack| <= MAX_STACK
    ensures m' == m.(pc := pc, stack := stack)
    ensures Goes(w, im, top, m, 1, s, m')
  {
    hide StepInstr, Decode;
    m' := m.(pc := pc, stack := stack);
    OneStep(im, m, i);
    HoldsAfterMove(w, s, m, pc, stack);
  }

  lemma LiteralPush(im: Image, m: Machine, l: Literal)
    requires m.Valid()
    ensures StepInstr(im, m, PushLiteral(l)) == Push(m, LiteralValue(l), Size(PushLiteral(l)))
  {
    hide StepSimple, Wrap32;
    match l {
      case BoolLit(b) => BoolPush(im, m, b);
      case IntLit(n) => WrapOfWord(n);
      case RealLit(bits) =>
      case TimeLit(ms) => WrapOfWord(ms);
    }
  }

  lemma BoolPush(im: Image, m: Machine, b: bool)
    requires m.Valid()
    ensures StepSimple(im, m, PushIBool, if b then 1 else 0) == Push(m, Bool(b), 4)
  {}

  lemma WrapOfWord(n: int)
    ensures Wrap32(n % 0x1_0000_0000) == Wrap32(n) && (-0x8000_0000 <= n < 0x8000_0000 ==> Wrap32(n) == n)
  {}

  lemma PushLiteralGoes(w: World, im: Image, top: nat, s: State, m: Machine, l: Literal) returns (m': Machine)
    requires Holds(w, s, m) && DecodesTo(im.code, m.pc, PushLiteral(l)) && |m.stack| < MAX_STACK
    ensures m' == m.(pc := m.pc + Size(PushLiteral(l)), stack := m.stack + [LiteralValue(l)])
    ensures Goes(w, im, top, m, 1, s, m')
  {
    hide StepInstr, Holds, Decode, PushLiteral, LiteralValue;
    HoldsBasics(w, s, m);
    LiteralPush(im, m, l);
    m' := MoveGoes(w, im, top, s, m, PushLiteral(l), m.pc + Size(PushLiteral(l)), m.stack + [LiteralValue(l)]);
  }

  lemma JumpGoes(w: World, im: Image, top: nat, s: State, m: Machine, target: nat) returns (m': Machine)
    requires Holds(w, s, m) && DecodesTo(im.code, m.pc, Simple(Jmp, target))
    ensures m' == m.(pc := target)
    ensures Goes(w, im, top, m, 1, s, m')
  {
    assert StepInstr(im, m, Simple(Jmp, target)) == Running(m.(pc := target));
    assert m.(pc := target) == m.(pc := target, stack := m.stack);
    hide StepInstr, Holds, Decode;
    m' := MoveGoes(w, im, top, s, m, Simple(Jmp, target), target, m.stack);
  }

  /** A conditional jump consumes the condition. */
  lemma BranchGoes(w: World, im: Image, top: nat, s: State, m: Machine, op: Opcode, target: nat, rest: seq<Value>, v: Value)
    returns (m': Machine)
    requires Holds(w, s, m) && m.stack == rest + [v] && (op.JmpIf? || op.JmpIfNot?)
    requires DecodesTo(im.code, m.pc, Simple(op, target))
    ensures m' == m.(stack := rest, pc := if AsBool(v) == op.JmpIf? then target else m.pc + 4)
    ensures Goes(w, im, top, m, 1, s, m')
  {
    var pc := if AsBool(v) == op.JmpIf? then target else m.pc + 4;
    assert Drop(m, 1).stack == rest;
    assert StepInstr(im, m, Simple(op, target)) == Running(m.(pc := pc, stack := rest));
    hide StepInstr, Holds, Decode;
    m' := MoveGoes(w, im, top, s, m, Simple(op, target), pc, rest);
  }

  /** LD_DATA from a slot that is known to hold a value. */
  lemma LoadGoes(w: World, im: Image, top: nat, s: State, m: Machine, off: nat, v: Value) returns (m': Machine)
    requires Holds(w, s, m) && |m.stack| < MAX_STACK
    requires DecodesTo(im.code, m.pc, Simple(LdData, off)) && Load(m.data, off) == Some(v)
    ensures m' == m.(stack := m.stack + [v], pc := m.pc + 4)
    ensures Goes(w, im, top, m, 1, s, m')
  {
    assert off < |m.data.bytes|;
    assert StepInstr(im, m, Simple(LdData, off)) == Running(m.(pc := m.pc + 4, stack := m.stack + [v]));
    hide StepInstr, Holds, Decode, Load;
    m' := MoveGoes(w, im, top, s, m, Simple(LdData, off), m.pc + 4, m.stack + [v]);
  }

  lemma StoreStep(im: Image, m: Machine, off: nat, rest: seq<Value>, v: Value)
    requires m.Valid() && m.dataBase == 0 && m.stack == rest + [v]
    requires off + Width(v) <= |m.data.bytes| <= 0x100_0000
    ensures StepInstr(im, m, Simple(StData, off))
         == Running(m.(stack := rest, pc := m.pc + 4, data := Store(m.data, off, v).value))
  {
    assert Drop(m, 1).stack == rest;
    hide Store;
  }

  /** ST_DATA to a scratch slot. */
  lemma StoreScratchGoes(w: World, im: Image, top: nat, s: State, m: Machine, off: nat, rest: seq<Value>, v: Value)
    returns (m': Machine)
    requires Holds(w, s, m) && m.stack == rest + [v] && DecodesTo(im.code, m.pc, Simple(StData, off))
    requires Free(w.env, off, off + Width(v)) && off + Width(v) <= |m.data.bytes| && top <= off
    ensures Goes(w, im, top, m, 1, s, m')
    ensures m'.stack == rest && m'.pc == m.pc + 4 && m'.data.Valid() && Load(m'.data, off) == Some(v)
  {
    HoldsBasics(w, s, m);
    hide StepInstr, Holds, Decode, Load, Store, Same, Free, Run;
    StoreStep(im, m, off, rest, v);
    StoreScratch(w, s, m, off, v, top);
    OneStep(im, m, Simple(StData, off));
    var m1 := m.(data := Store(m.data, off, v).value);
    m' := m1.(stack := rest, pc := m.pc + 4);
    HoldsAfterMove(w, s, m1, m.pc + 4, rest);
  }

  /** A binary operator replaces its two operands by the result, or traps. */
  lemma OperatorStep(im: Image, m: Machine, op: Opcode, rest: seq<Value>, x: Value, y: Value)
    requires m.Valid() && m.stack == rest + [x, y] && IsBinary(op)
    ensures var r := Binop(im.platform, op, x, y);
            StepInstr(im, m, Simple(op, 0))
            == if r.Ok? then Running(m.(stack := rest + [r.value], pc := m.pc + 4)) else Trapped(r.trap)
  {
    assert Drop(m, 2).stack == rest;
    hide Binop;
  }

  lemma OperatorGoes(w: World, im: Image, top: nat, s: State, m: Machine, op: Opcode, rest: seq<Value>, x: Value, y: Value)
    returns (m': Machine)
    requires im.platform == w.platform
    requires Holds(w, s, m) && m.stack == rest + [x, y] && IsBinary(op)
    requires DecodesTo(im.code, m.pc, Simple(op, 0))
    ensures m.Valid()
    ensures var r := Binop(w.platform, op, x, y);
            if r.Err? then Run(im, m, 1) == Trapped(r.trap)
            else Goes(w, im, top, m, 1, s, m') && m' == m.(stack := rest + [r.value], pc := m.pc + 4)
  {
    HoldsBasics(w, s, m);
    hide StepInstr, Holds, Decode, Binop, Run, IsBinary;
    OperatorStep(im, m, op, rest, x, y);
    OneStep(im, m, Simple(op, 0));
    var r := Binop(w.platform, op, x, y);
    m' := m;
    if r.Ok? { m' := MoveGoes(w, im, top, s, m, Simple(op, 0), m.pc + 4, rest + [r.value]); }
  }

  // ----- scopes -----

  /** The final scope agrees with a scope reached on the way, and everything it adds
      lies above that point's frontier. */
  ghost predicate Fits(gEnd: nat, full: Env, env: Env, cur: nat)
  {
    && (forall x :: x in env ==> x in full && full[x] == env[x])
    && (forall x :: InData(full, x) && x !in env ==> Frontier(gEnd, cur) <= full[x].offset)
  }

  lemma FitsBefore(gEnd: nat, full: Env, env: Env, cur: nat, env': Env, cur': nat)
    requires Grows(gEnd, env, cur, env', cur') && Fits(gEnd, full, env', cur')
    ensures Fits(gEnd, full, env, cur)
  {}

  /** Scratch handed out while the scope stays the same is free. */
  lemma FreeBetween(gEnd: nat, full: Env, env: Env, lo: nat, hi: nat)
    requires Below(gEnd, env, lo) && Fits(gEnd, full, env, hi)
    ensures Free(full, Frontier(gEnd, lo), hi)
  {}

  lemma FreeWithin(env: Env, lo: nat, hi: nat, lo': nat, hi': nat)
    requires Free(env, lo, hi) && lo <= lo' && hi' <= hi
    ensures Free(env, lo', hi')
  {}
}
