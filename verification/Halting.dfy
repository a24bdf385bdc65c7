/** Compiled code stops, whatever memory holds and whatever its stores do to it: the counter
    of a loop counts down, or is spoiled and traps the lap that spoiled it. */
module Halting {
  import opened Bytes
  import opened Ir
  import opened Vm
  import opened St
  import opened Lower
  import opened Sizes
  import opened Unfold
  import opened Check
  import opened Scope
  import opened Simulation
  import opened ExprCorrect
  import opened Place
  import opened StmtCorrect
  import opened Loops

  /** A machine in a task body; nothing is said about its stack and its memory. */
  ghost predicate InTask(m: Machine) { m.Valid() && m.frames == [] && m.dataBase == 0 }

  // ----- counter cells -----

  /** Four bytes below the frontier in which no variable starts. */
  ghost predicate Cell(gEnd: nat, env: Env, cur: nat, c: nat)
  {
    c + 4 <= Frontier(gEnd, cur) && forall x :: InData(env, x) ==> env[x].offset < c || c + 4 <= env[x].offset
  }

  /** The cell has the bytes and the tag it had, or no tag. */
  ghost predicate Spared(a: Segment, b: Segment, c: nat)
  {
    && a.Valid() && b.Valid() && |a.bytes| == |b.bytes|
    && (c + 4 <= |a.bytes| ==>
          b.tags[c] == TAG_UNSET || (b.tags[c] == a.tags[c] && b.bytes[c..c + 4] == a.bytes[c..c + 4]))
  }

  /** No cell was changed but by losing its tag. */
  ghost predicate Leaves(gEnd: nat, env: Env, cur: nat, a: Segment, b: Segment)
  {
    && a.Valid() && b.Valid() && |a.bytes| == |b.bytes|
    && forall c :: Cell(gEnd, env, cur, c) ==> Spared(a, b, c)
  }

  lemma LeavesTrans(gEnd: nat, env: Env, cur: nat, env': Env, cur': nat, a: Segment, b: Segment, d: Segment)
    requires Grows(gEnd, env, cur, env', cur')
    requires Leaves(gEnd, env, cur, a, b) && Leaves(gEnd, env', cur', b, d)
    ensures Leaves(gEnd, env, cur, a, d)
  {
    forall c | Cell(gEnd, env, cur, c) ensures Spared(a, d, c) {
      assert Cell(gEnd, env', cur', c) by { CellStays(gEnd, env, cur, env', cur', c); }
      assert Spared(a, b, c) && Spared(b, d, c);
    }
  }

  lemma CellStays(gEnd: nat, env: Env, cur: nat, env': Env, cur': nat, c: nat)
    requires Grows(gEnd, env, cur, env', cur') && Cell(gEnd, env, cur, c)
    ensures Cell(gEnd, env', cur', c)
  {
    forall x | InData(env', x) ensures env'[x].offset < c || c + 4 <= env'[x].offset {
      if x in env { assert InData(env, x); }
    }
  }

  lemma LeavesSame(gEnd: nat, env: Env, cur: nat, a: Segment)
    requires a.Valid()
    ensures Leaves(gEnd, env, cur, a, a)
  {}

  /** An offset at which stores start without starting in a cell. */
  ghost predicate Apart(gEnd: nat, env: Env, cur: nat, off: nat)
  {
    Frontier(gEnd, cur) <= off || exists x :: InData(env, x) && env[x].offset == off
  }

  /** A store that does not start in the cell leaves it, or takes its tag. */
  lemma StoreSpares(s: Segment, off: nat, v: Value, c: nat)
    requires s.Valid() && off + Width(v) <= |s.bytes| && (off < c || c + 4 <= off)
    ensures Spared(s, Store(s, off, v).value, c)
  {
    var r := Store(s, off, v).value;
    if c + 4 <= |s.bytes| {
      if off < c < off + Width(v) {
        assert r.tags[c] == TAG_UNSET;
      } else {
        forall p | c <= p < c + 4 ensures r.bytes[p] == s.bytes[p] { StoreOutside(s, off, v, p); }
        StoreOutside(s, off, v, c);
        assert r.bytes[c..c + 4] == s.bytes[c..c + 4];
      }
    }
  }

  lemma StoreLeaves(gEnd: nat, env: Env, cur: nat, s: Segment, off: nat, v: Value)
    requires s.Valid() && off + Width(v) <= |s.bytes| && Apart(gEnd, env, cur, off)
    ensures Leaves(gEnd, env, cur, s, Store(s, off, v).value)
  {
    hide Store;
    forall c | Cell(gEnd, env, cur, c) ensures Spared(s, Store(s, off, v).value, c) {
      StoreSpares(s, off, v, c);
    }
  }

  // ----- landing -----

  /** After `n` steps the run has ended, or control is at `pc` with all cells left. */
  ghost predicate Lands(im: Image, gEnd: nat, env: Env, cur: nat, m: Machine, n: nat, pc: nat, m': Machine)
  {
    m.Valid() && (Run(im, m, n).Running? ==>
      Run(im, m, n) == Running(m') && InTask(m') && m'.pc == pc && Leaves(gEnd, env, cur, m.data, m'.data))
  }

  ghost predicate Ended(im: Image, m: Machine, n: nat) { m.Valid() && !Run(im, m, n).Running? }

  lemma Landed(im: Image, gEnd: nat, env: Env, cur: nat, m: Machine, n: nat, pc: nat, m': Machine)
    requires Lands(im, gEnd, env, cur, m, n, pc, m') && !Ended(im, m, n)
    ensures m.Valid() && InTask(m') && m'.pc == pc && |m'.data.bytes| == |m.data.bytes|
    ensures Run(im, m, n) == Running(m') && Leaves(gEnd, env, cur, m.data, m'.data)
  {
    hide Run;
  }

  lemma LandsHere(im: Image, gEnd: nat, env: Env, cur: nat, m: Machine)
    requires InTask(m)
    ensures Lands(im, gEnd, env, cur, m, 0, m.pc, m)
  {
    LeavesSame(gEnd, env, cur, m.data);
  }

  lemma LandsEnded(im: Image, gEnd: nat, env: Env, cur: nat, m: Machine, n: nat, pc: nat, m': Machine)
    requires Ended(im, m, n)
    ensures Lands(im, gEnd, env, cur, m, n, pc, m')
  {
    hide Run;
  }

  /** A later piece of code, in the same scope or one that extends it. */
  lemma LandsThen(im: Image, gEnd: nat, env: Env, cur: nat, m: Machine, a: nat, pc: nat, m1: Machine,
                  env': Env, cur': nat, b: nat, pc': nat, m2: Machine)
    requires Lands(im, gEnd, env, cur, m, a, pc, m1) && !Ended(im, m, a)
    requires Grows(gEnd, env, cur, env', cur') && Lands(im, gEnd, env', cur', m1, b, pc', m2)
    ensures Lands(im, gEnd, env, cur, m, a + b, pc', m2)
    ensures Ended(im, m, a + b) <==> Ended(im, m1, b)
  {
    hide Run, Leaves, Grows;
    Then(im, m, a, m1, b);
    if Run(im, m1, b).Running? { LeavesTrans(gEnd, env, cur, env', cur', m.data, m1.data, m2.data); }
  }

  lemma GrowsSame(gEnd: nat, env: Env, cur: nat, cur': nat)
    requires cur <= cur'
    ensures Grows(gEnd, env, cur, env, cur')
  {}

  lemma ExtendsGrows(gEnd: nat, env: Env, cur: nat, env': Env, cur': nat)
    requires Extends(gEnd, env, cur, env', cur') && Scoped(gEnd, env, cur)
    ensures Grows(gEnd, env, cur, env', cur') && Scoped(gEnd, env', cur')
  {}

  // ----- single instructions -----

  lemma OperandSmall(code: seq<byte>, pc: nat, op: Opcode, n: nat)
    requires DecodesTo(code, pc, Simple(op, n))
    ensures n < 0x100_0000
  {
    Powers();
    assert n == FromLe(code[pc..pc + 3]);
  }

  /** Instructions that go on to the next one and leave the data segment alone. */
  predicate Straight(i: Instr)
  {
    match i
    case Simple(op, _) =>
      !op.Halt? && !op.Ret? && !op.StData? && !op.Jmp? && !op.JmpIf? && !op.JmpIfNot? && !op.CallFb?
    case WithImm32(_, _, _) => true
    case Call(_, _, _) => false
  }

  /** One step further, the data segment as it was. */
  ghost predicate GoesOn(m: Machine, r: Outcome, size: nat)
  {
    r.Running? ==> InTask(r.m) && r.m.pc == m.pc + size && r.m.data == m.data
  }

  lemma StraightStep(im: Image, m: Machine, i: Instr)
    requires InTask(m) && Straight(i)
    ensures GoesOn(m, StepInstr(im, m, i), Size(i))
  {
    hide StepLoad, StepStore, StepUnary, StepBinary, StepConv, Wrap32;
    match i {
      case Simple(op, n) =>
        if op.LdData? || op.LdRetain? || op.LdI? || op.LdQ? || op.LdIq? {
          LoadGoesOn(m, op, n);
        } else if op.StQ? || op.StRetain? {
          StoreGoesOn(m, op, n);
        } else {
          OperatorGoesOn(im, m, op, n);
        }
      case WithImm32(_, _, _) =>
    }
  }

  lemma LoadGoesOn(m: Machine, op: Opcode, n: nat)
    requires InTask(m)
    ensures GoesOn(m, StepLoad(m, op, n), 4)
  {
    hide Load;
  }

  lemma StoreGoesOn(m: Machine, op: Opcode, n: nat)
    requires InTask(m) && !op.StData?
    ensures GoesOn(m, StepStore(m, op, n), 4)
  {
    hide Store;
  }

  lemma OperatorGoesOn(im: Image, m: Machine, op: Opcode, n: nat)
    requires InTask(m)
    ensures op.Neg? || op.Not? ==> GoesOn(m, StepUnary(im, m, op), 4)
    ensures IsBinary(op) ==> GoesOn(m, StepBinary(im, m, op), 4)
    ensures GoesOn(m, StepConv(im, m, n), 4)
  {
    hide Unop, Binop, Convert;
  }

  lemma StraightLands(im: Image, gEnd: nat, env: Env, cur: nat, m: Machine, i: Instr) returns (m': Machine)
    requires InTask(m) && Straight(i) && DecodesTo(im.code, m.pc, i)
    ensures Lands(im, gEnd, env, cur, m, 1, m.pc + Size(i), m')
    ensures !Ended(im, m, 1) ==> m'.data == m.data && StepInstr(im, m, i) == Running(m')
  {
    OneStep(im, m, i);
    StraightStep(im, m, i);
    hide StepInstr, Run, Straight, Decode;
    var r := StepInstr(im, m, i);
    m' := if r.Running? then r.m else m;
    LeavesSame(gEnd, env, cur, m.data);
  }

  lemma StoreLands(im: Image, gEnd: nat, env: Env, cur: nat, m: Machine, off: nat) returns (m': Machine)
    requires InTask(m) && Apart(gEnd, env, cur, off) && DecodesTo(im.code, m.pc, Simple(StData, off))
    ensures Lands(im, gEnd, env, cur, m, 1, m.pc + 4, m')
    ensures !Ended(im, m, 1) ==> StoredTop(m, off, m')
  {
    hide Run, Decode, Leaves, Apart, Store, Load;
    OneStep(im, m, Simple(StData, off));
    OperandSmall(im.code, m.pc, StData, off);
    var r := StepInstr(im, m, Simple(StData, off));
    m' := if r.Running? then r.m else m;
    if r.Running? { StoreLeaves(gEnd, env, cur, m.data, off, Top(m)); }
  }

  /** The top of the stack went to the data segment. */
  ghost predicate StoredTop(m: Machine, off: nat, m': Machine)
  {
    && m.Valid() && m.stack != [] && Store(m.data, off, Top(m)) == Some(m'.data)
    && off + Width(Top(m)) <= |m.data.bytes|
  }

  lemma JumpLands(im: Image, gEnd: nat, env: Env, cur: nat, m: Machine, target: nat) returns (m': Machine)
    requires InTask(m) && DecodesTo(im.code, m.pc, Simple(Jmp, target))
    ensures Lands(im, gEnd, env, cur, m, 1, target, m') && m'.data == m.data
  {
    hide Run, Decode;
    OneStep(im, m, Simple(Jmp, target));
    m' := m.(pc := target);
    LeavesSame(gEnd, env, cur, m.data);
  }

  /** A conditional jump lands at its target or behind itself. */
  lemma BranchLands(im: Image, gEnd: nat, env: Env, cur: nat, m: Machine, op: Opcode, target: nat) returns (m': Machine, jumps: bool)
    requires InTask(m) && DecodesTo(im.code, m.pc, Simple(op, target)) && (op.JmpIf? || op.JmpIfNot?)
    ensures Lands(im, gEnd, env, cur, m, 1, if jumps then target else m.pc + 4, m') && m'.data == m.data
    ensures m.stack != [] ==> jumps == (AsBool(Top(m)) == op.JmpIf?)
  {
    hide Run, Decode;
    OneStep(im, m, Simple(op, target));
    var r := StepInstr(im, m, Simple(op, target));
    m' := if r.Running? then r.m else m;
    jumps := m.stack != [] && AsBool(Top(m)) == op.JmpIf?;
    LeavesSame(gEnd, env, cur, m.data);
  }

  // ----- expressions -----

  lemma {:induction false} ExprLands(im: Image, gEnd: nat, env: Env, cur: nat, m: Machine, e: Expr) returns (n: nat, m': Machine)
    requires InTask(m) && CodeAt(im.code, m.pc, LowerExpr(gEnd, env, cur, m.pc, e).ins)
    ensures n <= ExprSteps(e)
    ensures Lands(im, gEnd, env, cur, m, n, m.pc + CodeSize(LowerExpr(gEnd, env, cur, m.pc, e).ins), m')
    decreases e, 1
  {
    hide Lands, CodeAt;
    match e {
      case Unary(_, _) => n, m' := UnaryLands(im, gEnd, env, cur, m, e);
      case Binary(op, _, _) =>
        if op.AndAlso? || op.OrElse? {
          n, m' := ShortLands(im, gEnd, env, cur, m, e);
        } else {
          n, m' := PlainLands(im, gEnd, env, cur, m, e);
        }
      case _ => n, m' := LeafLands(im, gEnd, env, cur, m, e);
    }
  }

  lemma LeafLands(im: Image, gEnd: nat, env: Env, cur: nat, m: Machine, e: Expr) returns (n: nat, m': Machine)
    requires InTask(m) && CodeAt(im.code, m.pc, LowerExpr(gEnd, env, cur, m.pc, e).ins)
    requires e.Literal? || e.Name? || e.QGood?
    ensures n <= ExprSteps(e)
    ensures Lands(im, gEnd, env, cur, m, n, m.pc + CodeSize(LowerExpr(gEnd, env, cur, m.pc, e).ins), m')
  {
    hide Lands, CodeAt, Decode;
    var i := LowerExpr(gEnd, env, cur, m.pc, e).ins[0];
    assert LowerExpr(gEnd, env, cur, m.pc, e).ins == [i];
    CodeAtOne(im.code, m.pc, i);
    m' := StraightLands(im, gEnd, env, cur, m, i);
    n := 1;
  }

  lemma {:induction false} UnaryLands(im: Image, gEnd: nat, env: Env, cur: nat, m: Machine, e: Expr) returns (n: nat, m': Machine)
    requires InTask(m) && CodeAt(im.code, m.pc, LowerExpr(gEnd, env, cur, m.pc, e).ins)
    requires e.Unary?
    ensures n <= ExprSteps(e)
    ensures Lands(im, gEnd, env, cur, m, n, m.pc + CodeSize(LowerExpr(gEnd, env, cur, m.pc, e).ins), m')
    decreases e, 0
  {
    hide Lands, CodeAt, Decode, LowerExpr, CodeSize, Grows, Ended;
    UnaryLowered(gEnd, env, cur, m.pc, e);
    var a := LowerExpr(gEnd, env, cur, m.pc, e.arg);
    var i := Simple(if e.uop.Invert? then Not else Neg, 0);
    CodeAtSplit(im.code, m.pc, a.ins, [i]);
    CodeSizeAppend(a.ins, [i]);
    CodeAtOne(im.code, m.pc + CodeSize(a.ins), i);
    n, m' := ExprLands(im, gEnd, env, cur, m, e.arg);
    n, m' := ThenStraight(im, gEnd, env, cur, m, n, m.pc + CodeSize(a.ins), m', i);
  }

  /** A piece of code and one more straight instruction. */
  lemma ThenStraight(im: Image, gEnd: nat, env: Env, cur: nat, m: Machine, a: nat, pc: nat, m1: Machine, i: Instr)
    returns (n: nat, m': Machine)
    requires Lands(im, gEnd, env, cur, m, a, pc, m1) && Straight(i) && DecodesTo(im.code, pc, i)
    ensures a <= n <= a + 1 && Lands(im, gEnd, env, cur, m, n, pc + Size(i), m')
  {
    hide Lands, Decode, Grows, Ended, Straight;
    n, m' := a, m1;
    if Ended(im, m, a) {
      LandsEnded(im, gEnd, env, cur, m, a, pc + Size(i), m');
    } else {
      Landed(im, gEnd, env, cur, m, a, pc, m1);
      m' := StraightLands(im, gEnd, env, cur, m1, i);
      GrowsSame(gEnd, env, cur, cur);
      LandsThen(im, gEnd, env, cur, m, a, pc, m1, env, cur, 1, pc + Size(i), m');
      n := a + 1;
    }
  }

  /** A piece of code and a store. */
  lemma ThenStore(im: Image, gEnd: nat, env: Env, cur: nat, m: Machine, a: nat, pc: nat, m1: Machine, off: nat)
    returns (n: nat, m': Machine)
    requires Lands(im, gEnd, env, cur, m, a, pc, m1) && Apart(gEnd, env, cur, off) && DecodesTo(im.code, pc, Simple(StData, off))
    ensures a <= n <= a + 1 && Lands(im, gEnd, env, cur, m, n, pc + 4, m')
  {
    hide Lands, Decode, Grows, Ended, Apart, StoredTop;
    n, m' := a, m1;
    if Ended(im, m, a) {
      LandsEnded(im, gEnd, env, cur, m, a, pc + 4, m');
    } else {
      Landed(im, gEnd, env, cur, m, a, pc, m1);
      m' := StoreLands(im, gEnd, env, cur, m1, off);
      GrowsSame(gEnd, env, cur, cur);
      LandsThen(im, gEnd, env, cur, m, a, pc, m1, env, cur, 1, pc + 4, m');
      n := a + 1;
    }
  }

  lemma ThenJump(im: Image, gEnd: nat, env: Env, cur: nat, m: Machine, a: nat, pc: nat, m1: Machine, target: nat)
    returns (n: nat, m': Machine)
    requires Lands(im, gEnd, env, cur, m, a, pc, m1) && DecodesTo(im.code, pc, Simple(Jmp, target))
    ensures a <= n <= a + 1 && Lands(im, gEnd, env, cur, m, n, target, m')
    ensures !Ended(im, m, n) ==> !Ended(im, m, a) && m'.data == m1.data
  {
    hide Lands, Decode, Grows, Ended;
    n, m' := a, m1;
    if Ended(im, m, a) {
      LandsEnded(im, gEnd, env, cur, m, a, target, m');
    } else {
      Landed(im, gEnd, env, cur, m, a, pc, m1);
      m' := JumpLands(im, gEnd, env, cur, m1, target);
      GrowsSame(gEnd, env, cur, cur);
      LandsThen(im, gEnd, env, cur, m, a, pc, m1, env, cur, 1, target, m');
      n := a + 1;
    }
  }

  lemma ThenBranch(im: Image, gEnd: nat, env: Env, cur: nat, m: Machine, a: nat, pc: nat, m1: Machine, op: Opcode, target: nat)
    returns (n: nat, m': Machine, jumps: bool)
    requires Lands(im, gEnd, env, cur, m, a, pc, m1) && DecodesTo(im.code, pc, Simple(op, target)) && (op.JmpIf? || op.JmpIfNot?)
    ensures a <= n <= a + 1 && Lands(im, gEnd, env, cur, m, n, if jumps then target else pc + 4, m')
  {
    hide Lands, Decode, Grows, Ended;
    n, m', jumps := a, m1, false;
    if Ended(im, m, a) {
      LandsEnded(im, gEnd, env, cur, m, a, pc + 4, m');
    } else {
      Landed(im, gEnd, env, cur, m, a, pc, m1);
      m', jumps := BranchLands(im, gEnd, env, cur, m1, op, target);
      GrowsSame(gEnd, env, cur, cur);
      LandsThen(im, gEnd, env, cur, m, a, pc, m1, env, cur, 1, if jumps then target else pc + 4, m');
      n := a + 1;
    }
  }

  /** A piece of code and an expression in the same or a later scope. */
  lemma {:induction false} ThenExpr(im: Image, gEnd: nat, env0: Env, cur0: nat, m: Machine, a: nat, pc: nat, m1: Machine, env: Env, cur: nat, e: Expr)
    returns (n: nat, m': Machine)
    requires Lands(im, gEnd, env0, cur0, m, a, pc, m1) && Grows(gEnd, env0, cur0, env, cur)
    requires CodeAt(im.code, pc, LowerExpr(gEnd, env, cur, pc, e).ins)
    ensures a <= n <= a + ExprSteps(e)
    ensures Lands(im, gEnd, env0, cur0, m, n, pc + CodeSize(LowerExpr(gEnd, env, cur, pc, e).ins), m')
    decreases e, 2
  {
    hide Lands, Decode, Grows, Ended, CodeAt, LowerExpr, CodeSize;
    var pc' := pc + CodeSize(LowerExpr(gEnd, env, cur, pc, e).ins);
    n, m' := a, m1;
    if Ended(im, m, a) {
      LandsEnded(im, gEnd, env0, cur0, m, a, pc', m');
    } else {
      Landed(im, gEnd, env0, cur0, m, a, pc, m1);
      n, m' := ExprLands(im, gEnd, env, cur, m1, e);
      LandsThen(im, gEnd, env0, cur0, m, a, pc, m1, env, cur, n, pc', m');
      n := a + n;
    }
  }

  lemma {:induction false} PlainLands(im: Image, gEnd: nat, env: Env, cur: nat, m: Machine, e: Expr) returns (n: nat, m': Machine)
    requires InTask(m) && CodeAt(im.code, m.pc, LowerExpr(gEnd, env, cur, m.pc, e).ins)
    requires e.Binary? && !e.bop.AndAlso? && !e.bop.OrElse?
    ensures n <= ExprSteps(e)
    ensures Lands(im, gEnd, env, cur, m, n, m.pc + CodeSize(LowerExpr(gEnd, env, cur, m.pc, e).ins), m')
    decreases e, 0
  {
    hide Lands, CodeAt, Decode, LowerExpr, CodeSize, OpcodeOf, IsBinary, Grows;
    LoweredPlain(gEnd, env, cur, m.pc, e);
    var a := LowerExpr(gEnd, env, cur, m.pc, e.left);
    var b := LowerExpr(gEnd, env, a.cur, m.pc + CodeSize(a.ins), e.right);
    var i := Simple(OpcodeOf(e.bop), 0);
    CodeAtSplit3(im.code, m.pc, a.ins, b.ins, [i]);
    CodeSizeAppend(a.ins + b.ins, [i]);
    CodeSizeAppend(a.ins, b.ins);
    CodeAtOne(im.code, m.pc + CodeSize(a.ins) + CodeSize(b.ins), i);
    ExprExtends(gEnd, env, cur, m.pc, e.left);
    assert Straight(i) by { OperatorStraight(e.bop); }
    n, m' := ExprLands(im, gEnd, env, cur, m, e.left);
    GrowsSame(gEnd, env, cur, a.cur);
    n, m' := ThenExpr(im, gEnd, env, cur, m, n, m.pc + CodeSize(a.ins), m', env, a.cur, e.right);
    n, m' := ThenStraight(im, gEnd, env, cur, m, n, m.pc + CodeSize(a.ins) + CodeSize(b.ins), m', i);
  }

  lemma OperatorStraight(op: BinaryOp)
    ensures Straight(Simple(OpcodeOf(op), 0)) && Size(Simple(OpcodeOf(op), 0)) == 4
  {}

  lemma {:induction false} ShortLands(im: Image, gEnd: nat, env: Env, cur: nat, m: Machine, e: Expr) returns (n: nat, m': Machine)
    requires InTask(m) && CodeAt(im.code, m.pc, LowerExpr(gEnd, env, cur, m.pc, e).ins)
    requires e.Binary? && (e.bop.AndAlso? || e.bop.OrElse?)
    ensures n <= ExprSteps(e)
    ensures Lands(im, gEnd, env, cur, m, n, m.pc + CodeSize(LowerExpr(gEnd, env, cur, m.pc, e).ins), m')
    decreases e, 0
  {
    hide Lands, CodeAt, Decode, LowerExpr, CodeSize, PlanShort, Grows;
    ShortPieces(im.code, gEnd, env, cur, m.pc, e);
    var p := PlanShort(gEnd, env, cur, m.pc, e);
    var jumps;
    n, m' := ExprLands(im, gEnd, env, cur, m, e.left);
    n, m' := ThenStore(im, gEnd, env, cur, m, n, p.rightPc - 12, m', p.tmp);
    n, m' := ThenStraight(im, gEnd, env, cur, m, n, p.rightPc - 8, m', Simple(LdData, p.tmp));
    n, m', jumps := ThenBranch(im, gEnd, env, cur, m, n, p.rightPc - 4, m', if e.bop.OrElse? then JmpIf else JmpIfNot, p.skip);
    if jumps {
      n, m' := ThenStraight(im, gEnd, env, cur, m, n, p.skip, m', Simple(PushIBool, if e.bop.OrElse? then 1 else 0));
    } else {
      GrowsSame(gEnd, env, cur, p.next);
      n, m' := ThenExpr(im, gEnd, env, cur, m, n, p.rightPc, m', env, p.next, e.right);
      n, m' := ThenJump(im, gEnd, env, cur, m, n, p.skip - 4, m', p.skip + 4);
    }
  }

  // ----- statements -----

  lemma ApartEarlier(gEnd: nat, env: Env, cur: nat, env': Env, cur': nat, off: nat)
    requires Grows(gEnd, env, cur, env', cur') && Apart(gEnd, env', cur', off)
    ensures Apart(gEnd, env, cur, off)
  {
    if off < Frontier(gEnd, cur) {
      var x :| InData(env', x) && env'[x].offset == off;
      assert InData(env, x);
    }
  }

  lemma GrowsTrans(gEnd: nat, e0: Env, c0: nat, e1: Env, c1: nat, e2: Env, c2: nat)
    requires Grows(gEnd, e0, c0, e1, c1) && Grows(gEnd, e1, c1, e2, c2)
    ensures Grows(gEnd, e0, c0, e2, c2)
  {}

  /** Control went from `m` to `pc`, which lies in a scope that extends the one at `m`. */
  ghost predicate Came(im: Image, gEnd: nat, env0: Env, cur0: nat, m: Machine, a: nat, pc: nat, m1: Machine, env: Env, cur: nat)
  {
    Lands(im, gEnd, env0, cur0, m, a, pc, m1) && Grows(gEnd, env0, cur0, env, cur) && Scoped(gEnd, env, cur)
  }

  lemma CameFurther(im: Image, gEnd: nat, env0: Env, cur0: nat, m: Machine, a: nat, pc: nat, m1: Machine, env: Env, cur: nat,
                    n: nat, pc': nat, m': Machine, env': Env, cur': nat)
    requires Came(im, gEnd, env0, cur0, m, a, pc, m1, env, cur) && Extends(gEnd, env, cur, env', cur')
    requires Lands(im, gEnd, env0, cur0, m, n, pc', m')
    ensures Came(im, gEnd, env0, cur0, m, n, pc', m', env', cur')
  {
    hide Lands, Scoped, Grows;
    ExtendsGrows(gEnd, env, cur, env', cur');
    GrowsTrans(gEnd, env0, cur0, env, cur, env', cur');
  }

  /** An expression in the scope that was come to. */
  lemma CameExpr(im: Image, gEnd: nat, env0: Env, cur0: nat, m: Machine, a: nat, pc: nat, m1: Machine, env: Env, cur: nat, e: Expr)
    returns (n: nat, m': Machine)
    requires Came(im, gEnd, env0, cur0, m, a, pc, m1, env, cur) && CodeAt(im.code, pc, LowerExpr(gEnd, env, cur, pc, e).ins)
    ensures a <= n <= a + ExprSteps(e)
    ensures var c := LowerExpr(gEnd, env, cur, pc, e); Came(im, gEnd, env0, cur0, m, n, pc + CodeSize(c.ins), m', env, c.cur)
  {
    hide Lands, CodeAt, LowerExpr, CodeSize, Extends, Grows, Scoped;
    var c := LowerExpr(gEnd, env, cur, pc, e);
    n, m' := ThenExpr(im, gEnd, env0, cur0, m, a, pc, m1, env, cur, e);
    ExprExtends(gEnd, env, cur, pc, e);
    CameFurther(im, gEnd, env0, cur0, m, a, pc, m1, env, cur, n, pc + CodeSize(c.ins), m', env, c.cur);
  }

  /** A store in the scope that was come to. */
  lemma CameStore(im: Image, gEnd: nat, env0: Env, cur0: nat, m: Machine, a: nat, pc: nat, m1: Machine, env: Env, cur: nat, off: nat)
    returns (n: nat, m': Machine)
    requires Came(im, gEnd, env0, cur0, m, a, pc, m1, env, cur) && Apart(gEnd, env, cur, off) && DecodesTo(im.code, pc, Simple(StData, off))
    ensures a <= n <= a + 1 && Came(im, gEnd, env0, cur0, m, n, pc + 4, m', env, cur)
  {
    hide Lands, Grows, Apart, Decode, Scoped;
    ApartEarlier(gEnd, env0, cur0, env, cur, off);
    n, m' := ThenStore(im, gEnd, env0, cur0, m, a, pc, m1, off);
  }

  lemma CameMoves(im: Image, gEnd: nat, env0: Env, cur0: nat, m: Machine, a: nat, pc: nat, m1: Machine, env: Env, cur: nat, cur': nat)
    requires Came(im, gEnd, env0, cur0, m, a, pc, m1, env, cur) && cur <= cur'
    ensures Came(im, gEnd, env0, cur0, m, a, pc, m1, env, cur')
  {
    hide Lands;
    CursorMoves(gEnd, env, cur, cur');
    CameFurther(im, gEnd, env0, cur0, m, a, pc, m1, env, cur, a, pc, m1, env, cur');
  }

  lemma {:induction false} CameStmt(im: Image, gEnd: nat, env0: Env, cur0: nat, m: Machine, a: nat, pc: nat, m1: Machine, env: Env, cur: nat, s: Stmt)
    returns (n: nat, m': Machine)
    requires Came(im, gEnd, env0, cur0, m, a, pc, m1, env, cur)
    requires CheckStmt(gEnd, env, cur, pc, s).Accept? && CodeAt(im.code, pc, LowerStmt(gEnd, env, cur, pc, s).ins)
    ensures a <= n <= a + StmtSteps(s)
    ensures var b := LowerStmt(gEnd, env, cur, pc, s); Came(im, gEnd, env0, cur0, m, n, pc + CodeSize(b.ins), m', b.env, b.cur)
    decreases s, 2
  {
    hide Lands, Came, CodeAt, LowerStmt, CheckStmt, StmtSteps, CodeSize, Extends;
    var b := LowerStmt(gEnd, env, cur, pc, s);
    match s {
      case Empty => n, m' := EmptyLands(im, gEnd, env0, cur0, m, a, pc, m1, env, cur, s);
      case Return => n, m' := ReturnLands(im, gEnd, env0, cur0, m, a, pc, m1, env, cur, s);
      case Assign(_, _) => n, m' := AssignLands(im, gEnd, env0, cur0, m, a, pc, m1, env, cur, s);
      case If(_, _) => n, m' := IfLands(im, gEnd, env0, cur0, m, a, pc, m1, env, cur, s);
      case Case(_, _, _) => n, m' := CaseLands(im, gEnd, env0, cur0, m, a, pc, m1, env, cur, s);
      case While(_, _, _) => n, m' := WhileLands(im, gEnd, env0, cur0, m, a, pc, m1, env, cur, s);
      case For(_, _, _, _, _, _) => n, m' := ForLands(im, gEnd, env0, cur0, m, a, pc, m1, env, cur, s);
    }
    StmtExtends(gEnd, env, cur, pc, s);
    CameLands(im, gEnd, env0, cur0, m, a, pc, m1, env, cur);
    CameFurther(im, gEnd, env0, cur0, m, a, pc, m1, env, cur, n, pc + CodeSize(b.ins), m', b.env, b.cur);
  }

  lemma CameLands(im: Image, gEnd: nat, env0: Env, cur0: nat, m: Machine, a: nat, pc: nat, m1: Machine, env: Env, cur: nat)
    requires Came(im, gEnd, env0, cur0, m, a, pc, m1, env, cur)
    ensures Lands(im, gEnd, env0, cur0, m, a, pc, m1) && Scoped(gEnd, env, cur) && Grows(gEnd, env0, cur0, env, cur)
  {
    hide Lands, Scoped, Grows;
  }

  lemma EmptyLands(im: Image, gEnd: nat, env0: Env, cur0: nat, m: Machine, a: nat, pc: nat, m1: Machine, env: Env, cur: nat, s: Stmt)
    returns (n: nat, m': Machine)
    requires Came(im, gEnd, env0, cur0, m, a, pc, m1, env, cur) && s.Empty?
    ensures n == a && Lands(im, gEnd, env0, cur0, m, n, pc + CodeSize(LowerStmt(gEnd, env, cur, pc, s).ins), m')
  {
    hide Lands, Grows, Scoped;
    n, m' := a, m1;
  }

  /** RETURN ends the run. */
  lemma ReturnLands(im: Image, gEnd: nat, env0: Env, cur0: nat, m: Machine, a: nat, pc: nat, m1: Machine, env: Env, cur: nat, s: Stmt)
    returns (n: nat, m': Machine)
    requires Came(im, gEnd, env0, cur0, m, a, pc, m1, env, cur) && s.Return?
    requires CodeAt(im.code, pc, LowerStmt(gEnd, env, cur, pc, s).ins)
    ensures a <= n <= a + StmtSteps(s)
    ensures Lands(im, gEnd, env0, cur0, m, n, pc + CodeSize(LowerStmt(gEnd, env, cur, pc, s).ins), m')
  {
    CodeAtOne(im.code, pc, Simple(Ret, 0));
    hide Lands, CodeAt, Decode, CodeSize, Came;
    CameLands(im, gEnd, env0, cur0, m, a, pc, m1, env, cur);
    n, m' := RetLands(im, gEnd, env0, cur0, m, a, pc, m1, pc + CodeSize(LowerStmt(gEnd, env, cur, pc, s).ins));
  }

  lemma RetLands(im: Image, gEnd: nat, env: Env, cur: nat, m: Machine, a: nat, pc: nat, m1: Machine, past: nat)
    returns (n: nat, m': Machine)
    requires Lands(im, gEnd, env, cur, m, a, pc, m1) && DecodesTo(im.code, pc, Simple(Ret, 0))
    ensures a <= n <= a + 1 && Lands(im, gEnd, env, cur, m, n, past, m')
  {
    hide Lands, Decode, Run;
    n, m' := a, m1;
    if !Ended(im, m, a) {
      Landed(im, gEnd, env, cur, m, a, pc, m1);
      OneStep(im, m1, Simple(Ret, 0));
      Then(im, m, a, m1, 1);
      n := a + 1;
    }
    LandsEnded(im, gEnd, env, cur, m, n, past, m');
  }

  lemma AssignLands(im: Image, gEnd: nat, env0: Env, cur0: nat, m: Machine, a: nat, pc: nat, m1: Machine, env: Env, cur: nat, s: Stmt)
    returns (n: nat, m': Machine)
    requires Came(im, gEnd, env0, cur0, m, a, pc, m1, env, cur) && s.Assign?
    requires CodeAt(im.code, pc, LowerStmt(gEnd, env, cur, pc, s).ins)
    ensures a <= n <= a + StmtSteps(s)
    ensures Lands(im, gEnd, env0, cur0, m, n, pc + CodeSize(LowerStmt(gEnd, env, cur, pc, s).ins), m')
  {
    hide Lands, Came, CodeAt, LowerExpr, CodeSize, Decode;
    var v := LowerExpr(gEnd, env, cur, pc, s.rhs);
    var i := StoreName(env, s.lhs);
    CodeAtSplit(im.code, pc, v.ins, [i]);
    CodeSizeAppend(v.ins, [i]);
    CodeAtOne(im.code, pc + CodeSize(v.ins), i);
    n, m' := CameExpr(im, gEnd, env0, cur0, m, a, pc, m1, env, cur, s.rhs);
    n, m' := TargetLands(im, gEnd, env0, cur0, m, n, pc + CodeSize(v.ins), m', env, v.cur, s.lhs);
  }

  /** The instruction that ends an assignment: a store to a variable, or a straight one. */
  lemma TargetLands(im: Image, gEnd: nat, env0: Env, cur0: nat, m: Machine, a: nat, pc: nat, m1: Machine, env: Env, cur: nat, lhs: Expr)
    returns (n: nat, m': Machine)
    requires Came(im, gEnd, env0, cur0, m, a, pc, m1, env, cur) && DecodesTo(im.code, pc, StoreName(env, lhs))
    ensures a <= n <= a + 1 && Lands(im, gEnd, env0, cur0, m, n, pc + 4, m')
  {
    hide Lands, Decode, Grows, Scoped;
    if lhs.Name? && InData(env, lhs.name) {
      var off := env[lhs.name].offset;
      n, m' := CameStore(im, gEnd, env0, cur0, m, a, pc, m1, env, cur, off);
    } else {
      n, m' := ThenStraight(im, gEnd, env0, cur0, m, a, pc, m1, StoreName(env, lhs));
    }
  }

  lemma {:induction false} CameSeq(im: Image, gEnd: nat, env0: Env, cur0: nat, m: Machine, a: nat, pc: nat, m1: Machine, env: Env, cur: nat, ss: seq<Stmt>)
    returns (n: nat, m': Machine)
    requires Came(im, gEnd, env0, cur0, m, a, pc, m1, env, cur)
    requires CheckSeq(gEnd, env, cur, pc, ss).Accept? && CodeAt(im.code, pc, LowerSeq(gEnd, env, cur, pc, ss).ins)
    ensures a <= n <= a + SeqSteps(ss)
    ensures var b := LowerSeq(gEnd, env, cur, pc, ss); Came(im, gEnd, env0, cur0, m, n, pc + CodeSize(b.ins), m', b.env, b.cur)
    decreases ss, 2
  {
    hide Came, CodeAt, LowerSeq, CheckSeq, LowerStmt, CheckStmt, StmtSteps, CodeSize;
    if ss == [] {
      SeqEnds(gEnd, env, cur, pc, ss);
      NoSize();
      n, m' := a, m1;
    } else {
      SeqUnfolds(gEnd, env, cur, pc, ss);
      var b := LowerStmt(gEnd, env, cur, pc, ss[0]);
      var rest := LowerSeq(gEnd, b.env, b.cur, pc + CodeSize(b.ins), ss[1..]);
      CodeAtSplit(im.code, pc, b.ins, rest.ins);
      CodeSizeAppend(b.ins, rest.ins);
      n, m' := CameStmt(im, gEnd, env0, cur0, m, a, pc, m1, env, cur, ss[0]);
      n, m' := CameSeq(im, gEnd, env0, cur0, m, n, pc + CodeSize(b.ins), m', b.env, b.cur, ss[1..]);
    }
  }

  lemma NoSize()
    ensures CodeSize([]) == 0
  {}

  lemma {:induction false} CameElse(im: Image, gEnd: nat, env0: Env, cur0: nat, m: Machine, a: nat, pc: nat, m1: Machine, env: Env, cur: nat, els: Else)
    returns (n: nat, m': Machine)
    requires Came(im, gEnd, env0, cur0, m, a, pc, m1, env, cur)
    requires CheckElse(gEnd, env, cur, pc, els).Accept? && CodeAt(im.code, pc, LowerElse(gEnd, env, cur, pc, els).ins)
    ensures a <= n <= a + ElseSteps(els)
    ensures var b := LowerElse(gEnd, env, cur, pc, els); Lands(im, gEnd, env0, cur0, m, n, pc + CodeSize(b.ins), m')
    decreases els, 2
  {
    hide Lands, Grows, Scoped, CodeAt, LowerSeq, CheckSeq, SeqSteps;
    if els.Else? {
      n, m' := CameSeq(im, gEnd, env0, cur0, m, a, pc, m1, env, cur, els.body);
    } else {
      n, m' := a, m1;
    }
  }

  // ----- IF -----

  lemma BranchPieces(code: seq<byte>, gEnd: nat, env: Env, cur: nat, pc: nat, br: Branch, leave: bool, end: nat)
    requires CodeAt(code, pc, LowerBranch(gEnd, env, cur, pc, br, leave, end).ins)
    ensures var c := LowerExpr(gEnd, env, cur, pc, br.cond);
            var bodyPc := pc + CodeSize(c.ins) + 4;
            var b := LowerSeq(gEnd, env, c.cur, bodyPc, br.body);
            var past := pc + CodeSize(LowerBranch(gEnd, env, cur, pc, br, leave, end).ins);
            && CodeAt(code, pc, c.ins) && DecodesTo(code, bodyPc - 4, Simple(JmpIfNot, past)) && CodeAt(code, bodyPc, b.ins)
            && past == bodyPc + CodeSize(b.ins) + (if leave then 4 else 0)
            && (leave ==> DecodesTo(code, past - 4, Simple(Jmp, end)))
  {
    hide CodeAt, Decode, CodeSize, LowerExpr, LowerSeq, Leave;
    BranchSize(gEnd, env, cur, pc, br, leave, end);
    var c := LowerExpr(gEnd, env, cur, pc, br.cond);
    var bodyPc := pc + CodeSize(c.ins) + 4;
    var b := LowerSeq(gEnd, env, c.cur, bodyPc, br.body);
    var tail := Leave(leave, end);
    var j := Simple(JmpIfNot, bodyPc + CodeSize(b.ins) + CodeSize(tail));
    CodeAtSplit(code, pc, c.ins + [j] + b.ins, tail);
    CodeAtSplit3(code, pc, c.ins, [j], b.ins);
    JoinSize(c.ins, [j], b.ins);
    CodeAtOne(code, pc + CodeSize(c.ins), j);
    if leave {
      LeaveJump(end);
      CodeAtOne(code, bodyPc + CodeSize(b.ins), Simple(Jmp, end));
    }
  }

  /** One branch: on behind it, or, if it was taken and does not stand last, at the end. */
  lemma {:induction false} CameBranch(im: Image, gEnd: nat, env0: Env, cur0: nat, m: Machine, a: nat, pc: nat, m1: Machine, env: Env, cur: nat,
                                      br: Branch, leave: bool, end: nat)
    returns (n: nat, m': Machine, taken: bool)
    requires Came(im, gEnd, env0, cur0, m, a, pc, m1, env, cur)
    requires CheckBranch(gEnd, env, cur, pc, br).Accept? && CodeAt(im.code, pc, LowerBranch(gEnd, env, cur, pc, br, leave, end).ins)
    ensures a <= n <= a + ExprSteps(br.cond) + SeqSteps(br.body) + 2
    ensures var past := pc + CodeSize(LowerBranch(gEnd, env, cur, pc, br, leave, end).ins);
            Lands(im, gEnd, env0, cur0, m, n, if taken then end else past, m')
    decreases br, 3
  {
    hide Lands, Came, CodeAt, Decode, LowerExpr, LowerSeq, LowerBranch, CheckSeq, CodeSize, SeqSteps, ExprSteps, TypeExpr;
    BranchPieces(im.code, gEnd, env, cur, pc, br, leave, end);
    var c := LowerExpr(gEnd, env, cur, pc, br.cond);
    var bodyPc := pc + CodeSize(c.ins) + 4;
    var b := LowerSeq(gEnd, env, c.cur, bodyPc, br.body);
    var past := pc + CodeSize(LowerBranch(gEnd, env, cur, pc, br, leave, end).ins);
    var jumps;
    var a1, m2 := CameExpr(im, gEnd, env0, cur0, m, a, pc, m1, env, cur, br.cond);
    CameLands(im, gEnd, env0, cur0, m, a1, bodyPc - 4, m2, env, c.cur);
    n, m', jumps := ThenBranch(im, gEnd, env0, cur0, m, a1, bodyPc - 4, m2, JmpIfNot, past);
    taken := false;
    if !jumps {
      CameAgain(im, gEnd, env0, cur0, m, n, bodyPc, m', env, c.cur);
      n, m' := CameSeq(im, gEnd, env0, cur0, m, n, bodyPc, m', env, c.cur, br.body);
      CameLands(im, gEnd, env0, cur0, m, n, bodyPc + CodeSize(b.ins), m', b.env, b.cur);
      if leave {
        n, m' := ThenJump(im, gEnd, env0, cur0, m, n, past - 4, m', end);
        taken := true;
      }
    }
  }

  lemma CameAgain(im: Image, gEnd: nat, env0: Env, cur0: nat, m: Machine, a: nat, pc: nat, m1: Machine, env: Env, cur: nat)
    requires Lands(im, gEnd, env0, cur0, m, a, pc, m1) && Grows(gEnd, env0, cur0, env, cur) && Scoped(gEnd, env, cur)
    ensures Came(im, gEnd, env0, cur0, m, a, pc, m1, env, cur)
  {
    hide Lands, Grows, Scoped;
  }

  lemma BranchExtends(gEnd: nat, env: Env, cur: nat, pc: nat, br: Branch, leave: bool, end: nat)
    ensures var b := LowerBranch(gEnd, env, cur, pc, br, leave, end); Extends(gEnd, env, cur, b.env, b.cur)
  {
    hide LowerExpr, LowerSeq, Extends, CodeSize;
    var c := LowerExpr(gEnd, env, cur, pc, br.cond);
    var b := LowerSeq(gEnd, env, c.cur, pc + CodeSize(c.ins) + 4, br.body);
    ExprExtends(gEnd, env, cur, pc, br.cond);
    SeqExtends(gEnd, env, c.cur, pc + CodeSize(c.ins) + 4, br.body);
    ExtendsTrans(gEnd, env, cur, env, c.cur, b.env, b.cur);
  }

  lemma {:induction false} CameBranches(im: Image, gEnd: nat, env0: Env, cur0: nat, m: Machine, a: nat, pc: nat, m1: Machine, env: Env, cur: nat,
                                        bs: seq<Branch>, more: bool, end: nat)
    returns (n: nat, m': Machine, taken: bool)
    requires Came(im, gEnd, env0, cur0, m, a, pc, m1, env, cur)
    requires CheckBranches(gEnd, env, cur, pc, bs, more).Accept?
    requires CodeAt(im.code, pc, LowerBranches(gEnd, env, cur, pc, bs, more, end).ins)
    ensures a <= n <= a + BranchesSteps(bs)
    ensures var past := pc + CodeSize(LowerBranches(gEnd, env, cur, pc, bs, more, end).ins);
            Lands(im, gEnd, env0, cur0, m, n, if taken then end else past, m')
    decreases bs, 3
  {
    hide Lands, Came, CodeAt, LowerBranches, LowerBranch, CheckBranches, CheckBranch, CodeSize, SeqSteps, ExprSteps, Extends;
    if bs == [] {
      BranchesEnd(gEnd, env, cur, pc, bs, more, end);
      NoSize();
      CameLands(im, gEnd, env0, cur0, m, a, pc, m1, env, cur);
      n, m', taken := a, m1, false;
    } else {
      var leave := |bs| > 1 || more;
      BranchesUnfold(gEnd, env, cur, pc, bs, more, end);
      var b := LowerBranch(gEnd, env, cur, pc, bs[0], leave, end);
      var rest := LowerBranches(gEnd, b.env, b.cur, pc + CodeSize(b.ins), bs[1..], more, end);
      CodeAtSplit(im.code, pc, b.ins, rest.ins);
      CodeSizeAppend(b.ins, rest.ins);
      n, m', taken := CameBranch(im, gEnd, env0, cur0, m, a, pc, m1, env, cur, bs[0], leave, end);
      if !taken {
        BranchExtends(gEnd, env, cur, pc, bs[0], leave, end);
        CameFurther(im, gEnd, env0, cur0, m, a, pc, m1, env, cur, n, pc + CodeSize(b.ins), m', b.env, b.cur);
        n, m', taken := CameBranches(im, gEnd, env0, cur0, m, n, pc + CodeSize(b.ins), m', b.env, b.cur, bs[1..], more, end);
      }
    }
  }

  lemma {:induction false} IfLands(im: Image, gEnd: nat, env0: Env, cur0: nat, m: Machine, a: nat, pc: nat, m1: Machine, env: Env, cur: nat, s: Stmt)
    returns (n: nat, m': Machine)
    requires Came(im, gEnd, env0, cur0, m, a, pc, m1, env, cur) && s.If?
    requires CheckStmt(gEnd, env, cur, pc, s).Accept? && CodeAt(im.code, pc, LowerStmt(gEnd, env, cur, pc, s).ins)
    ensures a <= n <= a + StmtSteps(s)
    ensures Lands(im, gEnd, env0, cur0, m, n, pc + CodeSize(LowerStmt(gEnd, env, cur, pc, s).ins), m')
    decreases s, 1
  {
    hide Lands, Came, CodeAt, LowerStmt, CheckStmt, LowerBranches, LowerElse, CheckBranches, CheckElse, CodeSize, BranchesSteps, ElseSteps, Extends;
    IfUnfolds(gEnd, env, cur, pc, s);
    var more := s.elseBody.Else?;
    var bs := LowerBranches(gEnd, env, cur, pc, s.branches, more, 0);
    var elsePc := pc + CodeSize(bs.ins);
    var eb := LowerElse(gEnd, bs.env, bs.cur, elsePc, s.elseBody);
    var end := elsePc + CodeSize(eb.ins);
    var final := LowerBranches(gEnd, env, cur, pc, s.branches, more, end);
    BranchesSameShape(gEnd, env, cur, pc, s.branches, more, 0, end);
    CodeAtSplit(im.code, pc, final.ins, eb.ins);
    CodeSizeAppend(final.ins, eb.ins);
    var taken;
    n, m', taken := CameBranches(im, gEnd, env0, cur0, m, a, pc, m1, env, cur, s.branches, more, end);
    if !taken {
      BranchesExtend(gEnd, env, cur, pc, s.branches, more, end);
      CameFurther(im, gEnd, env0, cur0, m, a, pc, m1, env, cur, n, elsePc, m', bs.env, bs.cur);
      n, m' := CameElse(im, gEnd, env0, cur0, m, n, elsePc, m', bs.env, bs.cur, s.elseBody);
    }
  }

  // ----- CASE -----

  /** The comparisons of an arm: on at its body or at what follows it. */
  lemma {:induction false} ThenTests(im: Image, gEnd: nat, env: Env, cur: nat, m: Machine, a: nat, pc: nat, m1: Machine,
                                     tmp: nat, labels: seq<int>, body: nat, next: nat)
    returns (n: nat, m': Machine, hit: bool)
    requires Lands(im, gEnd, env, cur, m, a, pc, m1) && body == pc + 20 * |labels|
    requires CodeAt(im.code, pc, LabelTests(tmp, labels, body, next))
    ensures a <= n <= a + 4 * |labels| && Lands(im, gEnd, env, cur, m, n, if hit then body else next, m')
    decreases labels
  {
    hide Lands, CodeAt, Decode, LabelTests;
    n, m', hit := a, m1, true;
    if labels != [] {
      TestsUnfold(tmp, labels, body, next);
      var last := |labels| == 1;
      var op, target := if last then JmpIfNot else JmpIf, if last then next else body;
      var load, push, eq := Simple(LdData, tmp), WithImm32(PushIDint, 0, labels[0] % 0x1_0000_0000), Simple(Eq, 0);
      CodeAtSplit(im.code, pc, [load, push, eq, Simple(op, target)], LabelTests(tmp, labels[1..], body, next));
      CodeAtFour(im.code, pc, load, push, eq, Simple(op, target));
      n, m' := ThenStraight(im, gEnd, env, cur, m, n, pc, m', load);
      n, m' := ThenStraight(im, gEnd, env, cur, m, n, pc + 4, m', push);
      n, m' := ThenStraight(im, gEnd, env, cur, m, n, pc + 12, m', eq);
      var jumps;
      n, m', jumps := ThenBranch(im, gEnd, env, cur, m, n, pc + 16, m', op, target);
      if last {
        hit := !jumps;
      } else if !jumps {
        n, m', hit := ThenTests(im, gEnd, env, cur, m, n, pc + 20, m', tmp, labels[1..], body, next);
      }
    }
  }

  lemma ArmPieces(code: seq<byte>, gEnd: nat, env: Env, cur: nat, pc: nat, tmp: nat, arm: Arm, end: nat)
    requires CodeAt(code, pc, LowerArm(gEnd, env, cur, pc, tmp, arm, end).ins)
    ensures var bodyPc := pc + 20 * |arm.labels|;
            var b := LowerSeq(gEnd, env, cur, bodyPc, arm.body);
            var past := bodyPc + CodeSize(b.ins) + 4;
            && CodeSize(LowerArm(gEnd, env, cur, pc, tmp, arm, end).ins) == past - pc
            && CodeAt(code, pc, LabelTests(tmp, arm.labels, bodyPc, past)) && CodeAt(code, bodyPc, b.ins)
            && DecodesTo(code, past - 4, Simple(Jmp, end))
  {
    hide CodeAt, Decode, CodeSize, LowerSeq, LabelTests;
    var bodyPc := pc + 20 * |arm.labels|;
    var b := LowerSeq(gEnd, env, cur, bodyPc, arm.body);
    var past := bodyPc + CodeSize(b.ins) + 4;
    var tests := LabelTests(tmp, arm.labels, bodyPc, past);
    TestsSize(tmp, arm.labels, bodyPc, past);
    CodeAtSplit3(code, pc, tests, b.ins, [Simple(Jmp, end)]);
    JoinSize(tests, b.ins, [Simple(Jmp, end)]);
    CodeAtOne(code, past - 4, Simple(Jmp, end));
  }

  lemma {:induction false} CameArms(im: Image, gEnd: nat, env0: Env, cur0: nat, m: Machine, a: nat, pc: nat, m1: Machine, env: Env, cur: nat,
                                    tmp: nat, arms: seq<Arm>, end: nat)
    returns (n: nat, m': Machine, taken: bool)
    requires Came(im, gEnd, env0, cur0, m, a, pc, m1, env, cur)
    requires CheckArms(gEnd, env, cur, pc, tmp, arms).Accept?
    requires CodeAt(im.code, pc, LowerArms(gEnd, env, cur, pc, tmp, arms, end).ins)
    ensures a <= n <= a + ArmsSteps(arms)
    ensures var past := pc + CodeSize(LowerArms(gEnd, env, cur, pc, tmp, arms, end).ins);
            Lands(im, gEnd, env0, cur0, m, n, if taken then end else past, m')
    decreases arms, 3
  {
    hide Lands, Came, CodeAt, Decode, LowerArms, LowerArm, CheckArms, CheckSeq, LowerSeq, LabelTests, CodeSize, SeqSteps, Extends;
    CameLands(im, gEnd, env0, cur0, m, a, pc, m1, env, cur);
    if arms == [] {
      ArmsEnd(gEnd, env, cur, pc, tmp, arms, end);
      NoSize();
      n, m', taken := a, m1, false;
    } else {
      ArmsUnfold(gEnd, env, cur, pc, tmp, arms, end);
      var l := LowerArm(gEnd, env, cur, pc, tmp, arms[0], end);
      var past := pc + CodeSize(l.ins);
      var rest := LowerArms(gEnd, l.env, l.cur, past, tmp, arms[1..], end);
      CodeAtSplit(im.code, pc, l.ins, rest.ins);
      CodeSizeAppend(l.ins, rest.ins);
      ArmPieces(im.code, gEnd, env, cur, pc, tmp, arms[0], end);
      var bodyPc := pc + 20 * |arms[0].labels|;
      var b := LowerSeq(gEnd, env, cur, bodyPc, arms[0].body);
      n, m', taken := ThenTests(im, gEnd, env0, cur0, m, a, pc, m1, tmp, arms[0].labels, bodyPc, past);
      if taken {
        CameAgain(im, gEnd, env0, cur0, m, n, bodyPc, m', env, cur);
        n, m' := CameSeq(im, gEnd, env0, cur0, m, n, bodyPc, m', env, cur, arms[0].body);
        CameLands(im, gEnd, env0, cur0, m, n, past - 4, m', b.env, b.cur);
        n, m' := ThenJump(im, gEnd, env0, cur0, m, n, past - 4, m', end);
      } else {
        SeqExtends(gEnd, env, cur, bodyPc, arms[0].body);
        assert l.env == b.env && l.cur == b.cur by { ArmScope(gEnd, env, cur, pc, tmp, arms[0], end); }
        CameFurther(im, gEnd, env0, cur0, m, a, pc, m1, env, cur, n, past, m', l.env, l.cur);
        n, m', taken := CameArms(im, gEnd, env0, cur0, m, n, past, m', l.env, l.cur, tmp, arms[1..], end);
      }
    }
  }

  lemma ArmScope(gEnd: nat, env: Env, cur: nat, pc: nat, tmp: nat, arm: Arm, end: nat)
    ensures var l := LowerArm(gEnd, env, cur, pc, tmp, arm, end);
            var b := LowerSeq(gEnd, env, cur, pc + 20 * |arm.labels|, arm.body);
            l.env == b.env && l.cur == b.cur
  {
    hide LowerSeq, LabelTests;
  }

  lemma {:induction false} CaseLands(im: Image, gEnd: nat, env0: Env, cur0: nat, m: Machine, a: nat, pc: nat, m1: Machine, env: Env, cur: nat, s: Stmt)
    returns (n: nat, m': Machine)
    requires Came(im, gEnd, env0, cur0, m, a, pc, m1, env, cur) && s.Case?
    requires CheckStmt(gEnd, env, cur, pc, s).Accept? && CodeAt(im.code, pc, LowerStmt(gEnd, env, cur, pc, s).ins)
    ensures a <= n <= a + StmtSteps(s)
    ensures Lands(im, gEnd, env0, cur0, m, n, pc + CodeSize(LowerStmt(gEnd, env, cur, pc, s).ins), m')
    decreases s, 1
  {
    hide Lands, Came, CodeAt, Decode, LowerStmt, CheckStmt, LowerExpr, TypeExpr, AllocTemp, LowerArms, LowerElse, CheckArms, CheckElse, CodeSize,
         ArmsSteps, ElseSteps, ExprSteps, Extends, Apart;
    CaseUnfolds(gEnd, env, cur, pc, s);
    var t := TypeExpr(env, s.selector);
    var v := LowerExpr(gEnd, env, cur, pc, s.selector);
    var tmp := AllocTemp(gEnd, v.cur, if t.Accept? then t.value else TDint);
    var armsPc := pc + CodeSize(v.ins) + 4;
    var bs := LowerArms(gEnd, env, tmp.1, armsPc, tmp.0, s.arms, 0);
    var elsePc := armsPc + CodeSize(bs.ins);
    var eb := LowerElse(gEnd, bs.env, bs.cur, elsePc, s.elseBody);
    var end := elsePc + CodeSize(eb.ins);
    var final := LowerArms(gEnd, env, tmp.1, armsPc, tmp.0, s.arms, end);
    ArmsSameShape(gEnd, env, tmp.1, armsPc, tmp.0, s.arms, 0, end);
    var store := Simple(StData, tmp.0);
    CodeAtSplit(im.code, pc, v.ins + [store] + final.ins, eb.ins);
    CodeAtSplit3(im.code, pc, v.ins, [store], final.ins);
    CodeSizeAppend(v.ins + [store] + final.ins, eb.ins);
    JoinSize(v.ins, [store], final.ins);
    CodeAtOne(im.code, armsPc - 4, store);
    n, m' := CameExpr(im, gEnd, env0, cur0, m, a, pc, m1, env, cur, s.selector);
    assert Apart(gEnd, env, v.cur, tmp.0) by { TempApart(gEnd, env, v.cur, tmp.0); }
    n, m' := CameStore(im, gEnd, env0, cur0, m, n, armsPc - 4, m', env, v.cur, tmp.0);
    CameMoves(im, gEnd, env0, cur0, m, n, armsPc, m', env, v.cur, tmp.1);
    var a2, m2, taken := n, m', false;
    n, m', taken := CameArms(im, gEnd, env0, cur0, m, n, armsPc, m', env, tmp.1, tmp.0, s.arms, end);
    if !taken {
      ArmsExtend(gEnd, env, tmp.1, armsPc, tmp.0, s.arms, end);
      CameFurther(im, gEnd, env0, cur0, m, a2, armsPc, m2, env, tmp.1, n, elsePc, m', bs.env, bs.cur);
      n, m' := CameElse(im, gEnd, env0, cur0, m, n, elsePc, m', bs.env, bs.cur, s.elseBody);
    }
  }

  lemma TempApart(gEnd: nat, env: Env, cur: nat, off: nat)
    requires Frontier(gEnd, cur) <= off
    ensures Apart(gEnd, env, cur, off)
  {}

  // ----- counters -----

  /** The counter's cell holds `k`. */
  ghost predicate Counts(m: Machine, c: nat, k: nat)
  {
    m.Valid() && k < 0x1_0000_0000 && c + 4 <= |m.data.bytes| && Load(m.data, c) == Some(CounterValue(k))
  }

  /** It holds `k`, or it lost its tag and reads as a BOOL. */
  ghost predicate CountsOrSpoiled(m: Machine, c: nat, k: nat)
  {
    && m.Valid() && k < 0x1_0000_0000 && c + 4 <= |m.data.bytes|
    && var v := Load(m.data, c); v.Some? && (v.value == CounterValue(k) || v.value.Bool?)
  }

  /** Code that leaves the cell leaves the counter, or spoils it. */
  lemma CounterSpared(gEnd: nat, env: Env, cur: nat, m: Machine, m': Machine, c: nat, k: nat)
    requires Counts(m, c, k) && m'.Valid() && Cell(gEnd, env, cur, c) && Leaves(gEnd, env, cur, m.data, m'.data)
    ensures CountsOrSpoiled(m', c, k)
  {
    assert Spared(m.data, m'.data, c);
    assert TypeAt(m.data, c) == TDint;
    if m'.data.tags[c] == TAG_UNSET {
      assert TypeAt(m'.data, c) == TBool;
    }
  }

  lemma SlotPush(im: Image, m: Machine, c: nat, v: Value)
    requires InTask(m) && c < 0x100_0000 && Load(m.data, c) == Some(v)
    ensures StepInstr(im, m, Simple(LdData, c)) == Push(m, v, 4)
  {
    hide Load;
  }

  /** An instruction that pushes. */
  lemma PushLands(im: Image, m: Machine, i: Instr, v: Value) returns (m': Machine)
    requires InTask(m) && DecodesTo(im.code, m.pc, i) && StepInstr(im, m, i) == Push(m, v, Size(i))
    ensures Ended(im, m, 1) || (Run(im, m, 1) == Running(m') && InTask(m'))
    ensures m' == m.(stack := m.stack + [v], pc := m.pc + Size(i))
  {
    hide StepInstr, Decode, Run;
    OneStep(im, m, i);
    m' := m.(stack := m.stack + [v], pc := m.pc + Size(i));
  }

  /** Combines a slot with a constant, as counters do. */
  lemma SlotOperator(im: Image, m: Machine, c: nat, x: Value, j: nat, op: Opcode) returns (n: nat, m': Machine)
    requires InTask(m) && IsBinary(op) && Load(m.data, c) == Some(x)
    requires CodeAt(im.code, m.pc, [Simple(LdData, c), PushDint(j), Simple(op, 0)])
    ensures n <= 3
    ensures var r := Binop(im.platform, op, x, Dint(Wrap32(j)));
            || Ended(im, m, n)
            || (r.Ok? && Run(im, m, n) == Running(m') && InTask(m') && m' == m.(stack := m.stack + [r.value], pc := m.pc + 16))
  {
    hide StepInstr, Decode, Run, CodeAt, Binop, IsBinary, Load, Wrap32;
    CodeAtThree(im.code, m.pc, Simple(LdData, c), PushLiteral(IntLit(j)), Simple(op, 0));
    OperandSmall(im.code, m.pc, LdData, c);
    SlotPush(im, m, c, x);
    var m1 := PushLands(im, m, Simple(LdData, c), x);
    n, m' := 1, m1;
    if !Ended(im, m, 1) {
      LiteralPush(im, m1, IntLit(j));
      var m2 := PushLands(im, m1, PushLiteral(IntLit(j)), Dint(Wrap32(j)));
      Then(im, m, 1, m1, 1);
      n := 2;
      if !Ended(im, m1, 1) {
        assert m2.stack == m.stack + [x, Dint(Wrap32(j))];
        OperatorStep(im, m2, op, m.stack, x, Dint(Wrap32(j)));
        OneStep(im, m2, Simple(op, 0));
        Then(im, m, 2, m2, 1);
        n := 3;
        var r := Binop(im.platform, op, x, Dint(Wrap32(j)));
        if r.Ok? { m' := m.(stack := m.stack + [r.value], pc := m.pc + 16); }
      }
    }
  }

  /** Before a loop: the counter starts at the cap, or there is no room for it. */
  lemma StartLands(im: Image, gEnd: nat, env: Env, cur: nat, m: Machine, cap: nat, c: nat) returns (n: nat, m': Machine)
    requires InTask(m) && Apart(gEnd, env, cur, c) && cap < 0x1_0000_0000 && CodeAt(im.code, m.pc, StartCounter(cap, c))
    ensures n <= 2 && Lands(im, gEnd, env, cur, m, n, m.pc + 12, m') && (Ended(im, m, n) || Counts(m', c, cap))
  {
    hide Lands, Decode, Run, CodeAt, Apart, Load, Store, StepInstr, Wrap32;
    CodeAtTwo(im.code, m.pc, PushLiteral(IntLit(cap)), Simple(StData, c));
    LiteralPush(im, m, IntLit(cap));
    var m1 := PushLands(im, m, PushLiteral(IntLit(cap)), CounterValue(cap));
    n, m' := 1, m1;
    if Ended(im, m, 1) {
      LandsEnded(im, gEnd, env, cur, m, 1, m.pc + 12, m');
    } else {
      m' := StoreLands(im, gEnd, env, cur, m1, c);
      LandsFrom(im, gEnd, env, cur, m, 1, m1, 1, m.pc + 12, m');
      n := 2;
      if !Ended(im, m1, 1) {
        Landed(im, gEnd, env, cur, m1, 1, m1.pc + 4, m');
        assert Top(m1) == CounterValue(cap);
        LoadAfterStore(m1.data, c, CounterValue(cap));
      }
    }
  }

  /** Steps that left the data alone, and then some that land. */
  lemma LandsFrom(im: Image, gEnd: nat, env: Env, cur: nat, m: Machine, a: nat, m1: Machine, b: nat, pc: nat, m2: Machine)
    requires m.Valid() && Run(im, m, a) == Running(m1) && m1.data == m.data && Lands(im, gEnd, env, cur, m1, b, pc, m2)
    ensures Lands(im, gEnd, env, cur, m, a + b, pc, m2) && (Ended(im, m, a + b) <==> Ended(im, m1, b))
  {
    hide Run, Leaves;
    Then(im, m, a, m1, b);
  }

  /** At the head of a loop: out of it when the counter is used up. */
  lemma TestLands(im: Image, gEnd: nat, env: Env, cur: nat, m: Machine, c: nat, k: nat, end: nat) returns (n: nat, m': Machine)
    requires InTask(m) && Counts(m, c, k) && CodeAt(im.code, m.pc, CounterTest(c, end))
    ensures n <= 4 && Lands(im, gEnd, env, cur, m, n, if k == 0 then end else m.pc + 20, m')
    ensures Ended(im, m, n) || m'.data == m.data
  {
    hide Lands, Decode, Run, CodeAt, Load, Binop, Counts;
    assert Load(m.data, c) == Some(CounterValue(k)) && k < 0x1_0000_0000 by { CountsFacts(m, c, k); }
    var test := [Simple(LdData, c), PushDint(0), Simple(Eq, 0)];
    assert CounterTest(c, end) == test + [Simple(JmpIf, end)];
    CodeAtSplit(im.code, m.pc, test, [Simple(JmpIf, end)]);
    CodeAtThree(im.code, m.pc, test[0], test[1], test[2]);
    CodeAtOne(im.code, m.pc + 16, Simple(JmpIf, end));
    CounterZero(im.platform, k);
    var m1;
    n, m1 := SlotOperator(im, m, c, CounterValue(k), 0, Eq);
    m' := m1;
    if Ended(im, m, n) {
      LandsEnded(im, gEnd, env, cur, m, n, if k == 0 then end else m.pc + 20, m');
    } else {
      assert Top(m1) == Bool(k == 0);
      var jumps;
      m', jumps := BranchLands(im, gEnd, env, cur, m1, JmpIf, end);
      LandsFrom(im, gEnd, env, cur, m, n, m1, 1, if k == 0 then end else m.pc + 20, m');
      n := n + 1;
    }
  }

  lemma CountsFacts(m: Machine, c: nat, k: nat)
    requires Counts(m, c, k)
    ensures m.Valid() && k < 0x1_0000_0000 && Load(m.data, c) == Some(CounterValue(k))
  {}

  /** The end of a lap: one fewer, back to the head; a spoiled counter traps. */
  lemma DownLands(im: Image, gEnd: nat, env: Env, cur: nat, m: Machine, c: nat, k: nat, head: nat) returns (n: nat, m': Machine)
    requires InTask(m) && CountsOrSpoiled(m, c, k) && k > 0 && Apart(gEnd, env, cur, c)
    requires CodeAt(im.code, m.pc, CountDown(c, head))
    ensures n <= 5 && Lands(im, gEnd, env, cur, m, n, head, m') && (Ended(im, m, n) || Counts(m', c, k - 1))
  {
    hide Lands, Decode, Run, CodeAt, Load, Store, Binop, Apart, Wrap32;
    var x := Load(m.data, c).value;
    var sub := [Simple(LdData, c), PushDint(1), Simple(Sub, 0)];
    var tail := [Simple(StData, c), Simple(Jmp, head)];
    assert CountDown(c, head) == sub + tail;
    CodeAtSplit(im.code, m.pc, sub, tail);
    CodeAtThree(im.code, m.pc, sub[0], sub[1], sub[2]);
    CodeAtTwo(im.code, m.pc + 16, tail[0], tail[1]);
    CounterMinusOne(im.platform, k);
    var m1;
    n, m1 := SlotOperator(im, m, c, x, 1, Sub);
    m' := m1;
    if x.Bool? { BoolMinus(im.platform, x, Dint(Wrap32(1))); }
    if Ended(im, m, n) {
      LandsEnded(im, gEnd, env, cur, m, n, head, m');
    } else {
      assert Top(m1) == CounterValue(k - 1);
      var m2 := StoreLands(im, gEnd, env, cur, m1, c);
      if !Ended(im, m1, 1) {
        Landed(im, gEnd, env, cur, m1, 1, m1.pc + 4, m2);
        LoadAfterStore(m1.data, c, CounterValue(k - 1));
      }
      var j;
      j, m' := ThenJump(im, gEnd, env, cur, m1, 1, m1.pc + 4, m2, head);
      LandsFrom(im, gEnd, env, cur, m, n, m1, j, head, m');
      n := n + j;
      if !Ended(im, m, n) { Landed(im, gEnd, env, cur, m, n, head, m'); }
    }
  }

  /** Subtraction from a BOOL traps. */
  lemma BoolMinus(pf: Platform, x: Value, y: Value)
    requires x.Bool?
    ensures Binop(pf, Sub, x, y) == Err(TypeError)
  {}

  // ----- WHILE -----

  lemma LandsEarlier(im: Image, gEnd: nat, env: Env, cur: nat, env': Env, cur': nat, m: Machine, n: nat, pc: nat, m': Machine)
    requires Grows(gEnd, env, cur, env', cur') && Lands(im, gEnd, env', cur', m, n, pc, m')
    ensures Lands(im, gEnd, env, cur, m, n, pc, m')
  {
    hide Run, Grows, Spared, Cell;
    if Run(im, m, n).Running? {
      forall c | Cell(gEnd, env, cur, c) ensures Spared(m.data, m'.data, c) { CellStays(gEnd, env, cur, env', cur', c); }
    }
  }

  /** The slot above the frontier is a cell once it is taken. */
  lemma TempCell(gEnd: nat, env: Env, cur: nat, off: nat)
    requires Scoped(gEnd, env, cur) && Frontier(gEnd, cur) <= off
    ensures Cell(gEnd, env, off + 4, off)
  {
    forall x | InData(env, x) ensures env[x].offset < off { assert DataEnd(env[x]) <= Frontier(gEnd, cur); }
  }

  /** The pieces of a WHILE and the cell of its counter. */
  ghost predicate WhileAt(code: seq<byte>, gEnd: nat, env: Env, cur: nat, st: Stmt, p: WhilePlan)
  {
    && st.While?
    && p.cond == LowerExpr(gEnd, env, p.next, p.head + 20, st.cond)
    && p.bodyPc == p.head + 24 + CodeSize(p.cond.ins)
    && p.body == LowerSeq(gEnd, env, p.cond.cur, p.bodyPc, st.body)
    && p.end == p.bodyPc + CodeSize(p.body.ins) + 24
    && CodeAt(code, p.head, CounterTest(p.counter, p.end))
    && CodeAt(code, p.head + 20, p.cond.ins)
    && DecodesTo(code, p.bodyPc - 4, Simple(JmpIfNot, p.end))
    && CodeAt(code, p.bodyPc, p.body.ins)
    && CodeAt(code, p.end - 24, CountDown(p.counter, p.head))
    && CheckSeq(gEnd, env, p.cond.cur, p.bodyPc, st.body).Accept?
    && Scoped(gEnd, env, p.next) && cur <= p.next
    && Cell(gEnd, env, p.next, p.counter) && Apart(gEnd, env, cur, p.counter)
  }

  lemma WhileScope(code: seq<byte>, gEnd: nat, env: Env, cur: nat, pc: nat, st: Stmt)
    requires st.While? && Scoped(gEnd, env, cur)
    requires CheckStmt(gEnd, env, cur, pc, st).Accept? && CodeAt(code, pc, LowerStmt(gEnd, env, cur, pc, st).ins)
    ensures WhileAt(code, gEnd, env, cur, st, PlanWhile(gEnd, env, cur, pc, st))
  {
    hide CodeAt, LowerExpr, LowerSeq, LowerStmt, CheckStmt, CheckSeq, Extends, Decode, CodeSize, TypeExpr, CounterTest, CountDown, StartCounter, Cell, Apart,
         Scoped;
    WhileUnfolds(gEnd, env, cur, pc, st);
    WhilePieces(code, gEnd, env, cur, pc, st);
    var p := PlanWhile(gEnd, env, cur, pc, st);
    TempCell(gEnd, env, cur, p.counter);
    TempApart(gEnd, env, cur, p.counter);
    CursorMoves(gEnd, env, cur, p.next);
    ExtendsGrows(gEnd, env, cur, env, p.next);
  }

  /** From the head of a WHILE with `k` laps left. */
  lemma {:induction false} WhileLapsLand(im: Image, gEnd: nat, env: Env, cur: nat, st: Stmt, p: WhilePlan, m: Machine, k: nat)
    returns (n: nat, m': Machine)
    requires WhileAt(im.code, gEnd, env, cur, st, p) && InTask(m) && m.pc == p.head && Counts(m, p.counter, k)
    ensures n <= Laps(k, WhileLap(st)) && Lands(im, gEnd, env, cur, m, n, p.end, m')
    decreases st.body, 3, k
  {
    hide Lands, Came, CodeAt, Decode, LowerExpr, LowerSeq, CheckSeq, CodeSize, SeqSteps, ExprSteps, Counts, Scoped, Cell, Apart, Grows, CounterTest, CountDown,
         Run, Ended, Leaves;
    GrowsSame(gEnd, env, cur, p.next);
    n, m' := TestLands(im, gEnd, env, p.next, m, p.counter, k, p.end);
    if k > 0 {
      GrowsSame(gEnd, env, p.next, p.next);
      CameAgain(im, gEnd, env, p.next, m, n, p.head + 20, m', env, p.next);
      n, m' := CameExpr(im, gEnd, env, p.next, m, n, p.head + 20, m', env, p.next, st.cond);
      CameLands(im, gEnd, env, p.next, m, n, p.bodyPc - 4, m', env, p.cond.cur);
      var jumps;
      n, m', jumps := ThenBranch(im, gEnd, env, p.next, m, n, p.bodyPc - 4, m', JmpIfNot, p.end);
      if !jumps {
        CameAgain(im, gEnd, env, p.next, m, n, p.bodyPc, m', env, p.cond.cur);
        n, m' := CameSeq(im, gEnd, env, p.next, m, n, p.bodyPc, m', env, p.cond.cur, st.body);
        CameLands(im, gEnd, env, p.next, m, n, p.end - 24, m', p.body.env, p.body.cur);
        var j, m2 := NextLap(im, gEnd, env, cur, p.next, m, n, p.end - 24, m', p.counter, k, p.head);
        n, m' := n + j, m2;
        if Ended(im, m, n) {
          LandsEnded(im, gEnd, env, cur, m, n, p.end, m');
        } else {
          Landed(im, gEnd, env, cur, m, n, p.head, m');
          var i, m3 := WhileLapsLand(im, gEnd, env, cur, st, p, m', k - 1);
          GrowsSame(gEnd, env, cur, cur);
          LandsThen(im, gEnd, env, cur, m, n, p.head, m', env, cur, i, p.end, m3);
          n, m' := n + i, m3;
        }
        return;
      }
    }
    LandsEarlier(im, gEnd, env, cur, env, p.next, m, n, p.end, m');
  }

  /** The end of a lap that began with the counter at `k`. */
  lemma NextLap(im: Image, gEnd: nat, env: Env, cur: nat, next: nat, m: Machine, a: nat, pc: nat, m1: Machine, c: nat, k: nat, head: nat)
    returns (j: nat, m': Machine)
    requires Lands(im, gEnd, env, next, m, a, pc, m1) && Counts(m, c, k) && k > 0 && cur <= next
    requires Cell(gEnd, env, next, c) && Apart(gEnd, env, cur, c) && CodeAt(im.code, pc, CountDown(c, head))
    ensures j <= 5 && Lands(im, gEnd, env, cur, m, a + j, head, m') && (Ended(im, m, a + j) || Counts(m', c, k - 1))
  {
    hide Lands, CodeAt, Counts, CountsOrSpoiled, Cell, Apart, Grows, CountDown, Ended, Leaves, Run;
    j, m' := 0, m1;
    if Ended(im, m, a) {
      LandsEnded(im, gEnd, env, cur, m, a, head, m');
    } else {
      Landed(im, gEnd, env, next, m, a, pc, m1);
      CounterSpared(gEnd, env, next, m, m1, c, k);
      j, m' := DownLands(im, gEnd, env, cur, m1, c, k, head);
      GrowsSame(gEnd, env, cur, next);
      GrowsSame(gEnd, env, cur, cur);
      LandsEarlier(im, gEnd, env, cur, env, next, m, a, pc, m1);
      LandsThen(im, gEnd, env, cur, m, a, pc, m1, env, cur, j, head, m');
    }
  }

  lemma {:induction false} WhileLands(im: Image, gEnd: nat, env0: Env, cur0: nat, m: Machine, a: nat, pc: nat, m1: Machine, env: Env, cur: nat, s: Stmt)
    returns (n: nat, m': Machine)
    requires Came(im, gEnd, env0, cur0, m, a, pc, m1, env, cur) && s.While?
    requires CheckStmt(gEnd, env, cur, pc, s).Accept? && CodeAt(im.code, pc, LowerStmt(gEnd, env, cur, pc, s).ins)
    ensures a <= n <= a + StmtSteps(s)
    ensures Lands(im, gEnd, env0, cur0, m, n, pc + CodeSize(LowerStmt(gEnd, env, cur, pc, s).ins), m')
    decreases s, 1
  {
    hide Lands, Came, CodeAt, LowerStmt, CheckStmt, CodeSize, WhileAt, PlanWhile, SeqSteps, ExprSteps, Laps, Scoped, Grows, Counts, Ended, Leaves, Run,
         StartCounter, Apart;
    CameLands(im, gEnd, env0, cur0, m, a, pc, m1, env, cur);
    WhilePieces(im.code, gEnd, env, cur, pc, s);
    WhileScope(im.code, gEnd, env, cur, pc, s);
    var p := PlanWhile(gEnd, env, cur, pc, s);
    assert p.cap == (if s.maxIter.Some? then s.maxIter.value else 0) by { PlanCap(gEnd, env, cur, pc, s); }
    n, m' := a, m1;
    if Ended(im, m, a) {
      LandsEnded(im, gEnd, env0, cur0, m, a, p.end, m');
    } else {
      Landed(im, gEnd, env0, cur0, m, a, pc, m1);
      assert Apart(gEnd, env, cur, p.counter) by { WhileCell(im.code, gEnd, env, cur, s, p); }
      var j, m2 := StartLands(im, gEnd, env, cur, m1, p.cap, p.counter);
      LandsThen(im, gEnd, env0, cur0, m, a, pc, m1, env, cur, j, p.head, m2);
      n, m' := a + j, m2;
      if Ended(im, m, n) {
        LandsEnded(im, gEnd, env0, cur0, m, n, p.end, m');
      } else {
        Landed(im, gEnd, env0, cur0, m, n, p.head, m');
        var i, m3 := WhileLapsLand(im, gEnd, env, cur, s, p, m', p.cap);
        LandsThen(im, gEnd, env0, cur0, m, n, p.head, m', env, cur, i, p.end, m3);
        n, m' := n + i, m3;
      }
    }
  }

  lemma PlanCap(gEnd: nat, env: Env, cur: nat, pc: nat, st: Stmt)
    requires st.While?
    ensures PlanWhile(gEnd, env, cur, pc, st).cap == if st.maxIter.Some? then st.maxIter.value else 0
  {
    hide LowerExpr, LowerSeq;
  }

  lemma WhileCell(code: seq<byte>, gEnd: nat, env: Env, cur: nat, st: Stmt, p: WhilePlan)
    requires WhileAt(code, gEnd, env, cur, st, p)
    ensures Apart(gEnd, env, cur, p.counter)
  {
    hide CodeAt, Apart, Cell, Scoped;
  }

  // ----- FOR -----

  /** The loop of a FOR and the cell of its counter. */
  ghost predicate ForAt(code: seq<byte>, gEnd: nat, st: Stmt, f: ForShape)
  {
    var p := f.p;
    && st.For?
    && f.body == LowerSeq(gEnd, p.env, p.cur, p.head + 36, st.body)
    && f.end == p.head + 76 + CodeSize(f.body.ins)
    && CodeAt(code, p.head, CounterTest(p.counter, f.end))
    && CodeAt(code, p.head + 20, LimitTest(p.varOff, p.limit, f.end))
    && CodeAt(code, p.head + 36, f.body.ins)
    && CodeAt(code, f.end - 40, Advance(p.varOff, p.inc))
    && CodeAt(code, f.end - 24, CountDown(p.counter, p.head))
    && CheckSeq(gEnd, p.env, p.cur, p.head + 36, st.body).Accept?
    && Scoped(gEnd, p.env, p.cur) && p.step.cur <= p.cur
    && Cell(gEnd, p.env, p.cur, p.counter) && Apart(gEnd, p.env, p.step.cur, p.counter) && Apart(gEnd, p.env, p.cur, p.varOff)
  }

  lemma {:induction false} ForLapsLand(im: Image, gEnd: nat, st: Stmt, f: ForShape, m: Machine, k: nat) returns (n: nat, m': Machine)
    requires ForAt(im.code, gEnd, st, f) && InTask(m) && m.pc == f.p.head && Counts(m, f.p.counter, k)
    ensures n <= Laps(k, ForLap(st)) && Lands(im, gEnd, f.p.env, f.p.step.cur, m, n, f.end, m')
    decreases st.body, 3, k
  {
    hide Lands, Came, CodeAt, Decode, LowerSeq, CheckSeq, CodeSize, SeqSteps, Counts, Scoped, Cell, Apart, Grows, CounterTest, CountDown, LimitTest, Advance,
         Run, Ended, Leaves;
    var p, env, cur := f.p, f.p.env, f.p.step.cur;
    GrowsSame(gEnd, env, cur, p.cur);
    n, m' := TestLands(im, gEnd, env, p.cur, m, p.counter, k, f.end);
    if k > 0 {
      GrowsSame(gEnd, env, p.cur, p.cur);
      var jumps;
      n, m', jumps := ThenLimit(im, gEnd, env, p.cur, m, n, p.head + 20, m', p.varOff, p.limit, f.end);
      if !jumps {
        CameAgain(im, gEnd, env, p.cur, m, n, p.head + 36, m', env, p.cur);
        n, m' := CameSeq(im, gEnd, env, p.cur, m, n, p.head + 36, m', env, p.cur, st.body);
        CameLands(im, gEnd, env, p.cur, m, n, f.end - 40, m', f.body.env, f.body.cur);
        n, m' := ThenAdvance(im, gEnd, env, p.cur, m, n, f.end - 40, m', p.varOff, p.inc);
        var j, m2 := NextLap(im, gEnd, env, cur, p.cur, m, n, f.end - 24, m', p.counter, k, p.head);
        n, m' := n + j, m2;
        if Ended(im, m, n) {
          LandsEnded(im, gEnd, env, cur, m, n, f.end, m');
        } else {
          Landed(im, gEnd, env, cur, m, n, p.head, m');
          var i, m3 := ForLapsLand(im, gEnd, st, f, m', k - 1);
          GrowsSame(gEnd, env, cur, cur);
          LandsThen(im, gEnd, env, cur, m, n, p.head, m', env, cur, i, f.end, m3);
          n, m' := n + i, m3;
        }
        return;
      }
    }
    LandsEarlier(im, gEnd, env, cur, env, p.cur, m, n, f.end, m');
  }

  lemma ThenLimit(im: Image, gEnd: nat, env: Env, cur: nat, m: Machine, a: nat, pc: nat, m1: Machine, varOff: nat, limit: nat, end: nat)
    returns (n: nat, m': Machine, jumps: bool)
    requires Lands(im, gEnd, env, cur, m, a, pc, m1) && CodeAt(im.code, pc, LimitTest(varOff, limit, end))
    ensures a <= n <= a + 4 && Lands(im, gEnd, env, cur, m, n, if jumps then end else pc + 16, m')
  {
    hide Lands, CodeAt, Decode;
    CodeAtFour(im.code, pc, Simple(LdData, varOff), Simple(LdData, limit), Simple(Gt, 0), Simple(JmpIf, end));
    n, m' := ThenStraight(im, gEnd, env, cur, m, a, pc, m1, Simple(LdData, varOff));
    n, m' := ThenStraight(im, gEnd, env, cur, m, n, pc + 4, m', Simple(LdData, limit));
    n, m' := ThenStraight(im, gEnd, env, cur, m, n, pc + 8, m', Simple(Gt, 0));
    n, m', jumps := ThenBranch(im, gEnd, env, cur, m, n, pc + 12, m', JmpIf, end);
  }

  lemma ThenAdvance(im: Image, gEnd: nat, env: Env, cur: nat, m: Machine, a: nat, pc: nat, m1: Machine, varOff: nat, inc: nat)
    returns (n: nat, m': Machine)
    requires Lands(im, gEnd, env, cur, m, a, pc, m1) && CodeAt(im.code, pc, Advance(varOff, inc)) && Apart(gEnd, env, cur, varOff)
    ensures a <= n <= a + 4 && Lands(im, gEnd, env, cur, m, n, pc + 16, m')
  {
    hide Lands, CodeAt, Decode, Apart;
    CodeAtFour(im.code, pc, Simple(LdData, varOff), Simple(LdData, inc), Simple(Add, 0), Simple(StData, varOff));
    n, m' := ThenStraight(im, gEnd, env, cur, m, a, pc, m1, Simple(LdData, varOff));
    n, m' := ThenStraight(im, gEnd, env, cur, m, n, pc + 4, m', Simple(LdData, inc));
    n, m' := ThenStraight(im, gEnd, env, cur, m, n, pc + 8, m', Simple(Add, 0));
    n, m' := ThenStore(im, gEnd, env, cur, m, n, pc + 12, m', varOff);
  }

  /** A store to a scratch slot taken earlier in the scope that was come to. */
  lemma CameSave(im: Image, gEnd: nat, env0: Env, cur0: nat, m: Machine, a: nat, pc: nat, m1: Machine, env: Env, cur: nat, off: nat)
    returns (n: nat, m': Machine)
    requires Came(im, gEnd, env0, cur0, m, a, pc, m1, env, cur) && Frontier(gEnd, cur0) <= off && DecodesTo(im.code, pc, Simple(StData, off))
    ensures a <= n <= a + 1 && Came(im, gEnd, env0, cur0, m, n, pc + 4, m', env, cur)
  {
    hide Lands, Grows, Apart, Decode, Scoped;
    TempApart(gEnd, env0, cur0, off);
    n, m' := ThenStore(im, gEnd, env0, cur0, m, a, pc, m1, off);
  }

  lemma ForScope(code: seq<byte>, gEnd: nat, env: Env, cur: nat, pc: nat, st: Stmt)
    requires st.For? && Scoped(gEnd, env, cur)
    requires CheckStmt(gEnd, env, cur, pc, st).Accept? && CodeAt(code, pc, LowerStmt(gEnd, env, cur, pc, st).ins)
    ensures var f := ShapeFor(gEnd, env, cur, pc, st);
            && Extends(gEnd, env, cur, f.p.env, f.varCur) && Scoped(gEnd, f.p.env, f.p.step.cur)
            && ForAt(code, gEnd, st, f) && Apart(gEnd, f.p.env, f.p.first.cur, f.p.varOff) && ForLimit(st) < 0x1_0000_0000
  {
    hide CodeAt, LowerExpr, LowerSeq, LowerStmt, CheckStmt, CheckSeq, Extends, Decode, CodeSize, TypeExpr, CounterTest, CountDown, LimitTest, Advance,
         Cell, Scoped, ShapeFor, ForPlan.Setup, ForLimit, StartCounter;
    var f := ShapeFor(gEnd, env, cur, pc, st);
    var p := f.p;
    ForPieces(code, gEnd, env, cur, pc, st);
    ForChecked(gEnd, env, cur, pc, st);
    PlanOrder(gEnd, env, cur, pc, st);
    VarCursor(gEnd, env, cur, pc, st);
    LoopVarExtends(gEnd, env, cur, st.v);
    ExtendsGrows(gEnd, env, cur, p.env, f.varCur);
    CursorMoves(gEnd, p.env, f.varCur, p.step.cur);
    ExtendsGrows(gEnd, p.env, f.varCur, p.env, p.step.cur);
    CursorMoves(gEnd, p.env, f.varCur, p.cur);
    ExtendsGrows(gEnd, p.env, f.varCur, p.env, p.cur);
    TempCell(gEnd, p.env, p.step.cur, p.counter);
  }

  lemma VarCursor(gEnd: nat, env: Env, cur: nat, pc: nat, st: Stmt)
    requires st.For?
    ensures ShapeFor(gEnd, env, cur, pc, st).varCur == DeclareLoopVar(gEnd, env, cur, st.v).0
  {
    hide PlanFor, LowerSeq, CodeSize;
  }

  /** The bounds of a FOR, each saved in its slot. */
  lemma BoundsLand(im: Image, gEnd: nat, env0: Env, cur0: nat, m: Machine, a: nat, pc: nat, m1: Machine, env: Env, cur: nat, s: Stmt)
    returns (n: nat, m': Machine)
    requires Came(im, gEnd, env0, cur0, m, a, pc, m1, env, cur) && s.For?
    requires CheckStmt(gEnd, env, cur, pc, s).Accept? && CodeAt(im.code, pc, LowerStmt(gEnd, env, cur, pc, s).ins)
    ensures a <= n <= a + ExprSteps(s.first) + ExprSteps(s.last) + ExprSteps(StepExpr(s)) + 3
    ensures var f := ShapeFor(gEnd, env, cur, pc, s); Came(im, gEnd, env0, cur0, m, n, f.startPc, m', f.p.env, f.p.step.cur)
  {
    hide Lands, Came, CodeAt, Decode, LowerStmt, CheckStmt, LowerExpr, CodeSize, ShapeFor, ForAt, Scoped, Grows, Extends, ExprSteps, StepExpr, Apart,
         ForPlan.Setup, StartCounter, CounterTest, CountDown, LimitTest, Advance, LowerSeq, ForLimit, Frontier;
    CameLands(im, gEnd, env0, cur0, m, a, pc, m1, env, cur);
    var f := ShapeFor(gEnd, env, cur, pc, s);
    var p := f.p;
    ForScope(im.code, gEnd, env, cur, pc, s);
    ForPieces(im.code, gEnd, env, cur, pc, s);
    SetupPieces(im.code, gEnd, env, cur, pc, s);
    PlanOrder(gEnd, env, cur, pc, s);
    GrowsFrontier(gEnd, env0, cur0, env, cur);
    SlotsAbove(gEnd, cur0, cur, f.varCur, p.first.cur, p.limit, p.last.cur, p.inc);
    CameFurther(im, gEnd, env0, cur0, m, a, pc, m1, env, cur, a, pc, m1, p.env, f.varCur);
    n, m' := CameExpr(im, gEnd, env0, cur0, m, a, pc, m1, p.env, f.varCur, s.first);
    n, m' := CameStore(im, gEnd, env0, cur0, m, n, f.lastPc - 4, m', p.env, p.first.cur, p.varOff);
    CameMoves(im, gEnd, env0, cur0, m, n, f.lastPc, m', p.env, p.first.cur, p.limit + 4);
    n, m' := CameExpr(im, gEnd, env0, cur0, m, n, f.lastPc, m', p.env, p.limit + 4, s.last);
    n, m' := CameSave(im, gEnd, env0, cur0, m, n, f.stepPc - 4, m', p.env, p.last.cur, p.limit);
    CameMoves(im, gEnd, env0, cur0, m, n, f.stepPc, m', p.env, p.last.cur, p.inc + 4);
    n, m' := CameExpr(im, gEnd, env0, cur0, m, n, f.stepPc, m', p.env, p.inc + 4, StepExpr(s));
    n, m' := CameSave(im, gEnd, env0, cur0, m, n, f.startPc - 4, m', p.env, p.step.cur, p.inc);
  }

  lemma GrowsFrontier(gEnd: nat, env: Env, cur: nat, env': Env, cur': nat)
    requires Grows(gEnd, env, cur, env', cur')
    ensures cur <= cur'
  {}

  lemma SlotsAbove(gEnd: nat, c0: nat, c1: nat, c2: nat, first: nat, limit: nat, last: nat, inc: nat)
    requires c0 <= c1 <= c2 <= first && Frontier(gEnd, first) <= limit && limit + 4 <= last && Frontier(gEnd, last) <= inc
    ensures Frontier(gEnd, c0) <= limit && Frontier(gEnd, c0) <= inc && first <= limit + 4 && last <= inc + 4
  {}

  lemma {:induction false} ForLands(im: Image, gEnd: nat, env0: Env, cur0: nat, m: Machine, a: nat, pc: nat, m1: Machine, env: Env, cur: nat, s: Stmt)
    returns (n: nat, m': Machine)
    requires Came(im, gEnd, env0, cur0, m, a, pc, m1, env, cur) && s.For?
    requires CheckStmt(gEnd, env, cur, pc, s).Accept? && CodeAt(im.code, pc, LowerStmt(gEnd, env, cur, pc, s).ins)
    ensures a <= n <= a + StmtSteps(s)
    ensures Lands(im, gEnd, env0, cur0, m, n, pc + CodeSize(LowerStmt(gEnd, env, cur, pc, s).ins), m')
    decreases s, 1
  {
    hide Lands, Came, CodeAt, LowerStmt, CheckStmt, CodeSize, ForAt, ShapeFor, SeqSteps, ExprSteps, Laps, ForLap, Scoped, Grows, Counts, ForLimit, StepExpr,
         ForPlan.Setup, StartCounter, CounterTest, CountDown, LimitTest, Advance, LowerSeq, LowerExpr, Extends, Apart, StmtSteps, Ended, Leaves, Run;
    CameLands(im, gEnd, env0, cur0, m, a, pc, m1, env, cur);
    var f := ShapeFor(gEnd, env, cur, pc, s);
    var p := f.p;
    ForScope(im.code, gEnd, env, cur, pc, s);
    ForPieces(im.code, gEnd, env, cur, pc, s);
    PlanOrder(gEnd, env, cur, pc, s);
    ForLength(s);
    n, m' := BoundsLand(im, gEnd, env0, cur0, m, a, pc, m1, env, cur, s);
    CameLands(im, gEnd, env0, cur0, m, n, f.startPc, m', p.env, p.step.cur);
    if Ended(im, m, n) {
      LandsEnded(im, gEnd, env0, cur0, m, n, f.end, m');
    } else {
      Landed(im, gEnd, env0, cur0, m, n, f.startPc, m');
      assert Apart(gEnd, p.env, p.step.cur, p.counter) by { ForCell(im.code, gEnd, s, f); }
      var j, m2 := StartLands(im, gEnd, p.env, p.step.cur, m', ForLimit(s), p.counter);
      LandsThen(im, gEnd, env0, cur0, m, n, f.startPc, m', p.env, p.step.cur, j, p.head, m2);
      n, m' := n + j, m2;
      if Ended(im, m, n) {
        LandsEnded(im, gEnd, env0, cur0, m, n, f.end, m');
      } else {
        Landed(im, gEnd, env0, cur0, m, n, p.head, m');
        var i, m3 := ForLapsLand(im, gEnd, s, f, m', ForLimit(s));
        LandsThen(im, gEnd, env0, cur0, m, n, p.head, m', p.env, p.step.cur, i, f.end, m3);
        n, m' := n + i, m3;
      }
    }
  }

  lemma ForLength(st: Stmt)
    requires st.For?
    ensures StmtSteps(st) == ExprSteps(st.first) + ExprSteps(st.last) + ExprSteps(StepExpr(st)) + 5 + Laps(ForLimit(st), ForLap(st))
  {
    hide ForCap, Laps;
  }

  lemma ForCell(code: seq<byte>, gEnd: nat, st: Stmt, f: ForShape)
    requires ForAt(code, gEnd, st, f)
    ensures Apart(gEnd, f.p.env, f.p.step.cur, f.p.counter)
  {
    hide CodeAt, Apart, Cell, Scoped;
  }

  // ----- tasks -----

  /** A task body followed by HALT ends within its step bound, from any machine. */
  lemma BodyHalts(im: Image, gEnd: nat, globals: Env, cur: nat, m: Machine, body: seq<Stmt>) returns (n: nat)
    requires InTask(m) && Scoped(gEnd, globals, cur)
    requires CheckSeq(gEnd, globals, cur, m.pc, body).Accept?
    requires CodeAt(im.code, m.pc, LowerSeq(gEnd, globals, cur, m.pc, body).ins + [Simple(Halt, 0)])
    ensures n <= SeqSteps(body) + 1 && !Run(im, m, n).Running?
  {
    hide Lands, Came, CodeAt, Decode, LowerSeq, CheckSeq, CodeSize, SeqSteps, Scoped, Grows, Run;
    var b := LowerSeq(gEnd, globals, cur, m.pc, body);
    CodeAtSplit(im.code, m.pc, b.ins, [Simple(Halt, 0)]);
    CodeAtOne(im.code, m.pc + CodeSize(b.ins), Simple(Halt, 0));
    LandsHere(im, gEnd, globals, cur, m);
    GrowsSame(gEnd, globals, cur, cur);
    CameAgain(im, gEnd, globals, cur, m, 0, m.pc, m, globals, cur);
    var m1;
    n, m1 := CameSeq(im, gEnd, globals, cur, m, 0, m.pc, m, globals, cur, body);
    CameLands(im, gEnd, globals, cur, m, n, m.pc + CodeSize(b.ins), m1, b.env, b.cur);
    if !Ended(im, m, n) {
      Landed(im, gEnd, globals, cur, m, n, m.pc + CodeSize(b.ins), m1);
      OneStep(im, m1, Simple(Halt, 0));
      Then(im, m, n, m1, 1);
      n := n + 1;
    }
  }
}
