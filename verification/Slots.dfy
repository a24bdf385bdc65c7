/** Image slots beyond the reach of an operand: the code of a program is, byte for byte, that
    of the program whose slot numbers are cut to 24 bits. */
module Slots {
  import opened Bytes
  import opened Ir
  import opened Vm
  import opened St
  import opened Lower
  import opened Sizes
  import opened Unfold
  import opened Check
  import opened Scope
  import opened Assembly
  import opened Encodes

  function CutStorage(st: Storage): Storage
  {
    match st
    case Input(slot, ty) => Input(slot % LIMIT, ty)
    case Output(slot, ty) => Output(slot % LIMIT, ty)
    case _ => st
  }

  function CutEnv(env: Env): Env { map x | x in env :: CutStorage(env[x]) }

  predicate NamesSlot(i: Instr) { i.Simple? && (i.op.LdI? || i.op.LdQ? || i.op.LdIq? || i.op.StQ?) }

  function CutInstr(i: Instr): Instr
  {
    if NamesSlot(i) then Simple(i.op, i.payload % LIMIT) else i
  }

  function CutAll(ins: seq<Instr>): seq<Instr> { seq(|ins|, k requires 0 <= k < |ins| => CutInstr(ins[k])) }

  // ----- bytes -----

  lemma CutOperand(n: nat)
    ensures Bytes.Le(n, 3) == Bytes.Le(n % LIMIT, 3)
  {
    var m, q := n % LIMIT, n / LIMIT;
    CutByte(n, m, q * 0x1_0000);
    CutByte(n / 256, m / 256, q * 0x100);
    CutByte(n / 256 / 256, m / 256 / 256, q);
    LeThree(n);
    LeThree(m);
  }

  lemma CutByte(n: nat, m: nat, q: nat)
    requires n == m + q * 256
    ensures n % 256 == m % 256 && n / 256 == m / 256 + q
  {}

  lemma LeThree(n: nat)
    ensures Bytes.Le(n, 3) == [n % 256, n / 256 % 256, n / 256 / 256 % 256]
  {
    assert Bytes.Le(n / 256 / 256, 1) == [n / 256 / 256 % 256];
    assert Bytes.Le(n / 256, 2) == [n / 256 % 256] + Bytes.Le(n / 256 / 256, 1);
    assert Bytes.Le(n, 3) == [n % 256] + Bytes.Le(n / 256, 2);
  }

  lemma {:induction false} SameBytes(ins: seq<Instr>)
    ensures EncodeAll(CutAll(ins)) == EncodeAll(ins)
  {
    hide Encode;
    if ins == [] {
      assert CutAll(ins) == ins;
    } else {
      var n := |ins| - 1;
      SameBytes(ins[..n]);
      assert CutAll(ins)[..n] == CutAll(ins[..n]);
      SameEncoding(ins[n]);
    }
  }

  lemma SameEncoding(i: Instr)
    ensures Encode(CutInstr(i)) == Encode(i)
  {
    if NamesSlot(i) { CutOperand(i.payload); }
  }

  // ----- instruction lists -----

  lemma CutAppend(a: seq<Instr>, b: seq<Instr>)
    ensures CutAll(a + b) == CutAll(a) + CutAll(b)
  {}

  lemma {:induction false} CutSize(a: seq<Instr>)
    ensures CodeSize(CutAll(a)) == CodeSize(a)
  {
    if a != [] {
      CutSize(a[1..]);
      assert CutAll(a)[1..] == CutAll(a[1..]);
    }
  }

  ghost predicate NoSlots(a: seq<Instr>) { forall i :: i in a ==> !NamesSlot(i) }

  lemma CutNone(a: seq<Instr>)
    requires NoSlots(a)
    ensures CutAll(a) == a
  {}

  lemma {:induction false} TestsNone(tmp: nat, labels: seq<int>, body: nat, next: nat)
    ensures NoSlots(LabelTests(tmp, labels, body, next))
  {
    if labels != [] { TestsNone(tmp, labels[1..], body, next); }
  }

  // ----- scopes -----

  lemma CutDeclared(env: Env, x: string, off: nat, ty: IrType)
    ensures CutEnv(env[x := Data(off, ty)]) == CutEnv(env)[x := Data(off, ty)]
  {}

  lemma CutScoped(gEnd: nat, env: Env, cur: nat)
    requires Scoped(gEnd, env, cur)
    ensures Scoped(gEnd, CutEnv(env), cur)
  {
    forall x | InData(CutEnv(env), x) ensures InData(env, x) && CutEnv(env)[x] == env[x] {}
  }

  // ----- code and checks -----

  lemma {:induction false} CutType(env: Env, e: Expr)
    ensures TypeExpr(CutEnv(env), e) == TypeExpr(env, e)
    decreases e
  {
    match e {
      case Unary(_, arg) => CutType(env, arg);
      case Binary(_, left, right) =>
        CutType(env, left);
        CutType(env, right);
      case _ =>
    }
  }

  function CutCode(c: Code): Code { Code(CutAll(c.ins), c.cur) }

  function CutBlock(b: Block): Block { Block(CutAll(b.ins), b.cur, CutEnv(b.env)) }

  lemma {:induction false} CutExpr(gEnd: nat, env: Env, cur: nat, pc: nat, e: Expr)
    ensures LowerExpr(gEnd, CutEnv(env), cur, pc, e) == CutCode(LowerExpr(gEnd, env, cur, pc, e))
    decreases e
  {
    match e {
      case Unary(op, arg) =>
        CutExpr(gEnd, env, cur, pc, arg);
        CutAppend(LowerExpr(gEnd, env, cur, pc, arg).ins, [Simple(if op.Invert? then Not else Neg, 0)]);
      case Binary(op, left, right) => CutBinary(gEnd, env, cur, pc, e);
      case _ =>
    }
  }

  lemma {:induction false} CutBinary(gEnd: nat, env: Env, cur: nat, pc: nat, e: Expr)
    requires e.Binary?
    ensures LowerExpr(gEnd, CutEnv(env), cur, pc, e) == CutCode(LowerExpr(gEnd, env, cur, pc, e))
    decreases e, 0
  {
    hide LowerExpr, CodeSize, CutAll, CutEnv, AllocTemp;
    var full := CutEnv(env);
    var a := LowerExpr(gEnd, env, cur, pc, e.left);
    CutExpr(gEnd, env, cur, pc, e.left);
    CutSize(a.ins);
    if e.bop.AndAlso? || e.bop.OrElse? {
      LoweredShort(gEnd, env, cur, pc, e);
      LoweredShort(gEnd, full, cur, pc, e);
      var t := AllocTemp(gEnd, a.cur, TBool);
      var rightPc := pc + CodeSize(a.ins) + 12;
      var b := LowerExpr(gEnd, env, t.1, rightPc, e.right);
      CutExpr(gEnd, env, t.1, rightPc, e.right);
      CutSize(b.ins);
      var skip := rightPc + CodeSize(b.ins) + 4;
      var dup, tail := ShortCircuit(e.bop, t.0, skip), [Simple(Jmp, skip + 4), Simple(PushIBool, if e.bop.OrElse? then 1 else 0)];
      CutAppend(a.ins + dup + b.ins, tail);
      CutAppend(a.ins + dup, b.ins);
      CutAppend(a.ins, dup);
      CutNone(dup);
      CutNone(tail);
    } else {
      LoweredPlain(gEnd, env, cur, pc, e);
      LoweredPlain(gEnd, full, cur, pc, e);
      var b := LowerExpr(gEnd, env, a.cur, pc + CodeSize(a.ins), e.right);
      CutExpr(gEnd, env, a.cur, pc + CodeSize(a.ins), e.right);
      CutAppend(a.ins + b.ins, [Simple(OpcodeOf(e.bop), 0)]);
      CutAppend(a.ins, b.ins);
      OperatorNone(e.bop);
      CutNone([Simple(OpcodeOf(e.bop), 0)]);
    }
  }

  lemma OperatorNone(op: BinaryOp)
    ensures !NamesSlot(Simple(OpcodeOf(op), 0))
  {}

  /** Code, scope and complaints of a cut scope. */
  ghost predicate Alike(b: Block, c: Checked<()>, b': Block, c': Checked<()>) { b' == CutBlock(b) && c' == c }

  lemma {:induction false} CutStmt(gEnd: nat, env: Env, cur: nat, pc: nat, s: Stmt)
    ensures Alike(LowerStmt(gEnd, env, cur, pc, s), CheckStmt(gEnd, env, cur, pc, s),
                  LowerStmt(gEnd, CutEnv(env), cur, pc, s), CheckStmt(gEnd, CutEnv(env), cur, pc, s))
    decreases s, 1
  {
    match s {
      case Empty =>
      case Return =>
      case Assign(lhs, rhs) => CutAssign(gEnd, env, cur, pc, s);
      case If(_, _) => CutIf(gEnd, env, cur, pc, s);
      case Case(_, _, _) => CutCase(gEnd, env, cur, pc, s);
      case While(_, _, _) => CutWhile(gEnd, env, cur, pc, s);
      case For(_, _, _, _, _, _) => CutFor(gEnd, env, cur, pc, s);
    }
  }

  lemma CutAssign(gEnd: nat, env: Env, cur: nat, pc: nat, s: Stmt)
    requires s.Assign?
    ensures Alike(LowerStmt(gEnd, env, cur, pc, s), CheckStmt(gEnd, env, cur, pc, s),
                  LowerStmt(gEnd, CutEnv(env), cur, pc, s), CheckStmt(gEnd, CutEnv(env), cur, pc, s))
  {
    hide LowerExpr, TypeExpr;
    CutExpr(gEnd, env, cur, pc, s.rhs);
    CutType(env, s.rhs);
    var c := LowerExpr(gEnd, env, cur, pc, s.rhs);
    CutAppend(c.ins, [StoreName(env, s.lhs)]);
    assert CutAll([StoreName(env, s.lhs)]) == [StoreName(CutEnv(env), s.lhs)];
  }

  lemma {:induction false} CutSeq(gEnd: nat, env: Env, cur: nat, pc: nat, ss: seq<Stmt>)
    ensures Alike(LowerSeq(gEnd, env, cur, pc, ss), CheckSeq(gEnd, env, cur, pc, ss),
                  LowerSeq(gEnd, CutEnv(env), cur, pc, ss), CheckSeq(gEnd, CutEnv(env), cur, pc, ss))
    decreases ss, 1
  {
    hide LowerSeq, LowerStmt, CheckSeq, CheckStmt, CodeSize, CutEnv;
    if ss == [] {
      SeqEnds(gEnd, env, cur, pc, ss);
      SeqEnds(gEnd, CutEnv(env), cur, pc, ss);
    } else {
      SeqUnfolds(gEnd, env, cur, pc, ss);
      SeqUnfolds(gEnd, CutEnv(env), cur, pc, ss);
      var a := LowerStmt(gEnd, env, cur, pc, ss[0]);
      CutStmt(gEnd, env, cur, pc, ss[0]);
      CutSize(a.ins);
      CutSeq(gEnd, a.env, a.cur, pc + CodeSize(a.ins), ss[1..]);
      CutAppend(a.ins, LowerSeq(gEnd, a.env, a.cur, pc + CodeSize(a.ins), ss[1..]).ins);
    }
  }

  lemma {:induction false} CutElse(gEnd: nat, env: Env, cur: nat, pc: nat, els: Else)
    ensures Alike(LowerElse(gEnd, env, cur, pc, els), CheckElse(gEnd, env, cur, pc, els),
                  LowerElse(gEnd, CutEnv(env), cur, pc, els), CheckElse(gEnd, CutEnv(env), cur, pc, els))
    decreases els, 1
  {
    hide LowerSeq, CheckSeq;
    if els.Else? { CutSeq(gEnd, env, cur, pc, els.body); }
  }

  lemma {:induction false} CutBranch(gEnd: nat, env: Env, cur: nat, pc: nat, br: Branch, leave: bool, end: nat)
    ensures Alike(LowerBranch(gEnd, env, cur, pc, br, leave, end), CheckBranch(gEnd, env, cur, pc, br),
                  LowerBranch(gEnd, CutEnv(env), cur, pc, br, leave, end), CheckBranch(gEnd, CutEnv(env), cur, pc, br))
    decreases br, 2
  {
    hide LowerExpr, LowerSeq, CheckSeq, TypeExpr, CodeSize, CutEnv, CutAll, Leave;
    var c := LowerExpr(gEnd, env, cur, pc, br.cond);
    CutExpr(gEnd, env, cur, pc, br.cond);
    CutType(env, br.cond);
    CutSize(c.ins);
    var bodyPc := pc + CodeSize(c.ins) + 4;
    var b := LowerSeq(gEnd, env, c.cur, bodyPc, br.body);
    CutSeq(gEnd, env, c.cur, bodyPc, br.body);
    CutSize(b.ins);
    var tail := Leave(leave, end);
    var j := Simple(JmpIfNot, bodyPc + CodeSize(b.ins) + CodeSize(tail));
    CutAppend(c.ins + [j] + b.ins, tail);
    CutAppend(c.ins + [j], b.ins);
    CutAppend(c.ins, [j]);
    CutNone([j]);
    assert NoSlots(tail) by { LeaveNone(leave, end); }
    CutNone(tail);
  }

  lemma LeaveNone(leave: bool, end: nat)
    ensures NoSlots(Leave(leave, end))
  {}

  lemma {:induction false} CutBranches(gEnd: nat, env: Env, cur: nat, pc: nat, bs: seq<Branch>, more: bool, end: nat)
    ensures Alike(LowerBranches(gEnd, env, cur, pc, bs, more, end), CheckBranches(gEnd, env, cur, pc, bs, more),
                  LowerBranches(gEnd, CutEnv(env), cur, pc, bs, more, end), CheckBranches(gEnd, CutEnv(env), cur, pc, bs, more))
    decreases bs, 2
  {
    hide LowerBranches, LowerBranch, CheckBranches, CheckBranch, CodeSize, CutEnv;
    if bs == [] {
      BranchesEnd(gEnd, env, cur, pc, bs, more, end);
      BranchesEnd(gEnd, CutEnv(env), cur, pc, bs, more, end);
    } else {
      BranchesUnfold(gEnd, env, cur, pc, bs, more, end);
      BranchesUnfold(gEnd, CutEnv(env), cur, pc, bs, more, end);
      var a := LowerBranch(gEnd, env, cur, pc, bs[0], |bs| > 1 || more, end);
      CutBranch(gEnd, env, cur, pc, bs[0], |bs| > 1 || more, end);
      CutSize(a.ins);
      CutBranches(gEnd, a.env, a.cur, pc + CodeSize(a.ins), bs[1..], more, end);
      CutAppend(a.ins, LowerBranches(gEnd, a.env, a.cur, pc + CodeSize(a.ins), bs[1..], more, end).ins);
    }
  }

  lemma {:induction false} CutIf(gEnd: nat, env: Env, cur: nat, pc: nat, s: Stmt)
    requires s.If?
    ensures Alike(LowerStmt(gEnd, env, cur, pc, s), CheckStmt(gEnd, env, cur, pc, s),
                  LowerStmt(gEnd, CutEnv(env), cur, pc, s), CheckStmt(gEnd, CutEnv(env), cur, pc, s))
    decreases s, 0
  {
    hide LowerStmt, CheckStmt, LowerBranches, LowerElse, CheckBranches, CheckElse, CodeSize, CutEnv, CutAll;
    IfUnfolds(gEnd, env, cur, pc, s);
    IfUnfolds(gEnd, CutEnv(env), cur, pc, s);
    var more := s.elseBody.Else?;
    var bs := LowerBranches(gEnd, env, cur, pc, s.branches, more, 0);
    CutBranches(gEnd, env, cur, pc, s.branches, more, 0);
    CutSize(bs.ins);
    var elsePc := pc + CodeSize(bs.ins);
    var eb := LowerElse(gEnd, bs.env, bs.cur, elsePc, s.elseBody);
    CutElse(gEnd, bs.env, bs.cur, elsePc, s.elseBody);
    CutSize(eb.ins);
    CutBranches(gEnd, env, cur, pc, s.branches, more, elsePc + CodeSize(eb.ins));
    CutAppend(LowerBranches(gEnd, env, cur, pc, s.branches, more, elsePc + CodeSize(eb.ins)).ins, eb.ins);
  }

  lemma {:induction false} CutArm(gEnd: nat, env: Env, cur: nat, pc: nat, tmp: nat, arm: Arm, end: nat)
    ensures LowerArm(gEnd, CutEnv(env), cur, pc, tmp, arm, end) == CutBlock(LowerArm(gEnd, env, cur, pc, tmp, arm, end))
    ensures var bodyPc := pc + 20 * |arm.labels|;
            CheckSeq(gEnd, CutEnv(env), cur, bodyPc, arm.body) == CheckSeq(gEnd, env, cur, bodyPc, arm.body)
    decreases arm, 2
  {
    hide LowerSeq, CheckSeq, CodeSize, CutEnv, CutAll, LabelTests;
    var bodyPc := pc + 20 * |arm.labels|;
    var b := LowerSeq(gEnd, env, cur, bodyPc, arm.body);
    CutSeq(gEnd, env, cur, bodyPc, arm.body);
    CutSize(b.ins);
    var tests := LabelTests(tmp, arm.labels, bodyPc, bodyPc + CodeSize(b.ins) + 4);
    CutAppend(tests + b.ins, [Simple(Jmp, end)]);
    CutAppend(tests, b.ins);
    TestsNone(tmp, arm.labels, bodyPc, bodyPc + CodeSize(b.ins) + 4);
    CutNone(tests);
    CutNone([Simple(Jmp, end)]);
  }

  lemma {:induction false} CutArms(gEnd: nat, env: Env, cur: nat, pc: nat, tmp: nat, arms: seq<Arm>, end: nat)
    ensures Alike(LowerArms(gEnd, env, cur, pc, tmp, arms, end), CheckArms(gEnd, env, cur, pc, tmp, arms),
                  LowerArms(gEnd, CutEnv(env), cur, pc, tmp, arms, end), CheckArms(gEnd, CutEnv(env), cur, pc, tmp, arms))
    decreases arms, 2
  {
    hide LowerArms, LowerArm, CheckArms, CheckSeq, CodeSize, CutEnv;
    if arms == [] {
      ArmsEnd(gEnd, env, cur, pc, tmp, arms, end);
      ArmsEnd(gEnd, CutEnv(env), cur, pc, tmp, arms, end);
    } else {
      ArmsUnfold(gEnd, env, cur, pc, tmp, arms, end);
      ArmsUnfold(gEnd, CutEnv(env), cur, pc, tmp, arms, end);
      var a := LowerArm(gEnd, env, cur, pc, tmp, arms[0], end);
      CutArm(gEnd, env, cur, pc, tmp, arms[0], end);
      CutSize(a.ins);
      CutArms(gEnd, a.env, a.cur, pc + CodeSize(a.ins), tmp, arms[1..], end);
      CutAppend(a.ins, LowerArms(gEnd, a.env, a.cur, pc + CodeSize(a.ins), tmp, arms[1..], end).ins);
    }
  }

  lemma {:induction false} CutCase(gEnd: nat, env: Env, cur: nat, pc: nat, s: Stmt)
    requires s.Case?
    ensures Alike(LowerStmt(gEnd, env, cur, pc, s), CheckStmt(gEnd, env, cur, pc, s),
                  LowerStmt(gEnd, CutEnv(env), cur, pc, s), CheckStmt(gEnd, CutEnv(env), cur, pc, s))
    decreases s, 0
  {
    hide LowerStmt, CheckStmt, LowerExpr, TypeExpr, LowerArms, LowerElse, CheckArms, CheckElse, CodeSize, CutEnv, CutAll, AllocTemp;
    CaseUnfolds(gEnd, env, cur, pc, s);
    CaseUnfolds(gEnd, CutEnv(env), cur, pc, s);
    var t := TypeExpr(env, s.selector);
    var v := LowerExpr(gEnd, env, cur, pc, s.selector);
    CutExpr(gEnd, env, cur, pc, s.selector);
    CutType(env, s.selector);
    CutSize(v.ins);
    var tmp := AllocTemp(gEnd, v.cur, if t.Accept? then t.value else TDint);
    var armsPc := pc + CodeSize(v.ins) + 4;
    var bs := LowerArms(gEnd, env, tmp.1, armsPc, tmp.0, s.arms, 0);
    CutArms(gEnd, env, tmp.1, armsPc, tmp.0, s.arms, 0);
    CutSize(bs.ins);
    var elsePc := armsPc + CodeSize(bs.ins);
    var eb := LowerElse(gEnd, bs.env, bs.cur, elsePc, s.elseBody);
    CutElse(gEnd, bs.env, bs.cur, elsePc, s.elseBody);
    CutSize(eb.ins);
    var final := LowerArms(gEnd, env, tmp.1, armsPc, tmp.0, s.arms, elsePc + CodeSize(eb.ins));
    CutArms(gEnd, env, tmp.1, armsPc, tmp.0, s.arms, elsePc + CodeSize(eb.ins));
    var store := [Simple(StData, tmp.0)];
    CutAppend(v.ins + store + final.ins, eb.ins);
    CutAppend(v.ins + store, final.ins);
    CutAppend(v.ins, store);
    CutNone(store);
  }

  lemma {:induction false} CutWhile(gEnd: nat, env: Env, cur: nat, pc: nat, s: Stmt)
    requires s.While?
    ensures Alike(LowerStmt(gEnd, env, cur, pc, s), CheckStmt(gEnd, env, cur, pc, s),
                  LowerStmt(gEnd, CutEnv(env), cur, pc, s), CheckStmt(gEnd, CutEnv(env), cur, pc, s))
    decreases s, 0
  {
    hide LowerStmt, CheckStmt, LowerExpr, TypeExpr, LowerSeq, CheckSeq, CodeSize, CutEnv, CutAll, AllocTemp;
    WhileUnfolds(gEnd, env, cur, pc, s);
    WhileUnfolds(gEnd, CutEnv(env), cur, pc, s);
    var tmp := AllocTemp(gEnd, cur, TDint);
    var c := LowerExpr(gEnd, env, tmp.1, pc + 32, s.cond);
    CutExpr(gEnd, env, tmp.1, pc + 32, s.cond);
    CutType(env, s.cond);
    CutSize(c.ins);
    var bodyPc := pc + 36 + CodeSize(c.ins);
    var b := LowerSeq(gEnd, env, c.cur, bodyPc, s.body);
    CutSeq(gEnd, env, c.cur, bodyPc, s.body);
    CutSize(b.ins);
    var end := bodyPc + CodeSize(b.ins) + 24;
    var front := StartCounter(if s.maxIter.Some? then s.maxIter.value else 0, tmp.0) + CounterTest(tmp.0, end);
    var j, down := [Simple(JmpIfNot, end)], CountDown(tmp.0, pc + 12);
    CutAppend(front + c.ins + j + b.ins, down);
    CutAppend(front + c.ins + j, b.ins);
    CutAppend(front + c.ins, j);
    CutAppend(front, c.ins);
    CutNone(front);
    CutNone(j);
    CutNone(down);
  }

  function CutPlan(p: ForPlan): ForPlan
  {
    p.(env := CutEnv(p.env), first := CutCode(p.first), last := CutCode(p.last), step := CutCode(p.step))
  }

  lemma CutDeclare(gEnd: nat, env: Env, cur: nat, x: string)
    ensures var d := DeclareLoopVar(gEnd, env, cur, x);
            DeclareLoopVar(gEnd, CutEnv(env), cur, x) == (d.0, CutEnv(d.1)) && LoopVarOffset(CutEnv(d.1), x) == LoopVarOffset(d.1, x)
  {
    if x !in env { CutDeclared(env, x, AllocTemp(gEnd, cur, TDint).0, TDint); }
  }

  lemma CutPlans(gEnd: nat, env: Env, cur: nat, pc: nat, x: string, first: Expr, last: Expr, step: Option<Expr>)
    ensures PlanFor(gEnd, CutEnv(env), cur, pc, x, first, last, step) == CutPlan(PlanFor(gEnd, env, cur, pc, x, first, last, step))
  {
    hide LowerExpr, CodeSize, CutEnv, CutAll, AllocTemp, DeclareLoopVar, LoopVarOffset;
    var d := DeclareLoopVar(gEnd, env, cur, x);
    CutDeclare(gEnd, env, cur, x);
    var a := LowerExpr(gEnd, d.1, d.0, pc, first);
    CutExpr(gEnd, d.1, d.0, pc, first);
    CutSize(a.ins);
    var lim := AllocTemp(gEnd, a.cur, TDint);
    var lastPc := pc + CodeSize(a.ins) + 4;
    var l := LowerExpr(gEnd, d.1, lim.1, lastPc, last);
    CutExpr(gEnd, d.1, lim.1, lastPc, last);
    CutSize(l.ins);
    var inc := AllocTemp(gEnd, l.cur, TDint);
    var stepPc := lastPc + CodeSize(l.ins) + 4;
    var st := LowerStep(gEnd, d.1, inc.1, stepPc, step);
    if step.Some? { CutExpr(gEnd, d.1, inc.1, stepPc, step.value); } else { CutNone([PushDint(1)]); }
    CutSize(st.ins);
  }

  lemma CutSetup(p: ForPlan)
    ensures CutPlan(p).Setup() == CutAll(p.Setup())
  {
    hide CutAll;
    var s1, s2, s3 := [Simple(StData, p.varOff)], [Simple(StData, p.limit)], [Simple(StData, p.inc)];
    var a := p.first.ins + s1 + p.last.ins;
    CutAppend(a + s2 + p.step.ins, s3);
    CutAppend(a + s2, p.step.ins);
    CutAppend(a, s2);
    CutAppend(p.first.ins + s1, p.last.ins);
    CutAppend(p.first.ins, s1);
    CutNone(s1);
    CutNone(s2);
    CutNone(s3);
  }

  lemma CutForCode(p: ForPlan, cap: nat, b: Block, end: nat)
    ensures ForCodeOf(CutPlan(p), cap, CutBlock(b), end) == CutAll(ForCodeOf(p, cap, b, end))
  {
    hide CutAll, ForPlan.Setup;
    CutSetup(p);
    var front := StartCounter(cap, p.counter) + CounterTest(p.counter, end) + LimitTest(p.varOff, p.limit, end);
    var back := Advance(p.varOff, p.inc) + CountDown(p.counter, p.head);
    assert ForCodeOf(p, cap, b, end) == p.Setup() + front + b.ins + back;
    assert ForCodeOf(CutPlan(p), cap, CutBlock(b), end) == CutPlan(p).Setup() + front + CutAll(b.ins) + back;
    CutAppend(p.Setup() + front + b.ins, back);
    CutAppend(p.Setup() + front, b.ins);
    CutAppend(p.Setup(), front);
    CutNone(front);
    CutNone(back);
  }

  lemma {:induction false} CutFor(gEnd: nat, env: Env, cur: nat, pc: nat, s: Stmt)
    requires s.For?
    ensures Alike(LowerStmt(gEnd, env, cur, pc, s), CheckStmt(gEnd, env, cur, pc, s),
                  LowerStmt(gEnd, CutEnv(env), cur, pc, s), CheckStmt(gEnd, CutEnv(env), cur, pc, s))
    decreases s, 0
  {
    hide LowerExpr, TypeExpr, LowerSeq, CheckSeq, CodeSize, CutAll, PlanFor, ForCap, CutPlan, ForPlan.Setup;
    var p := PlanFor(gEnd, env, cur, pc, s.v, s.first, s.last, s.step);
    CutPlans(gEnd, env, cur, pc, s.v, s.first, s.last, s.step);
    var b := LowerSeq(gEnd, p.env, p.cur, p.head + 36, s.body);
    CutSeq(gEnd, p.env, p.cur, p.head + 36, s.body);
    CutSize(b.ins);
    CutType(p.env, s.first);
    CutType(p.env, s.last);
    if s.step.Some? { CutType(p.env, s.step.value); }
    var cap := ForCap(s.first, s.last, s.step, s.maxIter);
    CutForCode(p, if cap.Accept? then cap.value else 0, b, p.head + 36 + CodeSize(b.ins) + 40);
    assert CutPlan(p).env == CutEnv(p.env) && CutPlan(p).cur == p.cur && CutPlan(p).head == p.head && CutPlan(p).counter == p.counter
           && CutPlan(p).varOff == p.varOff && CutPlan(p).limit == p.limit && CutPlan(p).inc == p.inc by { PlanFields(p); }
  }

  lemma PlanFields(p: ForPlan)
    ensures var q := CutPlan(p);
            q.env == CutEnv(p.env) && q.cur == p.cur && q.head == p.head && q.counter == p.counter
            && q.varOff == p.varOff && q.limit == p.limit && q.inc == p.inc
  {}
}
