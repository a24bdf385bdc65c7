/** Reference code fits the instruction encoding: 24-bit payloads, 32-bit immediates. */
module Encodes {
  import opened Bytes
  import opened Ir
  import opened Vm
  import opened St
  import opened Lower
  import opened Sizes
  import opened Scope
  import opened Simulation
  import opened Assembly
  import opened Unfold

  const LIMIT: nat := 0x100_0000

  ghost predicate SmallEnv(env: Env)
  {
    forall x :: x in env ==>
      match env[x]
      case Input(slot, _) => slot < LIMIT
      case Output(slot, _) => slot < LIMIT
      case Data(offset, _) => offset < LIMIT
      case Retain(offset, _) => offset < LIMIT
      case Const(_) => true
  }

  ghost predicate Small(ins: seq<Instr>)
  {
    forall k :: 0 <= k < |ins| ==> Encodable(ins[k])
  }

  lemma SmallAppend(a: seq<Instr>, b: seq<Instr>)
    requires Small(a) && Small(b)
    ensures Small(a + b)
  {}

  lemma SmallJoin(a: seq<Instr>, b: seq<Instr>, c: seq<Instr>)
    requires Small(a) && Small(b) && Small(c)
    ensures Small(a + b + c)
  {}

  /** Scopes stay small below the limit. */
  lemma SmallGrows(gEnd: nat, env: Env, cur: nat, env': Env, cur': nat)
    requires SmallEnv(env) && Extends(gEnd, env, cur, env', cur') && cur' <= LIMIT
    ensures SmallEnv(env')
  {}

  lemma {:induction false} ExprSmall(gEnd: nat, env: Env, cur: nat, pc: nat, e: Expr)
    requires var c := LowerExpr(gEnd, env, cur, pc, e); SmallEnv(env) && c.cur <= LIMIT && pc + CodeSize(c.ins) < LIMIT
    ensures Small(LowerExpr(gEnd, env, cur, pc, e).ins)
    decreases e, 1
  {
    hide CodeSize;
    match e {
      case Unary(op, arg) =>
        var a := LowerExpr(gEnd, env, cur, pc, arg);
        CodeSizeAppend(a.ins, [Simple(if op.Invert? then Not else Neg, 0)]);
        ExprSmall(gEnd, env, cur, pc, arg);
      case Binary(op, left, right) =>
        if op.AndAlso? || op.OrElse? { ShortSmall(gEnd, env, cur, pc, e); } else { PlainSmall(gEnd, env, cur, pc, e); }
      case _ =>
    }
  }

  lemma {:induction false} PlainSmall(gEnd: nat, env: Env, cur: nat, pc: nat, e: Expr)
    requires e.Binary? && !e.bop.AndAlso? && !e.bop.OrElse?
    requires var c := LowerExpr(gEnd, env, cur, pc, e); SmallEnv(env) && c.cur <= LIMIT && pc + CodeSize(c.ins) < LIMIT
    ensures Small(LowerExpr(gEnd, env, cur, pc, e).ins)
    decreases e, 0
  {
    hide LowerExpr, CodeSize, SmallEnv, Extends, IsImm;
    LoweredPlain(gEnd, env, cur, pc, e);
    var a := LowerExpr(gEnd, env, cur, pc, e.left);
    var b := LowerExpr(gEnd, env, a.cur, pc + CodeSize(a.ins), e.right);
    var i := Simple(OpcodeOf(e.bop), 0);
    JoinSize(a.ins, b.ins, [i]);
    ExprExtends(gEnd, env, a.cur, pc + CodeSize(a.ins), e.right);
    ExprSmall(gEnd, env, cur, pc, e.left);
    ExprSmall(gEnd, env, a.cur, pc + CodeSize(a.ins), e.right);
    OperatorSmall(e.bop);
    SmallJoin(a.ins, b.ins, [i]);
  }

  lemma OperatorSmall(op: BinaryOp)
    ensures Encodable(Simple(OpcodeOf(op), 0))
  {}

  lemma {:induction false} ShortSmall(gEnd: nat, env: Env, cur: nat, pc: nat, e: Expr)
    requires e.Binary? && (e.bop.AndAlso? || e.bop.OrElse?)
    requires var c := LowerExpr(gEnd, env, cur, pc, e); SmallEnv(env) && c.cur <= LIMIT && pc + CodeSize(c.ins) < LIMIT
    ensures Small(LowerExpr(gEnd, env, cur, pc, e).ins)
    decreases e, 0
  {
    hide LowerExpr, CodeSize, SmallEnv, Extends;
    LoweredShort(gEnd, env, cur, pc, e);
    var a := LowerExpr(gEnd, env, cur, pc, e.left);
    var t := Lower.AllocTemp(gEnd, a.cur, TBool);
    var rightPc := pc + CodeSize(a.ins) + 12;
    var b := LowerExpr(gEnd, env, t.1, rightPc, e.right);
    var skip := rightPc + CodeSize(b.ins) + 4;
    var dup := ShortCircuit(e.bop, t.0, skip);
    var tail := [Simple(Jmp, skip + 4), Simple(PushIBool, if e.bop.OrElse? then 1 else 0)];
    JoinSize(a.ins + dup, b.ins, tail);
    CodeSizeAppend(a.ins, dup);
    JoinSize([dup[0]], [dup[1]], [dup[2]]);
    assert dup == [dup[0]] + [dup[1]] + [dup[2]] && tail == [tail[0]] + [tail[1]];
    CodeSizeAppend([tail[0]], [tail[1]]);
    forall i | i in dup + tail ensures CodeSize([i]) == 4 { OneSize(i); }
    ExprExtends(gEnd, env, t.1, rightPc, e.right);
    ExprSmall(gEnd, env, cur, pc, e.left);
    ExprSmall(gEnd, env, t.1, rightPc, e.right);
    SmallAppend(a.ins, dup);
    SmallJoin(a.ins + dup, b.ins, tail);
  }

  // ----- statements -----

  /** Below the limits before and after a piece of statement code. */
  ghost predicate Below24(env: Env, pc: nat, b: Block)
  {
    SmallEnv(env) && b.cur <= LIMIT && pc + CodeSize(b.ins) < LIMIT
  }

  lemma {:induction false} StmtSmall(gEnd: nat, env: Env, cur: nat, pc: nat, s: Stmt)
    requires Below24(env, pc, LowerStmt(gEnd, env, cur, pc, s))
    ensures Small(LowerStmt(gEnd, env, cur, pc, s).ins) && SmallEnv(LowerStmt(gEnd, env, cur, pc, s).env)
    decreases s, 2
  {
    hide CodeSize, LowerExpr, Extends, LowerBranches, LowerElse, LowerArms, LowerSeq, PlanFor;
    var r := LowerStmt(gEnd, env, cur, pc, s);
    StmtExtends(gEnd, env, cur, pc, s);
    SmallGrows(gEnd, env, cur, r.env, r.cur);
    match s {
      case Empty =>
      case Return =>
      case Assign(lhs, rhs) =>
        var v := LowerExpr(gEnd, env, cur, pc, rhs);
        CodeSizeAppend(v.ins, [StoreName(env, lhs)]);
        ExprSmall(gEnd, env, cur, pc, rhs);
        StoreSmall(env, lhs);
        SmallAppend(v.ins, [StoreName(env, lhs)]);
      case If(_, _) => IfSmall(gEnd, env, cur, pc, s);
      case Case(_, _, _) => CaseSmall(gEnd, env, cur, pc, s);
      case While(_, _, _) => WhileSmall(gEnd, env, cur, pc, s);
      case For(_, _, _, _, _, _) => ForSmall(gEnd, env, cur, pc, s);
    }
  }

  lemma StoreSmall(env: Env, lhs: Expr)
    requires SmallEnv(env)
    ensures Encodable(StoreName(env, lhs))
  {}

  lemma {:induction false} IfSmall(gEnd: nat, env: Env, cur: nat, pc: nat, s: Stmt)
    requires s.If? && Below24(env, pc, LowerStmt(gEnd, env, cur, pc, s))
    ensures Small(LowerStmt(gEnd, env, cur, pc, s).ins)
    decreases s, 1
  {
    hide CodeSize, Extends, LowerBranches, LowerElse, Small, SmallEnv;
    var more := s.elseBody.Else?;
    var bs := LowerBranches(gEnd, env, cur, pc, s.branches, more, 0);
    var elsePc := pc + CodeSize(bs.ins);
    var eb := LowerElse(gEnd, bs.env, bs.cur, elsePc, s.elseBody);
    var end := elsePc + CodeSize(eb.ins);
    var final := LowerBranches(gEnd, env, cur, pc, s.branches, more, end);
    BranchesSameShape(gEnd, env, cur, pc, s.branches, more, 0, end);
    CodeSizeAppend(final.ins, eb.ins);
    ElseExtends(gEnd, bs.env, bs.cur, elsePc, s.elseBody);
    CursorOf(gEnd, bs.env, bs.cur, eb.env, eb.cur);
    BranchesExtend(gEnd, env, cur, pc, s.branches, more, 0);
    SmallGrows(gEnd, env, cur, bs.env, bs.cur);
    BranchesSmall(gEnd, env, cur, pc, s.branches, more, end);
    ElseSmall(gEnd, bs.env, bs.cur, elsePc, s.elseBody);
    SmallAppend(final.ins, eb.ins);
  }

  lemma CursorOf(gEnd: nat, env: Env, cur: nat, env': Env, cur': nat)
    requires Extends(gEnd, env, cur, env', cur')
    ensures cur <= cur'
  {}

  lemma {:induction false} ElseSmall(gEnd: nat, env: Env, cur: nat, pc: nat, els: Else)
    requires Below24(env, pc, LowerElse(gEnd, env, cur, pc, els))
    ensures Small(LowerElse(gEnd, env, cur, pc, els).ins)
    decreases els, 1
  {
    if els.Else? { SeqSmall(gEnd, env, cur, pc, els.body); }
  }

  lemma {:induction false} CaseSmall(gEnd: nat, env: Env, cur: nat, pc: nat, s: Stmt)
    requires s.Case? && Below24(env, pc, LowerStmt(gEnd, env, cur, pc, s))
    ensures Small(LowerStmt(gEnd, env, cur, pc, s).ins)
    decreases s, 1
  {
    hide CodeSize, Extends, LowerExpr, LowerArms, LowerElse, TypeExpr, Small, SmallEnv;
    var v := LowerExpr(gEnd, env, cur, pc, s.selector);
    var selTy := TypeExpr(env, s.selector);
    var t := Lower.AllocTemp(gEnd, v.cur, if selTy.Accept? then selTy.value else TDint);
    var armsPc := pc + CodeSize(v.ins) + 4;
    var bs := LowerArms(gEnd, env, t.1, armsPc, t.0, s.arms, 0);
    var elsePc := armsPc + CodeSize(bs.ins);
    var eb := LowerElse(gEnd, bs.env, bs.cur, elsePc, s.elseBody);
    var end := elsePc + CodeSize(eb.ins);
    var final := LowerArms(gEnd, env, t.1, armsPc, t.0, s.arms, end);
    var i := Simple(StData, t.0);
    ArmsSameShape(gEnd, env, t.1, armsPc, t.0, s.arms, 0, end);
    JoinSize(v.ins + [i], final.ins, eb.ins);
    CodeSizeAppend(v.ins, [i]);
    OneSize(i);
    ArmsExtend(gEnd, env, t.1, armsPc, t.0, s.arms, 0);
    CursorOf(gEnd, env, t.1, bs.env, bs.cur);
    ElseExtends(gEnd, bs.env, bs.cur, elsePc, s.elseBody);
    CursorOf(gEnd, bs.env, bs.cur, eb.env, eb.cur);
    SmallGrows(gEnd, env, t.1, bs.env, bs.cur);
    ExprSmall(gEnd, env, cur, pc, s.selector);
    ArmsSmall(gEnd, env, t.1, armsPc, t.0, s.arms, end);
    ElseSmall(gEnd, bs.env, bs.cur, elsePc, s.elseBody);
    OneSmall(i);
    SmallAppend(v.ins, [i]);
    SmallJoin(v.ins + [i], final.ins, eb.ins);
  }

  lemma OneSmall(i: Instr)
    requires Encodable(i)
    ensures Small([i])
  {}

  lemma {:induction false} WhileSmall(gEnd: nat, env: Env, cur: nat, pc: nat, s: Stmt)
    requires s.While? && Below24(env, pc, LowerStmt(gEnd, env, cur, pc, s))
    ensures Small(LowerStmt(gEnd, env, cur, pc, s).ins)
    decreases s, 1
  {
    hide CodeSize, Extends, LowerExpr, LowerSeq, LowerStmt, SmallEnv, StartCounter, CounterTest, CountDown, Encodable, Small;
    WhileUnfolds(gEnd, env, cur, pc, s);
    var t := Lower.AllocTemp(gEnd, cur, TDint);
    var c := LowerExpr(gEnd, env, t.1, pc + 32, s.cond);
    var bodyPc := pc + 36 + CodeSize(c.ins);
    var b := LowerSeq(gEnd, env, c.cur, bodyPc, s.body);
    var end := bodyPc + CodeSize(b.ins) + 24;
    var cap := if s.maxIter.Some? then s.maxIter.value else 0;
    var start, test, down := StartCounter(cap, t.0), CounterTest(t.0, end), CountDown(t.0, pc + 12);
    var j := Simple(JmpIfNot, end);
    GroupSizes(cap, t.0, pc + 12, end);
    OneSize(j);
    JoinSize(start + test + c.ins + [j], b.ins, down);
    JoinSize(start + test, c.ins, [j]);
    CodeSizeAppend(start, test);
    ExprExtends(gEnd, env, t.1, pc + 32, s.cond);
    SeqExtends(gEnd, env, c.cur, bodyPc, s.body);
    CursorOf(gEnd, env, c.cur, b.env, b.cur);
    ExprSmall(gEnd, env, t.1, pc + 32, s.cond);
    SeqSmall(gEnd, env, c.cur, bodyPc, s.body);
    CountersSmall(cap, t.0, pc + 12, end);
    SmallJoin(start, test, c.ins);
    SmallJoin(start + test + c.ins, [j], b.ins);
    SmallAppend(start + test + c.ins + [j] + b.ins, down);
  }

  lemma CountersSmall(cap: nat, counter: nat, head: nat, end: nat)
    requires counter < LIMIT && head < LIMIT && end < LIMIT
    ensures Small(StartCounter(cap, counter)) && Small(CounterTest(counter, end)) && Small([Simple(JmpIfNot, end)])
    ensures Small(CountDown(counter, head))
  {}

  lemma {:induction false} ForSmall(gEnd: nat, env: Env, cur: nat, pc: nat, s: Stmt)
    requires s.For? && Below24(env, pc, LowerStmt(gEnd, env, cur, pc, s))
    ensures Small(LowerStmt(gEnd, env, cur, pc, s).ins)
    decreases s, 1
  {
    hide CodeSize, Extends, LowerSeq, PlanFor, SmallEnv, ForPlan.Setup, Encodable;
    var p := PlanFor(gEnd, env, cur, pc, s.v, s.first, s.last, s.step);
    var b := LowerSeq(gEnd, p.env, p.cur, p.head + 36, s.body);
    var cap := ForCap(s.first, s.last, s.step, s.maxIter);
    var k := if cap.Accept? then cap.value else 0;
    var end := p.head + 36 + CodeSize(b.ins) + 40;
    var start, test, limit := StartCounter(k, p.counter), CounterTest(p.counter, end), LimitTest(p.varOff, p.limit, end);
    var adv, down := Advance(p.varOff, p.inc), CountDown(p.counter, p.head);
    assert LowerStmt(gEnd, env, cur, pc, s).ins == p.Setup() + start + test + limit + b.ins + adv + down;
    GroupSizes(k, p.counter, p.head, end);
    ForGroupSizes(p.varOff, p.limit, p.inc, end);
    JoinSize(p.Setup() + start + test + limit + b.ins, adv, down);
    JoinSize(p.Setup() + start + test, limit, b.ins);
    JoinSize(p.Setup(), start, test);
    PlanForExtends(gEnd, env, cur, pc, s.v, s.first, s.last, s.step);
    SeqExtends(gEnd, p.env, p.cur, p.head + 36, s.body);
    CursorOf(gEnd, p.env, p.cur, b.env, b.cur);
    SmallGrows(gEnd, env, cur, p.env, p.cur);
    PlanSmall(gEnd, env, cur, pc, s);
    SeqSmall(gEnd, p.env, p.cur, p.head + 36, s.body);
    GroupsSmall(k, p.counter, p.head, end, p.varOff, p.limit, p.inc);
    SmallJoin(p.Setup(), start, test);
    SmallJoin(p.Setup() + start + test, limit, b.ins);
    SmallJoin(p.Setup() + start + test + limit + b.ins, adv, down);
  }

  lemma GroupsSmall(cap: nat, counter: nat, head: nat, end: nat, varOff: nat, limit: nat, inc: nat)
    requires counter < LIMIT && head < LIMIT && end < LIMIT && varOff < LIMIT && limit < LIMIT && inc < LIMIT
    ensures Small(StartCounter(cap, counter)) && Small(CounterTest(counter, end)) && Small(CountDown(counter, head))
    ensures Small(LimitTest(varOff, limit, end)) && Small(Advance(varOff, inc))
  {}

  lemma {:induction false} PlanSmall(gEnd: nat, env: Env, cur: nat, pc: nat, s: Stmt)
    requires s.For?
    requires var p := PlanFor(gEnd, env, cur, pc, s.v, s.first, s.last, s.step);
             SmallEnv(env) && p.cur <= LIMIT && pc + CodeSize(p.Setup()) < LIMIT
    ensures var p := PlanFor(gEnd, env, cur, pc, s.v, s.first, s.last, s.step);
            && Small(p.Setup()) && p.head == pc + CodeSize(p.Setup()) + 12
            && p.counter < LIMIT && p.varOff < LIMIT && p.limit < LIMIT && p.inc < LIMIT
    decreases s, 0
  {
    hide CodeSize, LowerExpr, Extends, Lower.AllocTemp;
    var p := PlanFor(gEnd, env, cur, pc, s.v, s.first, s.last, s.step);
    var d := DeclareLoopVar(gEnd, env, cur, s.v);
    var lastPc := pc + CodeSize(p.first.ins) + 4;
    var stepPc := lastPc + CodeSize(p.last.ins) + 4;
    var one := Literal(IntLit(1));
    var e := if s.step.Some? then s.step.value else one;
    var x, y, z := Simple(StData, p.varOff), Simple(StData, p.limit), Simple(StData, p.inc);
    OmittedStep(gEnd, d.1, p.inc + 4, stepPc, s.step);
    ExprExtends(gEnd, d.1, d.0, pc, s.first);
    ExprExtends(gEnd, d.1, p.limit + 4, lastPc, s.last);
    ExprExtends(gEnd, d.1, p.inc + 4, stepPc, e);
    LoopVarExtends(gEnd, env, cur, s.v);
    SmallGrows(gEnd, env, cur, d.1, d.0);
    JoinSize(p.first.ins + [x] + p.last.ins + [y], p.step.ins, [z]);
    JoinSize(p.first.ins + [x], p.last.ins, [y]);
    CodeSizeAppend(p.first.ins, [x]);
    OneSize(x);
    OneSize(y);
    OneSize(z);
    ExprSmall(gEnd, d.1, d.0, pc, s.first);
    ExprSmall(gEnd, d.1, p.limit + 4, lastPc, s.last);
    assert p.step == LowerExpr(gEnd, d.1, p.inc + 4, stepPc, e);
    StepSmall(gEnd, d.1, p.inc + 4, stepPc, s.step);
  }

  lemma {:induction false} StepSmall(gEnd: nat, env: Env, cur: nat, pc: nat, step: Option<Expr>)
    requires var c := LowerStep(gEnd, env, cur, pc, step); SmallEnv(env) && c.cur <= LIMIT && pc + CodeSize(c.ins) < LIMIT
    ensures Small(LowerStep(gEnd, env, cur, pc, step).ins)
  {
    if step.Some? { ExprSmall(gEnd, env, cur, pc, step.value); }
  }

  lemma {:induction false} SeqSmall(gEnd: nat, env: Env, cur: nat, pc: nat, ss: seq<Stmt>)
    requires Below24(env, pc, LowerSeq(gEnd, env, cur, pc, ss))
    ensures Small(LowerSeq(gEnd, env, cur, pc, ss).ins)
    decreases ss, 1
  {
    hide CodeSize, LowerStmt, Extends, SmallEnv, Encodable;
    if ss != [] {
      var a := LowerStmt(gEnd, env, cur, pc, ss[0]);
      var rest := LowerSeq(gEnd, a.env, a.cur, pc + CodeSize(a.ins), ss[1..]);
      CodeSizeAppend(a.ins, rest.ins);
      SeqExtends(gEnd, a.env, a.cur, pc + CodeSize(a.ins), ss[1..]);
      CursorOf(gEnd, a.env, a.cur, rest.env, rest.cur);
      StmtSmall(gEnd, env, cur, pc, ss[0]);
      SeqSmall(gEnd, a.env, a.cur, pc + CodeSize(a.ins), ss[1..]);
    }
  }

  lemma {:induction false} BranchesSmall(gEnd: nat, env: Env, cur: nat, pc: nat, bs: seq<Branch>, more: bool, end: nat)
    requires Below24(env, pc, LowerBranches(gEnd, env, cur, pc, bs, more, end)) && end < LIMIT
    ensures Small(LowerBranches(gEnd, env, cur, pc, bs, more, end).ins)
    decreases bs, 1
  {
    hide CodeSize, LowerBranches, LowerBranch, Extends, SmallEnv, Encodable;
    if bs == [] {
      BranchesEnd(gEnd, env, cur, pc, bs, more, end);
    } else {
      BranchesUnfold(gEnd, env, cur, pc, bs, more, end);
      var a := LowerBranch(gEnd, env, cur, pc, bs[0], |bs| > 1 || more, end);
      var rest := LowerBranches(gEnd, a.env, a.cur, pc + CodeSize(a.ins), bs[1..], more, end);
      CodeSizeAppend(a.ins, rest.ins);
      BranchesExtend(gEnd, a.env, a.cur, pc + CodeSize(a.ins), bs[1..], more, end);
      CursorOf(gEnd, a.env, a.cur, rest.env, rest.cur);
      BranchSmall(gEnd, env, cur, pc, bs[0], |bs| > 1 || more, end);
      BranchesSmall(gEnd, a.env, a.cur, pc + CodeSize(a.ins), bs[1..], more, end);
    }
  }

  lemma {:induction false} BranchSmall(gEnd: nat, env: Env, cur: nat, pc: nat, br: Branch, leave: bool, end: nat)
    requires Below24(env, pc, LowerBranch(gEnd, env, cur, pc, br, leave, end)) && end < LIMIT
    ensures var a := LowerBranch(gEnd, env, cur, pc, br, leave, end); Small(a.ins) && SmallEnv(a.env)
    decreases br, 0
  {
    hide CodeSize, LowerExpr, LowerSeq, Extends, SmallEnv;
    var c := LowerExpr(gEnd, env, cur, pc, br.cond);
    var bodyPc := pc + CodeSize(c.ins) + 4;
    var b := LowerSeq(gEnd, env, c.cur, bodyPc, br.body);
    var tail := Leave(leave, end);
    var j := Simple(JmpIfNot, bodyPc + CodeSize(b.ins) + CodeSize(tail));
    CodeSizeAppend(c.ins + [j] + b.ins, tail);
    JoinSize(c.ins, [j], b.ins);
    OneSize(j);
    SeqExtends(gEnd, env, c.cur, bodyPc, br.body);
    CursorOf(gEnd, env, c.cur, b.env, b.cur);
    SmallGrows(gEnd, env, c.cur, b.env, b.cur);
    ExprSmall(gEnd, env, cur, pc, br.cond);
    SeqSmall(gEnd, env, c.cur, bodyPc, br.body);
    SmallJoin(c.ins, [j], b.ins);
    SmallAppend(c.ins + [j] + b.ins, tail);
  }

  lemma {:induction false} ArmsSmall(gEnd: nat, env: Env, cur: nat, pc: nat, tmp: nat, arms: seq<Arm>, end: nat)
    requires Below24(env, pc, LowerArms(gEnd, env, cur, pc, tmp, arms, end)) && end < LIMIT && tmp < LIMIT
    ensures Small(LowerArms(gEnd, env, cur, pc, tmp, arms, end).ins)
    decreases arms, 1
  {
    hide CodeSize, LowerArms, LowerArm, Extends, SmallEnv, Encodable;
    if arms == [] {
      ArmsEnd(gEnd, env, cur, pc, tmp, arms, end);
    } else {
      ArmsUnfold(gEnd, env, cur, pc, tmp, arms, end);
      var a := LowerArm(gEnd, env, cur, pc, tmp, arms[0], end);
      var rest := LowerArms(gEnd, a.env, a.cur, pc + CodeSize(a.ins), tmp, arms[1..], end);
      CodeSizeAppend(a.ins, rest.ins);
      ArmsExtend(gEnd, a.env, a.cur, pc + CodeSize(a.ins), tmp, arms[1..], end);
      CursorOf(gEnd, a.env, a.cur, rest.env, rest.cur);
      ArmSmall(gEnd, env, cur, pc, tmp, arms[0], end);
      ArmsSmall(gEnd, a.env, a.cur, pc + CodeSize(a.ins), tmp, arms[1..], end);
    }
  }

  lemma {:induction false} ArmSmall(gEnd: nat, env: Env, cur: nat, pc: nat, tmp: nat, arm: Arm, end: nat)
    requires Below24(env, pc, LowerArm(gEnd, env, cur, pc, tmp, arm, end)) && end < LIMIT && tmp < LIMIT
    ensures var a := LowerArm(gEnd, env, cur, pc, tmp, arm, end); Small(a.ins) && SmallEnv(a.env)
    decreases arm, 0
  {
    hide CodeSize, LowerSeq, Extends, SmallEnv, LabelTests;
    var bodyPc := pc + 20 * |arm.labels|;
    var b := LowerSeq(gEnd, env, cur, bodyPc, arm.body);
    var next := bodyPc + CodeSize(b.ins) + 4;
    var tests := LabelTests(tmp, arm.labels, bodyPc, next);
    TestsSize(tmp, arm.labels, bodyPc, next);
    JoinSize(tests, b.ins, [Simple(Jmp, end)]);
    OneSize(Simple(Jmp, end));
    SeqExtends(gEnd, env, cur, bodyPc, arm.body);
    SmallGrows(gEnd, env, cur, b.env, b.cur);
    SeqSmall(gEnd, env, cur, bodyPc, arm.body);
    TestsSmall(tmp, arm.labels, bodyPc, next);
    SmallJoin(tests, b.ins, [Simple(Jmp, end)]);
  }

  lemma {:induction false} TestsSmall(tmp: nat, labels: seq<int>, body: nat, next: nat)
    requires tmp < LIMIT && body < LIMIT && next < LIMIT
    ensures Small(LabelTests(tmp, labels, body, next))
  {
    if labels != [] { TestsSmall(tmp, labels[1..], body, next); }
  }

  // ----- bytes -----

  /** Encoded instructions decode to themselves, wherever the bytes stand. */
  lemma {:induction false} EncodedCodeAt(code: seq<byte>, pc: nat, ins: seq<Instr>)
    requires Small(ins) && pc + |EncodeAll(ins)| <= |code|
    requires code[pc..pc + |EncodeAll(ins)|] == EncodeAll(ins)
    ensures CodeAt(code, pc, ins)
    decreases ins
  {
    hide Encodable, Encode, Decode;
    if ins != [] {
      var i, rest := ins[0], ins[1..];
      var n := |EncodeAll(ins)|;
      assert ins == [i] + rest;
      EncodeAllAppend([i], rest);
      assert EncodeAll([i]) == Encode(i);
      SubSlice(code, pc, pc + n, 0, Size(i));
      SubSlice(code, pc, pc + n, Size(i), n);
      DecodeOfEncode(code, pc, i);
      EncodedCodeAt(code, pc + Size(i), rest);
    }
  }
}
