/** The defining equations of the reference code and its checker, one lemma each, so that
    proofs can use them without unfolding whole definitions. */
module Unfold {
  import opened Ir
  import opened Vm
  import opened St
  import opened Lower
  import opened Sizes
  import opened Check

  lemma TypedPlain(env: Env, e: Expr)
    requires e.Binary? && !e.bop.AndAlso? && !e.bop.OrElse?
    ensures var lt, rt := TypeExpr(env, e.left), TypeExpr(env, e.right);
            TypeExpr(env, e)
            == if lt.Reject? then lt
               else if rt.Reject? then rt
               else if e.bop.Modulo? then Reject(EExcluded)
               else if !e.bop.ExclOr? && lt.value != rt.value then Reject(EType)
               else if IsComparison(e.bop) then Accept(TBool) else lt
  {}

  lemma TypedShort(env: Env, e: Expr)
    requires e.Binary? && (e.bop.AndAlso? || e.bop.OrElse?)
    ensures var lt, rt := TypeExpr(env, e.left), TypeExpr(env, e.right);
            TypeExpr(env, e)
            == if lt.Reject? then lt
               else if lt.value != TBool then Reject(EType)
               else if rt.Reject? then rt else Accept(TBool)
  {}

  lemma LoweredPlain(gEnd: nat, env: Env, cur: nat, pc: nat, e: Expr)
    requires e.Binary? && !e.bop.AndAlso? && !e.bop.OrElse?
    ensures var a := LowerExpr(gEnd, env, cur, pc, e.left);
            var b := LowerExpr(gEnd, env, a.cur, pc + CodeSize(a.ins), e.right);
            LowerExpr(gEnd, env, cur, pc, e) == Code(a.ins + b.ins + [Simple(OpcodeOf(e.bop), 0)], b.cur)
  {}

  lemma LoweredShort(gEnd: nat, env: Env, cur: nat, pc: nat, e: Expr)
    requires e.Binary? && (e.bop.AndAlso? || e.bop.OrElse?)
    ensures var a := LowerExpr(gEnd, env, cur, pc, e.left);
            var t := AllocTemp(gEnd, a.cur, TBool);
            var rightPc := pc + CodeSize(a.ins) + 12;
            var b := LowerExpr(gEnd, env, t.1, rightPc, e.right);
            var skip := rightPc + CodeSize(b.ins) + 4;
            LowerExpr(gEnd, env, cur, pc, e)
            == Code(a.ins + ShortCircuit(e.bop, t.0, skip) + b.ins
                    + [Simple(Jmp, skip + 4), Simple(PushIBool, if e.bop.OrElse? then 1 else 0)], b.cur)
  {}

  function CheckBranch(gEnd: nat, env: Env, cur: nat, pc: nat, br: Branch): Checked<()>
  {
    var t := TypeExpr(env, br.cond);
    if t.Reject? then Reject(t.code)
    else if t.value != TBool then Reject(EType)
    else
      var c := LowerExpr(gEnd, env, cur, pc, br.cond);
      CheckSeq(gEnd, env, c.cur, pc + CodeSize(c.ins) + 4, br.body)
  }

  function LowerBranch(gEnd: nat, env: Env, cur: nat, pc: nat, br: Branch, leave: bool, end: nat): Block
  {
    var c := LowerExpr(gEnd, env, cur, pc, br.cond);
    var bodyPc := pc + CodeSize(c.ins) + 4;
    var b := LowerSeq(gEnd, env, c.cur, bodyPc, br.body);
    var tail := Leave(leave, end);
    Block(c.ins + [Simple(JmpIfNot, bodyPc + CodeSize(b.ins) + CodeSize(tail))] + b.ins + tail, b.cur, b.env)
  }

  function LowerArm(gEnd: nat, env: Env, cur: nat, pc: nat, tmp: nat, arm: Arm, end: nat): Block
  {
    var bodyPc := pc + 20 * |arm.labels|;
    var b := LowerSeq(gEnd, env, cur, bodyPc, arm.body);
    Block(LabelTests(tmp, arm.labels, bodyPc, bodyPc + CodeSize(b.ins) + 4) + b.ins + [Simple(Jmp, end)], b.cur, b.env)
  }

  function ForCodeOf(p: ForPlan, cap: nat, b: Block, end: nat): seq<Instr>
  {
    p.Setup() + StartCounter(cap, p.counter) + CounterTest(p.counter, end) + LimitTest(p.varOff, p.limit, end)
    + b.ins + Advance(p.varOff, p.inc) + CountDown(p.counter, p.head)
  }

  lemma SeqUnfolds(gEnd: nat, env: Env, cur: nat, pc: nat, ss: seq<Stmt>)
    requires ss != []
    ensures var a := LowerStmt(gEnd, env, cur, pc, ss[0]);
            var b := LowerSeq(gEnd, a.env, a.cur, pc + CodeSize(a.ins), ss[1..]);
            && LowerSeq(gEnd, env, cur, pc, ss) == Block(a.ins + b.ins, b.cur, b.env)
            && var c := CheckStmt(gEnd, env, cur, pc, ss[0]);
            CheckSeq(gEnd, env, cur, pc, ss)
            == if c.Reject? then c else CheckSeq(gEnd, a.env, a.cur, pc + CodeSize(a.ins), ss[1..])
  {
    hide LowerStmt, CheckStmt, CodeSize;
  }

  lemma SeqEnds(gEnd: nat, env: Env, cur: nat, pc: nat, ss: seq<Stmt>)
    requires ss == []
    ensures LowerSeq(gEnd, env, cur, pc, ss) == Block([], cur, env) && CheckSeq(gEnd, env, cur, pc, ss) == Accept(())
  {}

  lemma BranchSize(gEnd: nat, env: Env, cur: nat, pc: nat, br: Branch, leave: bool, end: nat)
    ensures var c := LowerExpr(gEnd, env, cur, pc, br.cond);
            var b := LowerSeq(gEnd, env, c.cur, pc + CodeSize(c.ins) + 4, br.body);
            CodeSize(LowerBranch(gEnd, env, cur, pc, br, leave, end).ins)
            == CodeSize(c.ins) + 4 + CodeSize(b.ins) + CodeSize(Leave(leave, end))
  {
    hide LowerExpr, LowerSeq, CodeSize, Leave;
    var c := LowerExpr(gEnd, env, cur, pc, br.cond);
    var bodyPc := pc + CodeSize(c.ins) + 4;
    var b := LowerSeq(gEnd, env, c.cur, bodyPc, br.body);
    var tail := Leave(leave, end);
    var j := Simple(JmpIfNot, bodyPc + CodeSize(b.ins) + CodeSize(tail));
    JoinSize(c.ins, [j], b.ins);
    OneSize(j);
    CodeSizeAppend(c.ins + [j] + b.ins, tail);
  }

  lemma BranchesUnfold(gEnd: nat, env: Env, cur: nat, pc: nat, bs: seq<Branch>, more: bool, end: nat)
    requires bs != []
    ensures var a := LowerBranch(gEnd, env, cur, pc, bs[0], |bs| > 1 || more, end);
            var b := LowerBranches(gEnd, a.env, a.cur, pc + CodeSize(a.ins), bs[1..], more, end);
            && LowerBranches(gEnd, env, cur, pc, bs, more, end) == Block(a.ins + b.ins, b.cur, b.env)
            && var c := CheckBranch(gEnd, env, cur, pc, bs[0]);
            CheckBranches(gEnd, env, cur, pc, bs, more)
            == if c.Reject? then c else CheckBranches(gEnd, a.env, a.cur, pc + CodeSize(a.ins), bs[1..], more)
  {
    hide LowerExpr, LowerSeq, CheckSeq, TypeExpr, CodeSize, Leave;
    BranchSize(gEnd, env, cur, pc, bs[0], |bs| > 1 || more, end);
  }

  lemma BranchesEnd(gEnd: nat, env: Env, cur: nat, pc: nat, bs: seq<Branch>, more: bool, end: nat)
    requires bs == []
    ensures LowerBranches(gEnd, env, cur, pc, bs, more, end) == Block([], cur, env)
    ensures CheckBranches(gEnd, env, cur, pc, bs, more) == Accept(())
  {}

  lemma ArmsUnfold(gEnd: nat, env: Env, cur: nat, pc: nat, tmp: nat, arms: seq<Arm>, end: nat)
    requires arms != []
    ensures var a := LowerArm(gEnd, env, cur, pc, tmp, arms[0], end);
            var b := LowerArms(gEnd, a.env, a.cur, pc + CodeSize(a.ins), tmp, arms[1..], end);
            && LowerArms(gEnd, env, cur, pc, tmp, arms, end) == Block(a.ins + b.ins, b.cur, b.env)
            && var c := CheckSeq(gEnd, env, cur, pc + 20 * |arms[0].labels|, arms[0].body);
            CheckArms(gEnd, env, cur, pc, tmp, arms)
            == if c.Reject? then c else CheckArms(gEnd, a.env, a.cur, pc + CodeSize(a.ins), tmp, arms[1..])
  {
    hide LowerSeq, CheckSeq, CodeSize, LabelTests;
    var bodyPc := pc + 20 * |arms[0].labels|;
    var b := LowerSeq(gEnd, env, cur, bodyPc, arms[0].body);
    var next := bodyPc + CodeSize(b.ins) + 4;
    var tests := LabelTests(tmp, arms[0].labels, bodyPc, next);
    TestsSize(tmp, arms[0].labels, bodyPc, next);
    CodeSizeAppend(tests + b.ins, [Simple(Jmp, end)]);
    CodeSizeAppend(tests, b.ins);
    OneSize(Simple(Jmp, end));
  }

  lemma ArmsEnd(gEnd: nat, env: Env, cur: nat, pc: nat, tmp: nat, arms: seq<Arm>, end: nat)
    requires arms == []
    ensures LowerArms(gEnd, env, cur, pc, tmp, arms, end) == Block([], cur, env)
    ensures CheckArms(gEnd, env, cur, pc, tmp, arms) == Accept(())
  {}

  lemma TestsUnfold(tmp: nat, values: seq<int>, body: nat, next: nat)
    requires values != []
    ensures LabelTests(tmp, values, body, next)
         == [Simple(LdData, tmp), WithImm32(PushIDint, 0, values[0] % 0x1_0000_0000), Simple(Eq, 0),
             if |values| == 1 then Simple(JmpIfNot, next) else Simple(JmpIf, body)]
            + LabelTests(tmp, values[1..], body, next)
  {}

  lemma TestsEnd(tmp: nat, values: seq<int>, body: nat, next: nat)
    requires values == []
    ensures LabelTests(tmp, values, body, next) == []
  {}

  lemma PlanScope(gEnd: nat, env: Env, cur: nat, pc: nat, s: Stmt)
    requires s.For?
    ensures var p := PlanFor(gEnd, env, cur, pc, s.v, s.first, s.last, s.step);
            p.env == DeclareLoopVar(gEnd, env, cur, s.v).1 && p.varOff == LoopVarOffset(p.env, s.v)
  {
    hide LowerExpr;
  }

  lemma ForUnfolds(gEnd: nat, env: Env, cur: nat, pc: nat, s: Stmt)
    requires s.For?
    ensures var p := PlanFor(gEnd, env, cur, pc, s.v, s.first, s.last, s.step);
            var b := LowerSeq(gEnd, p.env, p.cur, p.head + 36, s.body);
            var cap := ForCap(s.first, s.last, s.step, s.maxIter);
            && (cap.Accept? ==>
                  LowerStmt(gEnd, env, cur, pc, s)
                  == Block(ForCodeOf(p, cap.value, b, p.head + 36 + CodeSize(b.ins) + 40), b.cur, b.env))
            && var t, u := TypeExpr(p.env, s.first), TypeExpr(p.env, s.last);
            var v := if s.step.Some? then TypeExpr(p.env, s.step.value) else Accept(TDint);
            CheckStmt(gEnd, env, cur, pc, s)
            == if cap.Reject? then Reject(cap.code)
               else if s.v in env && !env[s.v].Data? then Reject(EType)
               else if t.Reject? then Reject(t.code)
               else if u.Reject? then Reject(u.code)
               else if v.Reject? then Reject(v.code)
               else CheckSeq(gEnd, p.env, p.cur, p.head + 36, s.body)
  {
    hide LowerExpr, LowerSeq, CheckSeq, TypeExpr, CodeSize, PlanFor, ForCap;
  }

  /** An omitted step is the literal 1. */
  lemma OmittedStep(gEnd: nat, env: Env, cur: nat, pc: nat, step: Option<Expr>)
    ensures var e := if step.Some? then step.value else Literal(IntLit(1));
            && TypeExpr(env, e) == (if step.Some? then TypeExpr(env, step.value) else Accept(TDint))
            && LowerStep(gEnd, env, cur, pc, step) == LowerExpr(gEnd, env, cur, pc, e)
  {}

  lemma IfUnfolds(gEnd: nat, env: Env, cur: nat, pc: nat, s: Stmt)
    requires s.If?
    ensures var more := s.elseBody.Else?;
            var bs := LowerBranches(gEnd, env, cur, pc, s.branches, more, 0);
            var elsePc := pc + CodeSize(bs.ins);
            var eb := LowerElse(gEnd, bs.env, bs.cur, elsePc, s.elseBody);
            var final := LowerBranches(gEnd, env, cur, pc, s.branches, more, elsePc + CodeSize(eb.ins));
            && LowerStmt(gEnd, env, cur, pc, s) == Block(final.ins + eb.ins, eb.cur, eb.env)
            && var c := CheckBranches(gEnd, env, cur, pc, s.branches, more);
            CheckStmt(gEnd, env, cur, pc, s) == if c.Reject? then c else CheckElse(gEnd, bs.env, bs.cur, elsePc, s.elseBody)
  {
    hide LowerBranches, LowerElse, CheckBranches, CheckElse, CodeSize;
  }

  lemma CaseUnfolds(gEnd: nat, env: Env, cur: nat, pc: nat, s: Stmt)
    requires s.Case?
    ensures var t := TypeExpr(env, s.selector);
            var v := LowerExpr(gEnd, env, cur, pc, s.selector);
            var tmp := AllocTemp(gEnd, v.cur, if t.Accept? then t.value else TDint);
            var armsPc := pc + CodeSize(v.ins) + 4;
            var bs := LowerArms(gEnd, env, tmp.1, armsPc, tmp.0, s.arms, 0);
            var elsePc := armsPc + CodeSize(bs.ins);
            var eb := LowerElse(gEnd, bs.env, bs.cur, elsePc, s.elseBody);
            var final := LowerArms(gEnd, env, tmp.1, armsPc, tmp.0, s.arms, elsePc + CodeSize(eb.ins));
            && LowerStmt(gEnd, env, cur, pc, s) == Block(v.ins + [Simple(StData, tmp.0)] + final.ins + eb.ins, eb.cur, eb.env)
            && var c := CheckArms(gEnd, env, tmp.1, armsPc, tmp.0, s.arms);
            CheckStmt(gEnd, env, cur, pc, s)
            == if t.Reject? then Reject(t.code)
               else if !t.value.TInt? && !t.value.TDint? then Reject(EType)
               else if c.Reject? then c
               else CheckElse(gEnd, bs.env, bs.cur, elsePc, s.elseBody)
  {
    hide LowerExpr, TypeExpr, AllocTemp, LowerArms, LowerElse, CheckArms, CheckElse, CodeSize;
  }

  lemma WhileUnfolds(gEnd: nat, env: Env, cur: nat, pc: nat, s: Stmt)
    requires s.While?
    ensures var tmp := AllocTemp(gEnd, cur, TDint);
            var c := LowerExpr(gEnd, env, tmp.1, pc + 32, s.cond);
            var bodyPc := pc + 36 + CodeSize(c.ins);
            var b := LowerSeq(gEnd, env, c.cur, bodyPc, s.body);
            var end := bodyPc + CodeSize(b.ins) + 24;
            && LowerStmt(gEnd, env, cur, pc, s)
               == Block(StartCounter(if s.maxIter.Some? then s.maxIter.value else 0, tmp.0)
                        + CounterTest(tmp.0, end) + c.ins + [Simple(JmpIfNot, end)]
                        + b.ins + CountDown(tmp.0, pc + 12), b.cur, b.env)
            && var t := TypeExpr(env, s.cond);
            CheckStmt(gEnd, env, cur, pc, s)
            == if s.maxIter.None? then Reject(EUnboundedLoop)
               else if t.Reject? then Reject(t.code)
               else if t.value != TBool then Reject(EType)
               else CheckSeq(gEnd, env, c.cur, bodyPc, s.body)
  {
    hide LowerExpr, TypeExpr, AllocTemp, LowerSeq, CheckSeq, CodeSize, StartCounter, CounterTest, CountDown;
  }
}
