/** Where code generation puts things: scratch slots and implicitly declared loop
    variables never overlap a declared variable or one another. */
module Scope {
  import opened Ir
  import opened Vm
  import opened St
  import opened Lower
  import opened Sizes

  ghost predicate InData(env: Env, x: string) { x in env && env[x].Data? }

  function DataEnd(st: Storage): nat
    requires st.Data?
  {
    st.offset + ByteWidth(st.ty)
  }

  /** Every data variable ends at or below the frontier. */
  ghost predicate Below(gEnd: nat, env: Env, cur: nat)
  {
    forall x :: InData(env, x) ==> DataEnd(env[x]) <= Frontier(gEnd, cur)
  }

  ghost predicate DataDisjoint(env: Env)
  {
    forall x, y :: InData(env, x) && InData(env, y) && x != y ==>
      DataEnd(env[x]) <= env[y].offset || DataEnd(env[y]) <= env[x].offset
  }

  ghost predicate Scoped(gEnd: nat, env: Env, cur: nat)
  {
    Below(gEnd, env, cur) && DataDisjoint(env)
  }

  /** Names are only added, and only above the old frontier. */
  ghost predicate Grows(gEnd: nat, env: Env, cur: nat, env': Env, cur': nat)
  {
    && cur <= cur'
    && (forall x :: x in env ==> x in env' && env'[x] == env[x])
    && (forall x :: x in env' && x !in env ==>
          env'[x].Data? && Frontier(gEnd, cur) <= env'[x].offset && DataEnd(env'[x]) <= cur')
  }

  /** The scope after a piece of code, given the scope before it. */
  ghost predicate Extends(gEnd: nat, env: Env, cur: nat, env': Env, cur': nat)
  {
    Grows(gEnd, env, cur, env', cur') && (Scoped(gEnd, env, cur) ==> Scoped(gEnd, env', cur'))
  }

  lemma ExtendsTrans(gEnd: nat, e0: Env, c0: nat, e1: Env, c1: nat, e2: Env, c2: nat)
    requires Extends(gEnd, e0, c0, e1, c1) && Extends(gEnd, e1, c1, e2, c2)
    ensures Extends(gEnd, e0, c0, e2, c2)
  {}

  lemma CursorMoves(gEnd: nat, env: Env, cur: nat, cur': nat)
    requires cur <= cur'
    ensures Extends(gEnd, env, cur, env, cur')
  {}

  lemma {:induction false} ExprExtends(gEnd: nat, env: Env, cur: nat, pc: nat, e: Expr)
    ensures cur <= LowerExpr(gEnd, env, cur, pc, e).cur
    ensures Extends(gEnd, env, cur, env, LowerExpr(gEnd, env, cur, pc, e).cur)
    decreases e
  {
    match e {
      case Unary(op, arg) => ExprExtends(gEnd, env, cur, pc, arg);
      case Binary(op, left, right) =>
        var a := LowerExpr(gEnd, env, cur, pc, left);
        ExprExtends(gEnd, env, cur, pc, left);
        if op.AndAlso? || op.OrElse? {
          var t := AllocTemp(gEnd, a.cur, TBool);
          ExprExtends(gEnd, env, t.1, pc + CodeSize(a.ins) + 12, right);
        } else {
          ExprExtends(gEnd, env, a.cur, pc + CodeSize(a.ins), right);
        }
      case _ =>
    }
  }

  /** An undeclared FOR variable is placed above everything else. */
  lemma LoopVarExtends(gEnd: nat, env: Env, cur: nat, x: string)
    ensures var d := DeclareLoopVar(gEnd, env, cur, x); Extends(gEnd, env, cur, d.1, d.0)
  {
    hide AllocTemp;
  }

  lemma {:induction false} StmtExtends(gEnd: nat, env: Env, cur: nat, pc: nat, s: Stmt)
    ensures var r := LowerStmt(gEnd, env, cur, pc, s); Extends(gEnd, env, cur, r.env, r.cur)
    decreases s, 0, 1
  {
    match s {
      case Empty =>
      case Return =>
      case Assign(lhs, rhs) => ExprExtends(gEnd, env, cur, pc, rhs);
      case If(branches, els) => IfExtends(gEnd, env, cur, pc, branches, els);
      case Case(selector, arms, els) => CaseExtends(gEnd, env, cur, pc, selector, arms, els);
      case While(cond, maxIter, body) => WhileExtends(gEnd, env, cur, pc, s);
      case For(x, first, last, step, maxIter, body) => ForExtends(gEnd, env, cur, pc, s);
    }
  }

  lemma {:induction false} IfExtends(gEnd: nat, env: Env, cur: nat, pc: nat, branches: seq<Branch>, els: Else)
    ensures var r := LowerStmt(gEnd, env, cur, pc, If(branches, els)); Extends(gEnd, env, cur, r.env, r.cur)
    decreases If(branches, els), 0, 0
  {
    hide Extends, LowerBranches, LowerElse;
    var bs := LowerBranches(gEnd, env, cur, pc, branches, els.Else?, 0);
    var elsePc := pc + CodeSize(bs.ins);
    var eb := LowerElse(gEnd, bs.env, bs.cur, elsePc, els);
    BranchesExtend(gEnd, env, cur, pc, branches, els.Else?, 0);
    ElseExtends(gEnd, bs.env, bs.cur, elsePc, els);
    ExtendsTrans(gEnd, env, cur, bs.env, bs.cur, eb.env, eb.cur);
  }

  lemma {:induction false} CaseExtends(gEnd: nat, env: Env, cur: nat, pc: nat, selector: Expr, arms: seq<Arm>, els: Else)
    ensures var r := LowerStmt(gEnd, env, cur, pc, Case(selector, arms, els)); Extends(gEnd, env, cur, r.env, r.cur)
    decreases Case(selector, arms, els), 0, 0
  {
    hide Extends, LowerExpr, LowerArms, LowerElse, AllocTemp;
    var v := LowerExpr(gEnd, env, cur, pc, selector);
    var selTy := TypeExpr(env, selector);
    var t := AllocTemp(gEnd, v.cur, if selTy.Accept? then selTy.value else TDint);
    var armsPc := pc + CodeSize(v.ins) + 4;
    var bs := LowerArms(gEnd, env, t.1, armsPc, t.0, arms, 0);
    var elsePc := armsPc + CodeSize(bs.ins);
    var eb := LowerElse(gEnd, bs.env, bs.cur, elsePc, els);
    ExprExtends(gEnd, env, cur, pc, selector);
    CursorMoves(gEnd, env, cur, t.1);
    ArmsExtend(gEnd, env, t.1, armsPc, t.0, arms, 0);
    ElseExtends(gEnd, bs.env, bs.cur, elsePc, els);
    ExtendsTrans(gEnd, env, cur, env, t.1, bs.env, bs.cur);
    ExtendsTrans(gEnd, env, cur, bs.env, bs.cur, eb.env, eb.cur);
  }

  lemma {:induction false} WhileExtends(gEnd: nat, env: Env, cur: nat, pc: nat, s: Stmt)
    requires s.While?
    ensures var r := LowerStmt(gEnd, env, cur, pc, s); Extends(gEnd, env, cur, r.env, r.cur)
    decreases s, 0, 0
  {
    hide Extends, LowerExpr, LowerSeq, AllocTemp;
    var t := AllocTemp(gEnd, cur, TDint);
    var c := LowerExpr(gEnd, env, t.1, pc + 32, s.cond);
    var bodyPc := pc + 32 + CodeSize(c.ins) + 4;
    var b := LowerSeq(gEnd, env, c.cur, bodyPc, s.body);
    ExprExtends(gEnd, env, t.1, pc + 32, s.cond);
    CursorMoves(gEnd, env, cur, c.cur);
    SeqExtends(gEnd, env, c.cur, bodyPc, s.body);
    ExtendsTrans(gEnd, env, cur, env, c.cur, b.env, b.cur);
  }

  lemma PlanForExtends(gEnd: nat, env: Env, cur: nat, pc: nat, x: string, first: Expr, last: Expr, step: Option<Expr>)
    ensures var p := PlanFor(gEnd, env, cur, pc, x, first, last, step); Extends(gEnd, env, cur, p.env, p.cur)
  {
    hide Extends, LowerExpr, AllocTemp;
    var d := DeclareLoopVar(gEnd, env, cur, x);
    var a := LowerExpr(gEnd, d.1, d.0, pc, first);
    var lim := AllocTemp(gEnd, a.cur, TDint);
    var lastPc := pc + CodeSize(a.ins) + 4;
    var l := LowerExpr(gEnd, d.1, lim.1, lastPc, last);
    var inc := AllocTemp(gEnd, l.cur, TDint);
    var stepPc := lastPc + CodeSize(l.ins) + 4;
    var st := LowerStep(gEnd, d.1, inc.1, stepPc, step);
    var ctr := AllocTemp(gEnd, st.cur, TDint);
    LoopVarExtends(gEnd, env, cur, x);
    ExprExtends(gEnd, d.1, d.0, pc, first);
    ExprExtends(gEnd, d.1, lim.1, lastPc, last);
    if step.Some? { ExprExtends(gEnd, d.1, inc.1, stepPc, step.value); }
    CursorMoves(gEnd, d.1, d.0, ctr.1);
    ExtendsTrans(gEnd, env, cur, d.1, d.0, d.1, ctr.1);
  }

  lemma {:induction false} ForExtends(gEnd: nat, env: Env, cur: nat, pc: nat, s: Stmt)
    requires s.For?
    ensures var r := LowerStmt(gEnd, env, cur, pc, s); Extends(gEnd, env, cur, r.env, r.cur)
    decreases s, 0, 0
  {
    hide Extends, PlanFor, LowerSeq;
    var p := PlanFor(gEnd, env, cur, pc, s.v, s.first, s.last, s.step);
    var b := LowerSeq(gEnd, p.env, p.cur, p.head + 36, s.body);
    PlanForExtends(gEnd, env, cur, pc, s.v, s.first, s.last, s.step);
    SeqExtends(gEnd, p.env, p.cur, p.head + 36, s.body);
    ExtendsTrans(gEnd, env, cur, p.env, p.cur, b.env, b.cur);
  }

  lemma {:induction false} SeqExtends(gEnd: nat, env: Env, cur: nat, pc: nat, ss: seq<Stmt>)
    ensures var r := LowerSeq(gEnd, env, cur, pc, ss); Extends(gEnd, env, cur, r.env, r.cur)
    decreases ss, 0
  {
    hide Extends, LowerStmt;
    if ss == [] {
      CursorMoves(gEnd, env, cur, cur);
    } else {
      var a := LowerStmt(gEnd, env, cur, pc, ss[0]);
      var b := LowerSeq(gEnd, a.env, a.cur, pc + CodeSize(a.ins), ss[1..]);
      StmtExtends(gEnd, env, cur, pc, ss[0]);
      SeqExtends(gEnd, a.env, a.cur, pc + CodeSize(a.ins), ss[1..]);
      ExtendsTrans(gEnd, env, cur, a.env, a.cur, b.env, b.cur);
    }
  }

  lemma {:induction false} ElseExtends(gEnd: nat, env: Env, cur: nat, pc: nat, els: Else)
    ensures var r := LowerElse(gEnd, env, cur, pc, els); Extends(gEnd, env, cur, r.env, r.cur)
    decreases els, 0
  {
    if els.Else? { SeqExtends(gEnd, env, cur, pc, els.body); }
  }

  lemma {:induction false} BranchesExtend(gEnd: nat, env: Env, cur: nat, pc: nat, bs: seq<Branch>, more: bool, end: nat)
    ensures var r := LowerBranches(gEnd, env, cur, pc, bs, more, end); Extends(gEnd, env, cur, r.env, r.cur)
    decreases bs, 0
  {
    hide Extends, LowerExpr, LowerSeq;
    if bs == [] {
      CursorMoves(gEnd, env, cur, cur);
    } else {
      var c := LowerExpr(gEnd, env, cur, pc, bs[0].cond);
      var bodyPc := pc + CodeSize(c.ins) + 4;
      var b := LowerSeq(gEnd, env, c.cur, bodyPc, bs[0].body);
      var leave := Leave(|bs| > 1 || more, end);
      var next := bodyPc + CodeSize(b.ins) + CodeSize(leave);
      var rest := LowerBranches(gEnd, b.env, b.cur, next, bs[1..], more, end);
      ExprExtends(gEnd, env, cur, pc, bs[0].cond);
      SeqExtends(gEnd, env, c.cur, bodyPc, bs[0].body);
      BranchesExtend(gEnd, b.env, b.cur, next, bs[1..], more, end);
      ExtendsTrans(gEnd, env, cur, env, c.cur, b.env, b.cur);
      ExtendsTrans(gEnd, env, cur, b.env, b.cur, rest.env, rest.cur);
    }
  }

  lemma {:induction false} ArmsExtend(gEnd: nat, env: Env, cur: nat, pc: nat, tmp: nat, arms: seq<Arm>, end: nat)
    ensures var r := LowerArms(gEnd, env, cur, pc, tmp, arms, end); Extends(gEnd, env, cur, r.env, r.cur)
    decreases arms, 0
  {
    hide Extends, LowerSeq;
    if arms == [] {
      CursorMoves(gEnd, env, cur, cur);
    } else {
      var bodyPc := pc + 20 * |arms[0].labels|;
      var b := LowerSeq(gEnd, env, cur, bodyPc, arms[0].body);
      var next := bodyPc + CodeSize(b.ins) + 4;
      var rest := LowerArms(gEnd, b.env, b.cur, next, tmp, arms[1..], end);
      SeqExtends(gEnd, env, cur, bodyPc, arms[0].body);
      ArmsExtend(gEnd, b.env, b.cur, next, tmp, arms[1..], end);
      ExtendsTrans(gEnd, env, cur, b.env, b.cur, rest.env, rest.cur);
    }
  }

  /** The target of the closing jumps changes neither the length nor the scope. */
  lemma {:induction false} BranchesSameShape(gEnd: nat, env: Env, cur: nat, pc: nat, bs: seq<Branch>, more: bool, e1: nat, e2: nat)
    ensures var r1 := LowerBranches(gEnd, env, cur, pc, bs, more, e1);
            var r2 := LowerBranches(gEnd, env, cur, pc, bs, more, e2);
            CodeSize(r1.ins) == CodeSize(r2.ins) && r1.cur == r2.cur && r1.env == r2.env
    decreases bs
  {
    hide LowerExpr, LowerSeq, CodeSize, Leave;
    if bs != [] {
      var c := LowerExpr(gEnd, env, cur, pc, bs[0].cond);
      var bodyPc := pc + CodeSize(c.ins) + 4;
      var b := LowerSeq(gEnd, env, c.cur, bodyPc, bs[0].body);
      var leave1 := Leave(|bs| > 1 || more, e1);
      var leave2 := Leave(|bs| > 1 || more, e2);
      var next := bodyPc + CodeSize(b.ins) + CodeSize(leave1);
      var head := c.ins + [Simple(JmpIfNot, next)] + b.ins;
      BranchesSameShape(gEnd, b.env, b.cur, next, bs[1..], more, e1, e2);
      JoinSize(head, leave1, LowerBranches(gEnd, b.env, b.cur, next, bs[1..], more, e1).ins);
      JoinSize(head, leave2, LowerBranches(gEnd, b.env, b.cur, next, bs[1..], more, e2).ins);
    }
  }

  lemma {:induction false} ArmsSameShape(gEnd: nat, env: Env, cur: nat, pc: nat, tmp: nat, arms: seq<Arm>, e1: nat, e2: nat)
    ensures var r1 := LowerArms(gEnd, env, cur, pc, tmp, arms, e1);
            var r2 := LowerArms(gEnd, env, cur, pc, tmp, arms, e2);
            CodeSize(r1.ins) == CodeSize(r2.ins) && r1.cur == r2.cur && r1.env == r2.env
    decreases arms
  {
    hide LowerSeq, LabelTests;
    if arms != [] {
      var bodyPc := pc + 20 * |arms[0].labels|;
      var b := LowerSeq(gEnd, env, cur, bodyPc, arms[0].body);
      var next := bodyPc + CodeSize(b.ins) + 4;
      var head := LabelTests(tmp, arms[0].labels, bodyPc, next) + b.ins;
      ArmsSameShape(gEnd, b.env, b.cur, next, tmp, arms[1..], e1, e2);
      JoinSize(head, [Simple(Jmp, e1)], LowerArms(gEnd, b.env, b.cur, next, tmp, arms[1..], e1).ins);
      JoinSize(head, [Simple(Jmp, e2)], LowerArms(gEnd, b.env, b.cur, next, tmp, arms[1..], e2).ins);
    }
  }
}
