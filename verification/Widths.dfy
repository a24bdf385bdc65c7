/** When every store of a run fits its target: a condition on the types of a body that the
    compiler could check and does not. */
module Widths {
  import opened Ir
  import opened Vm
  import opened St
  import opened Lower
  import opened Scope
  import opened Simulation
  import opened ExprCorrect
  import opened Place
  import opened StmtCorrect

  /** Operands the compiler does not look at although their width matters: NOT, and the
      right operand of AND / OR, take a BOOL. */
  ghost predicate SoundExpr(env: Env, e: Expr)
  {
    match e
    case Unary(op, arg) => SoundExpr(env, arg) && (op.Invert? ==> TypeExpr(env, arg) == Accept(TBool))
    case Binary(op, left, right) =>
      && SoundExpr(env, left) && SoundExpr(env, right)
      && (op.AndAlso? || op.OrElse? ==> TypeExpr(env, right) == Accept(TBool))
    case _ => true
  }

  ghost predicate SoundOperand(env: Env, e: Expr) { TypeExpr(env, e).Accept? && SoundExpr(env, e) }

  /** A FOR sets and steps a variable that is wide enough, up to a limit and by a step of at
      most four bytes. */
  ghost predicate SoundFor(env: Env, s: Stmt)
    requires s.For?
  {
    && InData(env, s.v)
    && SoundOperand(env, s.first) && TypeWidth(env, s.first) <= ByteWidth(env[s.v].ty)
    && SoundOperand(env, s.last) && TypeWidth(env, s.last) <= 4
    && SoundOperand(env, StepExpr(s)) && TypeWidth(env, StepExpr(s)) <= 4
    && TypeWidth(env, StepExpr(s)) <= ByteWidth(env[s.v].ty)
  }

  ghost predicate SoundAssign(env: Env, lhs: Expr, rhs: Expr)
  {
    && SoundOperand(env, rhs)
    && (CheckTarget(env, lhs).Accept? ==> TypeWidth(env, rhs) <= ByteWidth(CheckTarget(env, lhs).value.ty))
  }

  /** Assigned types no wider than their targets, BOOL under NOT and right of AND and OR, FOR
      variables wide enough. */
  ghost predicate SoundStmt(env: Env, s: Stmt)
    decreases s, 0
  {
    match s
    case Empty => true
    case Return => true
    case Assign(lhs, rhs) => SoundAssign(env, lhs, rhs)
    case If(branches, els) => SoundBranches(env, branches) && SoundElse(env, els)
    case Case(selector, arms, els) => SoundOperand(env, selector) && SoundArms(env, arms) && SoundElse(env, els)
    case While(cond, _, body) => SoundOperand(env, cond) && SoundSeq(env, body)
    case For(_, _, _, _, _, body) => SoundFor(env, s) && SoundSeq(env, body)
  }

  ghost predicate SoundSeq(env: Env, ss: seq<Stmt>)
    decreases ss, 0
  {
    ss != [] ==> SoundStmt(env, ss[0]) && SoundSeq(env, ss[1..])
  }

  ghost predicate SoundElse(env: Env, els: Else)
    decreases els, 0
  {
    els.Else? ==> SoundSeq(env, els.body)
  }

  ghost predicate SoundBranches(env: Env, bs: seq<Branch>)
    decreases bs, 0
  {
    bs != [] ==> SoundOperand(env, bs[0].cond) && SoundSeq(env, bs[0].body) && SoundBranches(env, bs[1..])
  }

  ghost predicate SoundArms(env: Env, arms: seq<Arm>)
    decreases arms, 0
  {
    arms != [] ==> SoundSeq(env, arms[0].body) && SoundArms(env, arms[1..])
  }

  // ----- values of their types -----

  /** Inputs and outputs too are no wider than the types of the names they are read by. */
  ghost predicate AllTyped(w: World, s: State)
  {
    && Typed(w, s)
    && (forall x :: x in w.env && w.env[x].Input? && w.env[x].slot < |w.inputs| ==>
          Width(w.inputs[w.env[x].slot]) <= ByteWidth(w.env[x].ty))
    && (forall x :: InOutput(w.env, x) && w.env[x].slot < |s.outputs| ==>
          Width(s.outputs[w.env[x].slot]) <= ByteWidth(w.env[x].ty))
  }

  /** Two names for one output slot have types of one width. */
  ghost predicate SlotsAgree(globals: Env)
  {
    forall x, y :: InOutput(globals, x) && InOutput(globals, y) && globals[x].slot == globals[y].slot ==>
      ByteWidth(globals[x].ty) == ByteWidth(globals[y].ty)
  }

  lemma ReadWidth(w: World, s: State, x: string)
    requires AllTyped(w, s) && NameType(w.env, x).Accept?
    requires ReadName(w, s, x).Ok?
    ensures Width(ReadName(w, s, x).value) <= ByteWidth(NameType(w.env, x).value)
  {
    assert InData(w.env, x) || InRetain(w.env, x) || InOutput(w.env, x) || w.env[x].Input? || w.env[x].Const?;
  }

  lemma BinopWidth(pf: Platform, op: Opcode, a: Value, b: Value, ty: IrType)
    requires IsBinary(op) && Width(a) <= ByteWidth(ty) && Width(b) <= ByteWidth(ty)
    requires Binop(pf, op, a, b).Ok?
    ensures Width(Binop(pf, op, a, b).value) <= ByteWidth(ty)
  {}

  /** A value never needs more bytes than the static type of its expression. */
  lemma {:induction false} EvalWidth(w: World, s: State, e: Expr)
    requires AllTyped(w, s) && SoundExpr(w.env, e)
    requires TypeExpr(w.env, e).Accept? && Eval(w, s, e).Ok?
    ensures Width(Eval(w, s, e).value) <= ByteWidth(TypeExpr(w.env, e).value)
    decreases e
  {
    match e {
      case Literal(_) =>
      case Name(x) => ReadWidth(w, s, x);
      case QGood(_) =>
      case Unary(op, arg) => EvalWidth(w, s, arg);
      case Binary(op, left, right) =>
        EvalWidth(w, s, left);
        if op.AndAlso? {
          if AsBool(Eval(w, s, left).value) { EvalWidth(w, s, right); }
        } else if op.OrElse? {
          if !AsBool(Eval(w, s, left).value) { EvalWidth(w, s, right); }
        } else {
          EvalWidth(w, s, right);
          BinaryWidth(w, s, e);
        }
    }
  }

  lemma BinaryWidth(w: World, s: State, e: Expr)
    requires e.Binary? && !e.bop.AndAlso? && !e.bop.OrElse?
    requires TypeExpr(w.env, e).Accept? && Eval(w, s, e).Ok?
    requires Width(Eval(w, s, e.left).value) <= ByteWidth(TypeExpr(w.env, e.left).value)
    requires Width(Eval(w, s, e.right).value) <= ByteWidth(TypeExpr(w.env, e.right).value)
    ensures Width(Eval(w, s, e).value) <= ByteWidth(TypeExpr(w.env, e).value)
  {
    var a := Eval(w, s, e.left).value;
    var b := Eval(w, s, e.right).value;
    if e.bop.ExclOr? {
      // Mixed operand types trap, so the result has the left operand's type.
    } else if !IsComparison(e.bop) {
      BinopWidth(w.platform, OpcodeOf(e.bop), a, b, TypeExpr(w.env, e.left).value);
    }
  }

  // ----- well-typed bodies make stores that fit -----

  lemma {:induction false} OperandTame(w: World, s: State, e: Expr)
    requires AllTyped(w, s) && SoundOperand(w.env, e)
    ensures TameExpr(w, s, e)
    ensures Eval(w, s, e).Ok? ==> Width(Eval(w, s, e).value) <= TypeWidth(w.env, e)
    decreases e
  {
    hide AllTyped, Eval;
    if Eval(w, s, e).Ok? { EvalWidth(w, s, e); }
    match e {
      case Unary(_, arg) => OperandTame(w, s, arg);
      case Binary(op, left, right) =>
        OperandTame(w, s, left);
        if Eval(w, s, left).Ok? {
          EvalWidth(w, s, left);
          OperandTame(w, s, right);
        }
      case _ =>
    }
  }

  lemma WriteTyped(w: World, s: State, x: string, v: Value)
    requires AllTyped(w, s) && SlotsAgree(w.env) && CheckTarget(w.env, Name(x)).Accept?
    requires Width(v) <= ByteWidth(w.env[x].ty)
    ensures StoreFits(w, x, v)
    ensures var f := Write(w, s, x, v); f.Next? ==> AllTyped(w, f.s)
  {}

  /** A flow that falls through leaves every value of its type. */
  ghost predicate FlowTyped(w: World, f: Flow) { f.Next? ==> AllTyped(w, f.s) }

  /** Executed from a state of well-typed values, a well-typed statement makes only stores that
      fit, and leaves such a state. */
  lemma {:induction false} SoundTame(w: World, s: State, st: Stmt)
    requires AllTyped(w, s) && SlotsAgree(w.env) && SoundStmt(w.env, st)
    ensures TameStmt(w, s, st) && FlowTyped(w, Exec(w, s, st))
    decreases st, 0, 0
  {
    hide AllTyped, SlotsAgree, SoundOperand, Eval, Write, StoreFits;
    match st {
      case Empty =>
      case Return =>
      case Assign(lhs, rhs) => AssignTame(w, s, lhs, rhs);
      case If(branches, els) =>
        BranchesTame(w, s, branches);
        if ExecBranches(w, s, branches).None? { ElseTame(w, s, els); }
      case Case(selector, arms, els) =>
        OperandTame(w, s, selector);
        var v := Eval(w, s, selector);
        if v.Ok? {
          ArmsTame(w, s, v.value, arms);
          if ExecArms(w, s, v.value, arms).None? { ElseTame(w, s, els); }
        }
      case While(cond, maxIter, body) =>
        WhileTame(w, s, cond, body, if maxIter.Some? then maxIter.value else 0);
      case For(_, _, _, _, _, _) => ForStmtTame(w, s, st);
    }
  }

  lemma AssignTame(w: World, s: State, lhs: Expr, rhs: Expr)
    requires AllTyped(w, s) && SlotsAgree(w.env) && SoundAssign(w.env, lhs, rhs)
    ensures TameStmt(w, s, Assign(lhs, rhs)) && FlowTyped(w, Exec(w, s, Assign(lhs, rhs)))
  {
    hide AllTyped, SlotsAgree, Eval;
    OperandTame(w, s, rhs);
    var v := Eval(w, s, rhs);
    if v.Ok? && lhs.Name? && CheckTarget(w.env, lhs).Accept? {
      assert lhs == Name(lhs.name);
      WriteTyped(w, s, lhs.name, v.value);
    }
  }

  lemma {:induction false} SoundSeqTame(w: World, s: State, ss: seq<Stmt>)
    requires AllTyped(w, s) && SlotsAgree(w.env) && SoundSeq(w.env, ss)
    ensures TameSeq(w, s, ss) && FlowTyped(w, ExecSeq(w, s, ss))
    decreases ss, 0, 0
  {
    hide AllTyped, SlotsAgree, SoundStmt, TameStmt, Exec;
    if ss != [] {
      SoundTame(w, s, ss[0]);
      var f := Exec(w, s, ss[0]);
      if f.Next? { SoundSeqTame(w, f.s, ss[1..]); }
    }
  }

  lemma {:induction false} ElseTame(w: World, s: State, els: Else)
    requires AllTyped(w, s) && SlotsAgree(w.env) && SoundElse(w.env, els)
    ensures TameElse(w, s, els) && FlowTyped(w, ExecElse(w, s, None, els))
    decreases els, 0, 0
  {
    hide AllTyped, SlotsAgree, SoundSeq, TameSeq, ExecSeq;
    if els.Else? { SoundSeqTame(w, s, els.body); }
  }

  lemma {:induction false} BranchesTame(w: World, s: State, bs: seq<Branch>)
    requires AllTyped(w, s) && SlotsAgree(w.env) && SoundBranches(w.env, bs)
    ensures TameBranches(w, s, bs)
    ensures var t := ExecBranches(w, s, bs); t.Some? ==> FlowTyped(w, t.value)
    decreases bs, 0, 0
  {
    hide AllTyped, SlotsAgree, SoundOperand, SoundSeq, TameSeq, ExecSeq, Eval;
    if bs != [] {
      OperandTame(w, s, bs[0].cond);
      SoundSeqTame(w, s, bs[0].body);
      BranchesTame(w, s, bs[1..]);
    }
  }

  lemma {:induction false} ArmsTame(w: World, s: State, sel: Value, arms: seq<Arm>)
    requires AllTyped(w, s) && SlotsAgree(w.env) && SoundArms(w.env, arms)
    ensures TameArms(w, s, sel, arms)
    ensures var t := ExecArms(w, s, sel, arms); t.Some? ==> FlowTyped(w, t.value)
    decreases arms, 0, 0
  {
    hide AllTyped, SlotsAgree, SoundSeq, TameSeq, ExecSeq;
    if arms != [] {
      SoundSeqTame(w, s, arms[0].body);
      ArmsTame(w, s, sel, arms[1..]);
    }
  }

  lemma {:induction false} WhileTame(w: World, s: State, cond: Expr, body: seq<Stmt>, k: nat)
    requires AllTyped(w, s) && SlotsAgree(w.env) && SoundOperand(w.env, cond) && SoundSeq(w.env, body)
    ensures TameWhile(w, s, cond, body, k) && FlowTyped(w, ExecWhile(w, s, cond, body, k))
    decreases body, 1, k
  {
    hide AllTyped, SlotsAgree, SoundOperand, SoundSeq, TameSeq, ExecSeq, Eval;
    if k > 0 {
      OperandTame(w, s, cond);
      SoundSeqTame(w, s, body);
      var f := ExecSeq(w, s, body);
      if f.Next? { WhileTame(w, f.s, cond, body, k - 1); }
    }
  }

  lemma {:induction false} ForStmtTame(w: World, s: State, st: Stmt)
    requires st.For? && AllTyped(w, s) && SlotsAgree(w.env) && SoundFor(w.env, st) && SoundSeq(w.env, st.body)
    ensures TameStmt(w, s, st) && FlowTyped(w, Exec(w, s, st))
    decreases st.body, 2
  {
    hide AllTyped, SlotsAgree, SoundSeq, Eval, Write, StoreFits, TameFor, ExecFor, TameExpr, SoundExpr, ForLimit, StepExpr;
    ForMeaning(w, s, st);
    OperandTame(w, s, st.first);
    var a := Eval(w, s, st.first);
    if a.Ok? {
      WriteTyped(w, s, st.v, a.value);
      var g := Write(w, s, st.v, a.value);
      if g.Next? {
        OperandTame(w, g.s, st.last);
        OperandTame(w, g.s, StepExpr(st));
        var b, c := Eval(w, g.s, st.last), Eval(w, g.s, StepExpr(st));
        if b.Ok? && c.Ok? { ForLapsTame(w, g.s, st.v, b.value, c.value, st.body, ForLimit(st)); }
      }
    }
  }

  lemma {:induction false} ForLapsTame(w: World, s: State, x: string, limit: Value, step: Value, body: seq<Stmt>, k: nat)
    requires AllTyped(w, s) && SlotsAgree(w.env) && SoundSeq(w.env, body)
    requires InData(w.env, x) && Width(step) <= ByteWidth(w.env[x].ty)
    ensures TameFor(w, s, x, limit, step, body, k) && FlowTyped(w, ExecFor(w, s, x, limit, step, body, k))
    decreases body, 1, k
  {
    hide AllTyped, SlotsAgree, SoundSeq, TameSeq, ExecSeq, Arith, Compare, Write, StoreFits;
    if k > 0 && x in s.vars {
      SoundSeqTame(w, s, body);
      var f := ExecSeq(w, s, body);
      if f.Next? && x in f.s.vars {
        var v := Arith(w.platform, Add, f.s.vars[x], step);
        if v.Ok? {
          SumTyped(w, f.s, x, step);
          var g := Write(w, f.s, x, v.value);
          if g.Next? { ForLapsTame(w, g.s, x, limit, step, body, k - 1); }
        }
      }
    }
  }

  lemma SumTyped(w: World, s: State, x: string, step: Value)
    requires AllTyped(w, s) && SlotsAgree(w.env) && InData(w.env, x) && Width(step) <= ByteWidth(w.env[x].ty)
    requires x in s.vars && Arith(w.platform, Add, s.vars[x], step).Ok?
    ensures var v := Arith(w.platform, Add, s.vars[x], step).value;
            StoreFits(w, x, v) && var g := Write(w, s, x, v); g.Next? ==> AllTyped(w, g.s)
  {
    BinopWidth(w.platform, Add, s.vars[x], step, w.env[x].ty);
    hide AllTyped, SlotsAgree, Arith, Write, StoreFits;
    WriteTyped(w, s, x, Arith(w.platform, Add, s.vars[x], step).value);
  }
}
