/** Expression code computes the value of the expression on top of the stack. */
module ExprCorrect {
  import opened Bytes
  import opened Ir
  import opened Vm
  import opened St
  import opened Lower
  import opened Sizes
  import opened Unfold
  import opened Scope
  import opened Simulation

  /** Every value that evaluation saves on its way fits the byte it is saved in: the left
      operands of the ANDs and ORs it comes to are one byte wide. */
  ghost predicate TameExpr(w: World, s: State, e: Expr)
  {
    match e
    case Unary(_, arg) => TameExpr(w, s, arg)
    case Binary(op, left, right) =>
      && TameExpr(w, s, left)
      && var x := Eval(w, s, left);
         x.Ok? ==>
           if op.AndAlso? || op.OrElse? then
             Width(x.value) == 1 && (AsBool(x.value) != op.OrElse? ==> TameExpr(w, s, right))
           else TameExpr(w, s, right)
    case _ => true
  }

  ghost predicate SubEnv(env: Env, full: Env)
  {
    forall x :: x in env ==> x in full && full[x] == env[x]
  }

  /** Steps an expression takes at most. */
  function ExprSteps(e: Expr): nat
  {
    match e
    case Unary(_, arg) => ExprSteps(arg) + 1
    case Binary(_, left, right) => ExprSteps(left) + 3 + ExprSteps(right) + 1
    case _ => 1
  }

  // ----- simulation -----

  /** What holds when control is at the first instruction of an expression. */
  ghost predicate AtExpr(w: World, im: Image, gEnd: nat, env: Env, cur: nat, s: State, m: Machine, e: Expr)
  {
    && im.platform == w.platform
    && Holds(w, s, m)
    && SubEnv(env, w.env)
    && TameExpr(w, s, e) && TypeExpr(env, e).Accept? && NeverOverflows(im, m)
    && var c := LowerExpr(gEnd, env, cur, m.pc, e);
    && CodeAt(im.code, m.pc, c.ins)
    && Free(w.env, Frontier(gEnd, cur), c.cur)
    && c.cur <= |m.data.bytes|
  }

  /** What holds `n` steps later: control is at `pc` with the value on top of `rest`,
      or the machine trapped the way the expression does. */
  ghost predicate Yields(w: World, im: Image, top: nat, s: State, m: Machine, r: Result<Value>, pc: nat, rest: seq<Value>,
                         n: nat, m': Machine)
  {
    m.Valid() &&
    match r
    case Err(t) => Run(im, m, n) == Trapped(t)
    case Ok(v) => Goes(w, im, top, m, n, s, m') && m'.pc == pc && m'.stack == rest + [v]
  }

  ghost predicate ExprDone(w: World, im: Image, top: nat, s: State, m: Machine, r: Result<Value>, size: nat, n: nat, m': Machine)
  {
    Yields(w, im, top, s, m, r, m.pc + size, m.stack, n, m')
  }

  lemma YieldsAfter(w: World, im: Image, top: nat, m: Machine, a: nat, s: State, m1: Machine,
                    top': nat, r: Result<Value>, pc: nat, rest: seq<Value>, b: nat, m2: Machine)
    requires top <= top' && Goes(w, im, top, m, a, s, m1) && Yields(w, im, top', s, m1, r, pc, rest, b, m2)
    ensures Yields(w, im, top, s, m, r, pc, rest, a + b, m2)
  {
    hide Goes;
    GoesThen(w, im, top, m, a, s, m1, b);
    if r.Ok? { GoesTrans(w, im, top, m, a, s, m1, top', b, s, m2); }
  }

  lemma AtExprFacts(w: World, im: Image, gEnd: nat, env: Env, cur: nat, s: State, m: Machine, e: Expr)
    requires AtExpr(w, im, gEnd, env, cur, s, m, e)
    ensures im.platform == w.platform && Holds(w, s, m) && SubEnv(env, w.env)
    ensures TameExpr(w, s, e) && TypeExpr(env, e).Accept? && NeverOverflows(im, m)
    ensures var c := LowerExpr(gEnd, env, cur, m.pc, e);
            && CodeAt(im.code, m.pc, c.ins) && Free(w.env, Frontier(gEnd, cur), c.cur)
            && c.cur <= |m.data.bytes|
  {
    hide SubEnv, TameExpr, TypeExpr, LowerExpr, CodeAt, Free, NeverOverflows;
  }

  /** The operands of an accepted expression are accepted, and fit as far as they are evaluated. */
  lemma Operands(w: World, s: State, env: Env, e: Expr)
    requires TameExpr(w, s, e) && TypeExpr(env, e).Accept? && (e.Unary? || e.Binary?)
    ensures e.Unary? ==> TameExpr(w, s, e.arg) && TypeExpr(env, e.arg).Accept?
    ensures e.Binary? ==> TameExpr(w, s, e.left) && TypeExpr(env, e.left).Accept? && TypeExpr(env, e.right).Accept?
    ensures e.Binary? && Eval(w, s, e.left).Ok? ==>
              var x := Eval(w, s, e.left).value;
              if e.bop.AndAlso? || e.bop.OrElse? then
                Width(x) == 1 && (AsBool(x) != e.bop.OrElse? ==> TameExpr(w, s, e.right))
              else TameExpr(w, s, e.right)
  {
    hide Eval;
  }

  lemma MakeAtExpr(w: World, im: Image, gEnd: nat, env: Env, cur: nat, s: State, m: Machine, e: Expr)
    requires im.platform == w.platform && Holds(w, s, m) && SubEnv(env, w.env)
    requires TameExpr(w, s, e) && TypeExpr(env, e).Accept? && NeverOverflows(im, m)
    requires var c := LowerExpr(gEnd, env, cur, m.pc, e);
            && CodeAt(im.code, m.pc, c.ins) && Free(w.env, Frontier(gEnd, cur), c.cur)
            && c.cur <= |m.data.bytes|
    ensures AtExpr(w, im, gEnd, env, cur, s, m, e)
  {
    hide Holds, SubEnv, TameExpr, TypeExpr, LowerExpr, CodeAt, Free, NeverOverflows;
  }

  lemma {:induction false} ExprRuns(w: World, im: Image, gEnd: nat, env: Env, cur: nat, s: State, m: Machine, e: Expr)
    returns (n: nat, m': Machine)
    requires AtExpr(w, im, gEnd, env, cur, s, m, e)
    ensures n <= ExprSteps(e)
    ensures ExprDone(w, im, Frontier(gEnd, cur), s, m, Eval(w, s, e),
                     CodeSize(LowerExpr(gEnd, env, cur, m.pc, e).ins), n, m')
    decreases e, 1
  {
    hide AtExpr, ExprDone, Eval, LowerExpr;
    match e {
      case Unary(op, arg) => n, m' := UnaryRuns(w, im, gEnd, env, cur, s, m, e);
      case Binary(op, left, right) =>
        if op.AndAlso? || op.OrElse? {
          n, m' := ShortRuns(w, im, gEnd, env, cur, s, m, e);
        } else {
          n, m' := PlainRuns(w, im, gEnd, env, cur, s, m, e);
        }
      case _ => n, m' := LeafRuns(w, im, gEnd, env, cur, s, m, e);
    }
  }

  lemma LeafRuns(w: World, im: Image, gEnd: nat, env: Env, cur: nat, s: State, m: Machine, e: Expr)
    returns (n: nat, m': Machine)
    requires e.Literal? || e.Name? || e.QGood?
    requires AtExpr(w, im, gEnd, env, cur, s, m, e)
    ensures n == 1
    ensures ExprDone(w, im, Frontier(gEnd, cur), s, m, Eval(w, s, e),
                     CodeSize(LowerExpr(gEnd, env, cur, m.pc, e).ins), n, m')
  {
    hide AtExpr, Run, Holds, StepInstr, Eval, Decode, Goes, SubEnv, TypeExpr, CodeAt;
    AtExprFacts(w, im, gEnd, env, cur, s, m, e);
    var i := LowerExpr(gEnd, env, cur, m.pc, e).ins[0];
    assert LowerExpr(gEnd, env, cur, m.pc, e).ins == [i];
    CodeAtOne(im.code, m.pc, i);
    n, m' := 1, m;
    HoldsBasics(w, s, m);
    OneStep(im, m, i);
    LeafStep(w, im, gEnd, env, cur, s, m, e, i);
    NextFits(im, m, i);
    var r := Eval(w, s, e);
    if r.Ok? {
      m' := MoveGoes(w, im, Frontier(gEnd, cur), s, m, i, m.pc + Size(i), m.stack + [r.value]);
    }
  }

  lemma LeafStep(w: World, im: Image, gEnd: nat, env: Env, cur: nat, s: State, m: Machine, e: Expr, i: Instr)
    requires e.Literal? || e.Name? || e.QGood?
    requires Holds(w, s, m) && SubEnv(env, w.env) && TypeExpr(env, e).Accept?
    requires i == LowerExpr(gEnd, env, cur, m.pc, e).ins[0]
    ensures m.Valid()
    ensures var r := Eval(w, s, e);
            StepInstr(im, m, i) == if r.Ok? then Push(m, r.value, Size(i)) else Trapped(r.trap)
  {
    hide Holds, Load, PushLiteral, LiteralValue;
    HoldsBasics(w, s, m);
    match e {
      case Literal(l) => LiteralPush(im, m, l);
      case QGood(_) => HoldsImages(w, s, m);
      case Name(x) => NameStep(w, im, env, s, m, x);
    }
  }

  lemma NameStep(w: World, im: Image, env: Env, s: State, m: Machine, x: string)
    requires Holds(w, s, m) && SubEnv(env, w.env) && NameType(env, x).Accept?
    ensures m.Valid()
    ensures var r := ReadName(w, s, x);
            var i := LoadName(env, x);
            StepInstr(im, m, i) == if r.Ok? then Push(m, r.value, Size(i)) else Trapped(r.trap)
  {
    hide Holds, Load, PushLiteral, LiteralValue;
    HoldsBasics(w, s, m);
    HoldsImages(w, s, m);
    match env[x] {
      case Const(l) => LiteralPush(im, m, l);
      case Data(_, _) => DataStep(w, im, s, m, x);
      case Retain(_, _) => RetainStep(w, im, s, m, x);
      case _ =>
    }
  }

  lemma HoldsImages(w: World, s: State, m: Machine)
    requires Holds(w, s, m)
    ensures m.inputs == w.inputs && m.quality == w.quality && m.outputs == s.outputs && |s.outputs| == |s.written|
  {}

  lemma DataStep(w: World, im: Image, s: State, m: Machine, x: string)
    requires Holds(w, s, m) && InData(w.env, x)
    ensures x in s.vars
    ensures StepInstr(im, m, Simple(LdData, w.env[x].offset))
         == Push(m, s.vars[x], 4)
  {
    assert Load(m.data, w.env[x].offset) == Some(s.vars[x]);
    assert w.env[x].offset < |m.data.bytes|;
    hide Load, LayoutOk, VarsHeld, Typed;
  }

  lemma RetainStep(w: World, im: Image, s: State, m: Machine, x: string)
    requires Holds(w, s, m) && InRetain(w.env, x)
    ensures x in s.vars
    ensures StepInstr(im, m, Simple(LdRetain, w.env[x].offset))
         == Push(m, s.vars[x], 4)
  {
    assert Load(m.retain, w.env[x].offset) == Some(s.vars[x]);
    assert w.env[x].offset < |m.retain.bytes|;
    hide Load, LayoutOk, VarsHeld, Typed;
  }

  lemma UnaryLowered(gEnd: nat, env: Env, cur: nat, pc: nat, e: Expr)
    requires e.Unary?
    ensures var a, l := LowerExpr(gEnd, env, cur, pc, e.arg), LowerExpr(gEnd, env, cur, pc, e);
            l.ins == a.ins + [Simple(if e.uop.Invert? then Not else Neg, 0)] && l.cur == a.cur
  {}

  /** The code of an operator expression starts with its first operand. */
  lemma FirstOperand(gEnd: nat, env: Env, cur: nat, pc: nat, e: Expr) returns (rest: seq<Instr>)
    requires e.Unary? || e.Binary?
    ensures var a := LowerExpr(gEnd, env, cur, pc, if e.Unary? then e.arg else e.left);
            && LowerExpr(gEnd, env, cur, pc, e).ins == a.ins + rest
            && a.cur <= LowerExpr(gEnd, env, cur, pc, e).cur
  {
    hide LowerExpr, AllocTemp, Extends, CodeSize;
    var a := LowerExpr(gEnd, env, cur, pc, if e.Unary? then e.arg else e.left);
    if e.Unary? {
      UnaryLowered(gEnd, env, cur, pc, e);
    } else {
      if e.bop.AndAlso? || e.bop.OrElse? {
        LoweredShort(gEnd, env, cur, pc, e);
        var t := AllocTemp(gEnd, a.cur, TBool);
        ExprExtends(gEnd, env, t.1, pc + CodeSize(a.ins) + 12, e.right);
      } else {
        LoweredPlain(gEnd, env, cur, pc, e);
        ExprExtends(gEnd, env, a.cur, pc + CodeSize(a.ins), e.right);
      }
    }
    assert a.ins <= LowerExpr(gEnd, env, cur, pc, e).ins;
    rest := LowerExpr(gEnd, env, cur, pc, e).ins[|a.ins|..];
  }

  /** So control at an expression is control at its first operand. */
  lemma AtOperand(w: World, im: Image, gEnd: nat, env: Env, cur: nat, s: State, m: Machine, e: Expr)
    requires AtExpr(w, im, gEnd, env, cur, s, m, e) && (e.Unary? || e.Binary?)
    ensures AtExpr(w, im, gEnd, env, cur, s, m, if e.Unary? then e.arg else e.left)
  {
    hide AtExpr, Holds, SubEnv, TameExpr, TypeExpr, LowerExpr, CodeAt, Free;
    AtExprFacts(w, im, gEnd, env, cur, s, m, e);
    Operands(w, s, env, e);
    var sub := if e.Unary? then e.arg else e.left;
    var rest := FirstOperand(gEnd, env, cur, m.pc, e);
    var a := LowerExpr(gEnd, env, cur, m.pc, sub);
    CodeAtSplit(im.code, m.pc, a.ins, rest);
    FreeWithin(w.env, Frontier(gEnd, cur), LowerExpr(gEnd, env, cur, m.pc, e).cur, Frontier(gEnd, cur), a.cur);
    MakeAtExpr(w, im, gEnd, env, cur, s, m, sub);
  }

  lemma UnaryShape(w: World, s: State, gEnd: nat, env: Env, cur: nat, pc: nat, e: Expr)
    requires e.Unary?
    ensures var a := LowerExpr(gEnd, env, cur, pc, e.arg);
            var i := Simple(if e.uop.Invert? then Not else Neg, 0);
            && LowerExpr(gEnd, env, cur, pc, e).ins == a.ins + [i]
            && CodeSize(LowerExpr(gEnd, env, cur, pc, e).ins) == CodeSize(a.ins) + 4
    ensures var x := Eval(w, s, e.arg);
            Eval(w, s, e) == if x.Err? then x else Unop(w.platform, if e.uop.Invert? then Not else Neg, x.value)
    ensures ExprSteps(e) == ExprSteps(e.arg) + 1
  {
    hide Unop, CodeSize;
    var i := Simple(if e.uop.Invert? then Not else Neg, 0);
    CodeSizeAppend(LowerExpr(gEnd, env, cur, pc, e.arg).ins, [i]);
    OneSize(i);
  }

  lemma {:induction false} UnaryRuns(w: World, im: Image, gEnd: nat, env: Env, cur: nat, s: State, m: Machine, e: Expr)
    returns (n: nat, m': Machine)
    requires e.Unary? && AtExpr(w, im, gEnd, env, cur, s, m, e)
    ensures n <= ExprSteps(e)
    ensures ExprDone(w, im, Frontier(gEnd, cur), s, m, Eval(w, s, e),
                     CodeSize(LowerExpr(gEnd, env, cur, m.pc, e).ins), n, m')
    decreases e, 0
  {
    hide AtExpr, Run, Goes, StepInstr, CodeAt, Decode, Holds, SubEnv, Free, Same, Unop, LowerExpr, Eval, CodeSize, ExprSteps;
    var c := LowerExpr(gEnd, env, cur, m.pc, e.arg);
    var i := Simple(if e.uop.Invert? then Not else Neg, 0);
    UnaryShape(w, s, gEnd, env, cur, m.pc, e);
    AtExprFacts(w, im, gEnd, env, cur, s, m, e);
    AtOperand(w, im, gEnd, env, cur, s, m, e);
    CodeAtSplit(im.code, m.pc, c.ins, [i]);
    CodeAtOne(im.code, m.pc + CodeSize(c.ins), i);
    n, m' := ExprRuns(w, im, gEnd, env, cur, s, m, e.arg);
    var a := Eval(w, s, e.arg);
    if a.Ok? {
      var m1, top, r := m', Frontier(gEnd, cur), Eval(w, s, e);
      GoesBasics(w, im, top, m, n, s, m1);
      OneStep(im, m1, i);
      UnaryStep(im, m1, e.uop, m.stack, a.value);
      if r.Ok? { m' := MoveGoes(w, im, top, s, m1, i, m1.pc + 4, m.stack + [r.value]); }
      YieldsAfter(w, im, top, m, n, s, m1, top, r, m1.pc + 4, m.stack, 1, m');
      n := n + 1;
    }
  }

  lemma UnaryStep(im: Image, m: Machine, op: UnaryOp, rest: seq<Value>, x: Value)
    requires m.Valid() && m.stack == rest + [x]
    ensures var o := if op.Invert? then Not else Neg;
            var r := Unop(im.platform, o, x);
            StepInstr(im, m, Simple(o, 0))
            == if r.Ok? then Running(m.(stack := rest + [r.value], pc := m.pc + 4)) else Trapped(r.trap)
  {
    assert Drop(m, 1).stack == rest;
    hide Unop;
  }

  lemma PlainShape(w: World, s: State, gEnd: nat, env: Env, cur: nat, pc: nat, e: Expr)
    requires e.Binary? && !e.bop.AndAlso? && !e.bop.OrElse?
    ensures var a := LowerExpr(gEnd, env, cur, pc, e.left);
            var b := LowerExpr(gEnd, env, a.cur, pc + CodeSize(a.ins), e.right);
            && CodeSize(LowerExpr(gEnd, env, cur, pc, e).ins) == CodeSize(a.ins) + CodeSize(b.ins) + 4
            && cur <= a.cur
    ensures var x := Eval(w, s, e.left);
            var y := Eval(w, s, e.right);
            Eval(w, s, e) == if x.Err? then x else if y.Err? then y else Binop(w.platform, OpcodeOf(e.bop), x.value, y.value)
    ensures ExprSteps(e) == ExprSteps(e.left) + ExprSteps(e.right) + 4
  {
    hide Binop, CodeSize, Extends;
    var a := LowerExpr(gEnd, env, cur, pc, e.left);
    var i := Simple(OpcodeOf(e.bop), 0);
    ExprExtends(gEnd, env, cur, pc, e.left);
    JoinSize(a.ins, LowerExpr(gEnd, env, a.cur, pc + CodeSize(a.ins), e.right).ins, [i]);
    OneSize(i);
  }

  lemma {:induction false} PlainRuns(w: World, im: Image, gEnd: nat, env: Env, cur: nat, s: State, m: Machine, e: Expr)
    returns (n: nat, m': Machine)
    requires e.Binary? && !e.bop.AndAlso? && !e.bop.OrElse?
    requires AtExpr(w, im, gEnd, env, cur, s, m, e)
    ensures n <= ExprSteps(e)
    ensures ExprDone(w, im, Frontier(gEnd, cur), s, m, Eval(w, s, e),
                     CodeSize(LowerExpr(gEnd, env, cur, m.pc, e).ins), n, m')
    decreases e, 0
  {
    hide AtExpr, Run, Goes, LowerExpr, Eval, Binop, ExprSteps, CodeSize, OpcodeOf, IsBinary;
    var top := Frontier(gEnd, cur);
    var a := LowerExpr(gEnd, env, cur, m.pc, e.left);
    PlainShape(w, s, gEnd, env, cur, m.pc, e);
    AtOperand(w, im, gEnd, env, cur, s, m, e);
    n, m' := ExprRuns(w, im, gEnd, env, cur, s, m, e.left);
    var x := Eval(w, s, e.left);
    if x.Ok? {
      var m1 := m';
      AtRight(w, im, gEnd, env, cur, s, m, e, n, m1, x.value);
      var k, m2 := SecondOperand(w, im, gEnd, env, a.cur, s, m1, e, m.stack, x.value);
      hide Yields;
      YieldsAfter(w, im, top, m, n, s, m1, Frontier(gEnd, a.cur), Eval(w, s, e),
                  m1.pc + CodeSize(LowerExpr(gEnd, env, a.cur, m1.pc, e.right).ins) + 4, m.stack, k, m2);
      n, m' := n + k, m2;
    }
  }

  /** The right operand and the operator, with the left value already on the stack. */
  lemma {:induction false} SecondOperand(w: World, im: Image, gEnd: nat, env: Env, cur: nat, s: State, m: Machine, e: Expr,
                                         rest: seq<Value>, x: Value)
    returns (n: nat, m': Machine)
    requires e.Binary? && !e.bop.AndAlso? && !e.bop.OrElse?
    requires AtExpr(w, im, gEnd, env, cur, s, m, e.right)
    requires m.stack == rest + [x]
    requires DecodesTo(im.code, m.pc + CodeSize(LowerExpr(gEnd, env, cur, m.pc, e.right).ins), Simple(OpcodeOf(e.bop), 0))
    ensures n <= ExprSteps(e.right) + 1
    ensures var y := Eval(w, s, e.right);
            Yields(w, im, Frontier(gEnd, cur), s, m, if y.Err? then y else Binop(w.platform, OpcodeOf(e.bop), x, y.value),
                   m.pc + CodeSize(LowerExpr(gEnd, env, cur, m.pc, e.right).ins) + 4, rest, n, m')
    decreases e.right, 2
  {
    hide AtExpr, Run, Goes, Holds, Decode, Binop, LowerExpr, Eval, OpcodeOf, IsBinary;
    var top := Frontier(gEnd, cur);
    AtExprFacts(w, im, gEnd, env, cur, s, m, e.right);
    n, m' := ExprRuns(w, im, gEnd, env, cur, s, m, e.right);
    var y := Eval(w, s, e.right);
    if y.Ok? {
      var m1 := m';
      GoesBasics(w, im, top, m, n, s, m1);
      assert m1.stack == rest + [x, y.value];
      m' := OperatorGoes(w, im, top, s, m1, OpcodeOf(e.bop), rest, x, y.value);
      YieldsAfter(w, im, top, m, n, s, m1, top, Binop(w.platform, OpcodeOf(e.bop), x, y.value), m1.pc + 4, rest, 1, m');
      n := n + 1;
    }
  }

  /** After the left operand, the right one is at its start and the operator follows it. */
  lemma AtRight(w: World, im: Image, gEnd: nat, env: Env, cur: nat, s: State, m: Machine, e: Expr,
                n: nat, m1: Machine, x: Value)
    requires e.Binary? && !e.bop.AndAlso? && !e.bop.OrElse? && Eval(w, s, e.left).Ok?
    requires AtExpr(w, im, gEnd, env, cur, s, m, e)
    requires Goes(w, im, Frontier(gEnd, cur), m, n, s, m1) && m1.stack == m.stack + [x]
    requires m1.pc == m.pc + CodeSize(LowerExpr(gEnd, env, cur, m.pc, e.left).ins)
    ensures var a := LowerExpr(gEnd, env, cur, m.pc, e.left);
            var b := LowerExpr(gEnd, env, a.cur, m1.pc, e.right);
            && AtExpr(w, im, gEnd, env, a.cur, s, m1, e.right)
            && DecodesTo(im.code, m1.pc + CodeSize(b.ins), Simple(OpcodeOf(e.bop), 0))
  {
    hide AtExpr, Holds, SubEnv, TameExpr, TypeExpr, CodeAt, Free, Goes, Decode, NeverOverflows, Same, Extends, LowerExpr, CodeSize;
    LoweredPlain(gEnd, env, cur, m.pc, e);
    var a := LowerExpr(gEnd, env, cur, m.pc, e.left);
    var b := LowerExpr(gEnd, env, a.cur, m1.pc, e.right);
    var i := Simple(OpcodeOf(e.bop), 0);
    AtExprFacts(w, im, gEnd, env, cur, s, m, e);
    Operands(w, s, env, e);
    CodeAtSplit3(im.code, m.pc, a.ins, b.ins, [i]);
    CodeAtOne(im.code, m1.pc + CodeSize(b.ins), i);
    ExprExtends(gEnd, env, cur, m.pc, e.left);
    ExprExtends(gEnd, env, a.cur, m1.pc, e.right);
    FreeWithin(w.env, Frontier(gEnd, cur), b.cur, Frontier(gEnd, a.cur), b.cur);
    GoesBasics(w, im, Frontier(gEnd, cur), m, n, s, m1);
    MakeAtExpr(w, im, gEnd, env, a.cur, s, m1, e.right);
  }

  // ----- AND / OR -----

  /** Where the pieces of a short-circuit expression stand. */
  datatype ShortPlan = ShortPlan(a: Code, tmp: nat, next: nat, rightPc: nat, b: Code, skip: nat)

  function PlanShort(gEnd: nat, env: Env, cur: nat, pc: nat, e: Expr): ShortPlan
    requires e.Binary?
  {
    var a := LowerExpr(gEnd, env, cur, pc, e.left);
    var t := AllocTemp(gEnd, a.cur, TBool);
    var rightPc := pc + CodeSize(a.ins) + 12;
    var b := LowerExpr(gEnd, env, t.1, rightPc, e.right);
    ShortPlan(a, t.0, t.1, rightPc, b, rightPc + CodeSize(b.ins) + 4)
  }

  lemma ShortRight(gEnd: nat, env: Env, cur: nat, pc: nat, e: Expr)
    requires e.Binary?
    ensures var p := PlanShort(gEnd, env, cur, pc, e);
            p.b == LowerExpr(gEnd, env, p.next, p.rightPc, e.right) && p.skip == p.rightPc + CodeSize(p.b.ins) + 4
            && p.rightPc == pc + CodeSize(LowerExpr(gEnd, env, cur, pc, e.left).ins) + 12
  {
    hide LowerExpr, CodeSize;
  }

  /** Where the pieces of an AND or OR stand. */
  lemma ShortPieces(code: seq<byte>, gEnd: nat, env: Env, cur: nat, pc: nat, e: Expr)
    requires e.Binary? && (e.bop.AndAlso? || e.bop.OrElse?) && CodeAt(code, pc, LowerExpr(gEnd, env, cur, pc, e).ins)
    ensures var p := PlanShort(gEnd, env, cur, pc, e);
            && CodeSize(LowerExpr(gEnd, env, cur, pc, e).ins) == p.skip + 4 - pc
            && p.a == LowerExpr(gEnd, env, cur, pc, e.left) && p.b == LowerExpr(gEnd, env, p.next, p.rightPc, e.right)
            && p.rightPc == pc + CodeSize(p.a.ins) + 12 && p.skip == p.rightPc + CodeSize(p.b.ins) + 4
            && CodeAt(code, pc, p.a.ins)
            && DecodesTo(code, p.rightPc - 12, Simple(StData, p.tmp))
            && DecodesTo(code, p.rightPc - 8, Simple(LdData, p.tmp))
            && DecodesTo(code, p.rightPc - 4, Simple(if e.bop.OrElse? then JmpIf else JmpIfNot, p.skip))
            && CodeAt(code, p.rightPc, p.b.ins)
            && DecodesTo(code, p.skip - 4, Simple(Jmp, p.skip + 4))
            && DecodesTo(code, p.skip, Simple(PushIBool, if e.bop.OrElse? then 1 else 0))
            && Frontier(gEnd, cur) <= p.tmp && cur <= p.next
  {
    hide CodeAt, Decode, CodeSize, Extends, AllocTemp, LowerExpr;
    LoweredShort(gEnd, env, cur, pc, e);
    var p := PlanShort(gEnd, env, cur, pc, e);
    var dup := ShortCircuit(e.bop, p.tmp, p.skip);
    var jump, push := Simple(Jmp, p.skip + 4), Simple(PushIBool, if e.bop.OrElse? then 1 else 0);
    var head := p.a.ins + dup + p.b.ins;
    assert LowerExpr(gEnd, env, cur, pc, e).ins == head + [jump, push];
    ExprExtends(gEnd, env, cur, pc, e.left);
    CodeAtSplit(code, pc, head, [jump, push]);
    CodeAtSplit3(code, pc, p.a.ins, dup, p.b.ins);
    JoinSize(p.a.ins, dup, p.b.ins);
    CodeSizeAppend(head, [jump, push]);
    assert dup == [dup[0], dup[1], dup[2]];
    CodeAtThree(code, pc + CodeSize(p.a.ins), dup[0], dup[1], dup[2]);
    CodeAtTwo(code, pc + CodeSize(head), jump, push);
  }

  lemma ShortLayout(w: World, im: Image, gEnd: nat, env: Env, cur: nat, s: State, m: Machine, e: Expr)
    requires e.Binary? && (e.bop.AndAlso? || e.bop.OrElse?)
    requires AtExpr(w, im, gEnd, env, cur, s, m, e)
    ensures var p := PlanShort(gEnd, env, cur, m.pc, e);
            && CodeSize(LowerExpr(gEnd, env, cur, m.pc, e).ins) == p.skip + 4 - m.pc
            && DecodesTo(im.code, p.rightPc - 12, Simple(StData, p.tmp))
            && DecodesTo(im.code, p.rightPc - 8, Simple(LdData, p.tmp))
            && DecodesTo(im.code, p.rightPc - 4, Simple(if e.bop.OrElse? then JmpIf else JmpIfNot, p.skip))
            && CodeAt(im.code, p.rightPc, p.b.ins)
            && DecodesTo(im.code, p.skip - 4, Simple(Jmp, p.skip + 4))
            && DecodesTo(im.code, p.skip, PushLiteral(BoolLit(e.bop.OrElse?)))
            && Free(w.env, p.tmp, p.tmp + 1) && Frontier(gEnd, cur) <= p.tmp < |m.data.bytes|
            && Free(w.env, Frontier(gEnd, p.next), p.b.cur) && p.b.cur <= |m.data.bytes|
            && cur <= p.next
  {
    hide AtExpr, Holds, SubEnv, TameExpr, TypeExpr, CodeAt, Free, Decode, CodeSize, Extends, AllocTemp, LowerExpr;
    AtExprFacts(w, im, gEnd, env, cur, s, m, e);
    LoweredShort(gEnd, env, cur, m.pc, e);
    ShortPieces(im.code, gEnd, env, cur, m.pc, e);
    var p := PlanShort(gEnd, env, cur, m.pc, e);
    ExprExtends(gEnd, env, p.next, p.rightPc, e.right);
    FreeWithin(w.env, Frontier(gEnd, cur), p.b.cur, p.tmp, p.tmp + 1);
    FreeWithin(w.env, Frontier(gEnd, cur), p.b.cur, Frontier(gEnd, p.next), p.b.cur);
  }

  lemma HasRoom(m: Machine, rest: seq<Value>, x: Value)
    requires m.Valid() && m.stack == rest + [x]
    ensures |rest| < MAX_STACK
  {}

  /** Saves the left value, loads it back and tests it. */
  lemma ShortTest(w: World, im: Image, top: nat, s: State, m: Machine, orElse: bool, tmp: nat, skip: nat,
                  rest: seq<Value>, x: Value) returns (m': Machine)
    requires Holds(w, s, m) && m.stack == rest + [x] && Width(x) == 1
    requires Free(w.env, tmp, tmp + 1) && top <= tmp < |m.data.bytes|
    requires DecodesTo(im.code, m.pc, Simple(StData, tmp))
    requires DecodesTo(im.code, m.pc + 4, Simple(LdData, tmp))
    requires DecodesTo(im.code, m.pc + 8, Simple(if orElse then JmpIf else JmpIfNot, skip))
    ensures Goes(w, im, top, m, 3, s, m')
    ensures m'.stack == rest && m'.pc == if AsBool(x) == orElse then skip else m.pc + 12
  {
    HoldsBasics(w, s, m);
    hide Run, Goes, Holds, Decode, Load, Free, Same, Machine.Valid;
    assert |rest| < MAX_STACK by { HasRoom(m, rest, x); }
    var m1 := StoreScratchGoes(w, im, top, s, m, tmp, rest, x);
    GoesBasics(w, im, top, m, 1, s, m1);
    var m2 := LoadGoes(w, im, top, s, m1, tmp, x);
    GoesTrans(w, im, top, m, 1, s, m1, top, 1, s, m2);
    GoesBasics(w, im, top, m, 2, s, m2);
    m' := BranchGoes(w, im, top, s, m2, if orElse then JmpIf else JmpIfNot, skip, rest, x);
    GoesTrans(w, im, top, m, 2, s, m2, top, 1, s, m');
  }

  /** After the test: the constant, or the right operand and a jump over the constant. */
  lemma {:induction false} ShortTail(w: World, im: Image, gEnd: nat, env: Env, cur: nat, s: State, m: Machine, e: Expr,
                                     p: ShortPlan, x: Value, m1: Machine)
    returns (n: nat, m': Machine)
    requires e.Binary? && (e.bop.AndAlso? || e.bop.OrElse?)
    requires AtExpr(w, im, gEnd, env, cur, s, m, e) && p == PlanShort(gEnd, env, cur, m.pc, e)
    requires Eval(w, s, e.left) == Ok(x)
    requires Holds(w, s, m1) && NeverOverflows(im, m1) && m1.stack == m.stack && |m1.data.bytes| == |m.data.bytes|
    requires m1.pc == if AsBool(x) == e.bop.OrElse? then p.skip else p.rightPc
    ensures n <= ExprSteps(e.right) + 1
    ensures Yields(w, im, Frontier(gEnd, cur), s, m1, Eval(w, s, e), p.skip + 4, m.stack, n, m')
    decreases e.right, 3
  {
    hide AtExpr, Goes, Holds, CodeAt, Decode, Free, LowerExpr, PlanShort, SubEnv, TypeExpr, TameExpr, CodeSize, Eval, Yields, NeverOverflows;
    ShortEval(w, s, e);
    ShortLayout(w, im, gEnd, env, cur, s, m, e);
    AtExprFacts(w, im, gEnd, env, cur, s, m, e);
    if AsBool(x) == e.bop.OrElse? {
      m' := ShortSkip(w, im, Frontier(gEnd, cur), s, m1, e.bop.OrElse?, p.skip);
      n := 1;
    } else {
      Operands(w, s, env, e);
      ShortRight(gEnd, env, cur, m.pc, e);
      MakeAtExpr(w, im, gEnd, env, p.next, s, m1, e.right);
      n, m' := ShortLong(w, im, Frontier(gEnd, cur), gEnd, env, p.next, s, m1, e.right, p.skip);
    }
  }

  /** The constant that stands for a decided AND or OR. */
  lemma ShortSkip(w: World, im: Image, top: nat, s: State, m: Machine, b: bool, skip: nat) returns (m': Machine)
    requires Holds(w, s, m) && NeverOverflows(im, m) && m.pc == skip
    requires DecodesTo(im.code, skip, PushLiteral(BoolLit(b)))
    ensures Yields(w, im, top, s, m, Ok(Bool(b)), skip + 4, m.stack, 1, m')
  {
    hide Holds, Goes, Decode, Run, NeverOverflows, StepInstr;
    HoldsBasics(w, s, m);
    NextFits(im, m, PushLiteral(BoolLit(b)));
    LiteralPush(im, m, BoolLit(b));
    m' := PushLiteralGoes(w, im, top, s, m, BoolLit(b));
  }

  /** The right operand and the jump over the constant. */
  lemma {:induction false} ShortLong(w: World, im: Image, top: nat, gEnd: nat, env: Env, cur: nat, s: State, m: Machine, e: Expr, skip: nat)
    returns (n: nat, m': Machine)
    requires AtExpr(w, im, gEnd, env, cur, s, m, e) && top <= Frontier(gEnd, cur)
    requires skip == m.pc + CodeSize(LowerExpr(gEnd, env, cur, m.pc, e).ins) + 4
    requires DecodesTo(im.code, skip - 4, Simple(Jmp, skip + 4))
    ensures n <= ExprSteps(e) + 1
    ensures Yields(w, im, top, s, m, Eval(w, s, e), skip + 4, m.stack, n, m')
    decreases e, 2
  {
    hide AtExpr, Goes, Holds, Decode, LowerExpr, CodeSize, Eval, Run, ExprSteps;
    n, m' := ExprRuns(w, im, gEnd, env, cur, s, m, e);
    YieldsLower(w, im, top, Frontier(gEnd, cur), s, m, Eval(w, s, e), skip - 4, m.stack, n, m');
    if Eval(w, s, e).Ok? {
      var m1 := m';
      GoesBasics(w, im, top, m, n, s, m1);
      m' := JumpGoes(w, im, top, s, m1, skip + 4);
      YieldsAfter(w, im, top, m, n, s, m1, top, Eval(w, s, e), skip + 4, m.stack, 1, m');
      n := n + 1;
    }
  }

  lemma ShortEval(w: World, s: State, e: Expr)
    requires e.Binary? && (e.bop.AndAlso? || e.bop.OrElse?)
    ensures var x := Eval(w, s, e.left);
            Eval(w, s, e) == if x.Err? then x
                             else if AsBool(x.value) == e.bop.OrElse? then Ok(Bool(e.bop.OrElse?))
                             else Eval(w, s, e.right)
  {}

  lemma YieldsLower(w: World, im: Image, top: nat, top': nat, s: State, m: Machine, r: Result<Value>, pc: nat, rest: seq<Value>,
                    n: nat, m': Machine)
    requires top <= top' && Yields(w, im, top', s, m, r, pc, rest, n, m')
    ensures Yields(w, im, top, s, m, r, pc, rest, n, m')
  {
    hide Run, Holds;
  }

  /** AND and OR: the left operand decides whether the right one runs at all. */
  lemma {:induction false} ShortRuns(w: World, im: Image, gEnd: nat, env: Env, cur: nat, s: State, m: Machine, e: Expr)
    returns (n: nat, m': Machine)
    requires e.Binary? && (e.bop.AndAlso? || e.bop.OrElse?)
    requires AtExpr(w, im, gEnd, env, cur, s, m, e)
    ensures n <= ExprSteps(e)
    ensures ExprDone(w, im, Frontier(gEnd, cur), s, m, Eval(w, s, e),
                     CodeSize(LowerExpr(gEnd, env, cur, m.pc, e).ins), n, m')
    decreases e, 0
  {
    hide AtExpr, Run, Goes, Holds, LowerExpr, PlanShort, CodeSize, Eval, ExprSteps;
    ShortEval(w, s, e);
    ShortSteps(e);
    AtOperand(w, im, gEnd, env, cur, s, m, e);
    n, m' := ExprRuns(w, im, gEnd, env, cur, s, m, e.left);
    if Eval(w, s, e.left).Ok? {
      n, m' := ShortFromLeft(w, im, gEnd, env, cur, s, m, e, Eval(w, s, e.left).value, n, m');
    }
  }

  lemma ShortSteps(e: Expr)
    requires e.Binary?
    ensures ExprSteps(e) == ExprSteps(e.left) + 3 + ExprSteps(e.right) + 1
  {}

  /** The rest of AND / OR once the left value is on the stack. */
  lemma {:induction false} ShortFromLeft(w: World, im: Image, gEnd: nat, env: Env, cur: nat, s: State, m: Machine, e: Expr, x: Value,
                                         a: nat, m1: Machine)
    returns (n: nat, m': Machine)
    requires e.Binary? && (e.bop.AndAlso? || e.bop.OrElse?)
    requires AtExpr(w, im, gEnd, env, cur, s, m, e) && Eval(w, s, e.left) == Ok(x)
    requires Goes(w, im, Frontier(gEnd, cur), m, a, s, m1) && m1.stack == m.stack + [x]
    requires m1.pc == m.pc + CodeSize(LowerExpr(gEnd, env, cur, m.pc, e.left).ins)
    ensures n <= a + 3 + ExprSteps(e.right) + 1
    ensures ExprDone(w, im, Frontier(gEnd, cur), s, m, Eval(w, s, e),
                     CodeSize(LowerExpr(gEnd, env, cur, m.pc, e).ins), n, m')
    decreases e.right, 4
  {
    hide AtExpr, Run, Goes, Holds, Decode, Free, LowerExpr, PlanShort, SubEnv, TypeExpr, TameExpr, CodeSize, Eval, Yields, CodeAt, ExprSteps;
    var top := Frontier(gEnd, cur);
    var p := PlanShort(gEnd, env, cur, m.pc, e);
    ShortLayout(w, im, gEnd, env, cur, s, m, e);
    AtExprFacts(w, im, gEnd, env, cur, s, m, e);
    Operands(w, s, env, e);
    ShortRight(gEnd, env, cur, m.pc, e);
    GoesBasics(w, im, top, m, a, s, m1);
    var m2 := ShortTest(w, im, top, s, m1, e.bop.OrElse?, p.tmp, p.skip, m.stack, x);
    GoesTrans(w, im, top, m, a, s, m1, top, 3, s, m2);
    GoesBasics(w, im, top, m, a + 3, s, m2);
    var k, m3 := ShortTail(w, im, gEnd, env, cur, s, m, e, p, x, m2);
    YieldsAfter(w, im, top, m, a + 3, s, m2, top, Eval(w, s, e), p.skip + 4, m.stack, k, m3);
    n, m' := a + 3 + k, m3;
  }
}
