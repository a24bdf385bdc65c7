/** Control at the start of a piece of statement code: what must hold there, what holds
    afterwards, and how pieces compose. */
module Place {
  import opened Ir
  import opened Vm
  import opened St
  import opened Lower
  import opened Scope
  import opened Simulation
  import opened ExprCorrect

  // ----- the stores a run makes -----

  function TypeWidth(env: Env, e: Expr): nat
  {
    var t := TypeExpr(env, e);
    if t.Accept? then ByteWidth(t.value) else 0
  }

  /** A value no wider than the variable it is written to; output slots take any value. */
  ghost predicate StoreFits(w: World, x: string, v: Value)
  {
    InData(w.env, x) || InRetain(w.env, x) ==> Width(v) <= ByteWidth(w.env[x].ty)
  }

  /** An operand that is saved in scratch of `width` bytes. */
  ghost predicate TameSaved(w: World, s: State, e: Expr, width: nat)
  {
    TameExpr(w, s, e) && (Eval(w, s, e).Ok? ==> Width(Eval(w, s, e).value) <= width)
  }

  function ForLimit(st: Stmt): nat
    requires st.For?
  {
    var cap := ForCap(st.first, st.last, st.step, st.maxIter);
    if cap.Accept? then cap.value else 0
  }

  function StepExpr(st: Stmt): Expr
    requires st.For?
  {
    if st.step.Some? then st.step.value else Literal(IntLit(1))
  }

  /** Executed from this state, the statement makes only stores that fit: no value is wider
      than the variable or the scratch slot that receives it. */
  ghost predicate TameStmt(w: World, s: State, st: Stmt)
    decreases st, 0, 0
  {
    match st
    case Empty => true
    case Return => true
    case Assign(lhs, rhs) =>
      TameExpr(w, s, rhs) && (Eval(w, s, rhs).Ok? && lhs.Name? ==> StoreFits(w, lhs.name, Eval(w, s, rhs).value))
    case If(branches, els) =>
      TameBranches(w, s, branches) && (ExecBranches(w, s, branches).None? ==> TameElse(w, s, els))
    case Case(selector, arms, els) =>
      && TameSaved(w, s, selector, TypeWidth(w.env, selector))
      && var v := Eval(w, s, selector);
         v.Ok? ==> TameArms(w, s, v.value, arms) && (ExecArms(w, s, v.value, arms).None? ==> TameElse(w, s, els))
    case While(cond, maxIter, body) => TameWhile(w, s, cond, body, if maxIter.Some? then maxIter.value else 0)
    case For(x, first, last, _, _, body) =>
      && TameExpr(w, s, first)
      && var a := Eval(w, s, first);
         a.Ok? ==>
           && StoreFits(w, x, a.value)
           && var f := Write(w, s, x, a.value);
              f.Next? ==>
                && TameSaved(w, f.s, last, 4) && TameSaved(w, f.s, StepExpr(st), 4)
                && var b, c := Eval(w, f.s, last), Eval(w, f.s, StepExpr(st));
                   b.Ok? && c.Ok? ==> TameFor(w, f.s, x, b.value, c.value, body, ForLimit(st))
  }

  ghost predicate TameSeq(w: World, s: State, ss: seq<Stmt>)
    decreases ss, 0, 0
  {
    ss != [] ==>
      TameStmt(w, s, ss[0]) && var f := Exec(w, s, ss[0]); f.Next? ==> TameSeq(w, f.s, ss[1..])
  }

  ghost predicate TameElse(w: World, s: State, els: Else)
    decreases els, 0, 0
  {
    els.Else? ==> TameSeq(w, s, els.body)
  }

  ghost predicate TameBranches(w: World, s: State, bs: seq<Branch>)
    decreases bs, 0, 0
  {
    bs != [] ==>
      && TameExpr(w, s, bs[0].cond)
      && var c := Eval(w, s, bs[0].cond);
         c.Ok? ==> if AsBool(c.value) then TameSeq(w, s, bs[0].body) else TameBranches(w, s, bs[1..])
  }

  ghost predicate TameArms(w: World, s: State, sel: Value, arms: seq<Arm>)
    decreases arms, 0, 0
  {
    arms != [] ==>
      if ArmTaken(sel, arms[0].labels) then TameSeq(w, s, arms[0].body) else TameArms(w, s, sel, arms[1..])
  }

  ghost predicate TameWhile(w: World, s: State, cond: Expr, body: seq<Stmt>, k: nat)
    decreases body, 1, k
  {
    k > 0 ==>
      && TameExpr(w, s, cond)
      && var c := Eval(w, s, cond);
         c.Ok? && AsBool(c.value) ==>
           TameSeq(w, s, body) && var f := ExecSeq(w, s, body); f.Next? ==> TameWhile(w, f.s, cond, body, k - 1)
  }

  ghost predicate TameFor(w: World, s: State, x: string, limit: Value, step: Value, body: seq<Stmt>, k: nat)
    decreases body, 1, k, 0
  {
    k > 0 && x in s.vars ==>
      var past := Compare(w.platform, Gt, s.vars[x], limit);
      past.Ok? && !AsBool(past.value) ==>
        TameSeq(w, s, body) && var f := ExecSeq(w, s, body); f.Next? ==> TameStep(w, f.s, x, limit, step, body, k - 1)
  }

  /** The addition at the end of an iteration, and the iterations that follow. */
  ghost predicate TameStep(w: World, s: State, x: string, limit: Value, step: Value, body: seq<Stmt>, k: nat)
    decreases body, 1, k, 1
  {
    x in s.vars ==>
      var v := Arith(w.platform, Add, s.vars[x], step);
      v.Ok? ==>
        && StoreFits(w, x, v.value)
        && var g := Write(w, s, x, v.value);
           g.Next? ==> TameFor(w, g.s, x, limit, step, body, k)
  }

  /** What an expression was typed as stays its type when names are added. */
  lemma {:induction false} TypeInLarger(env: Env, full: Env, e: Expr)
    requires SubEnv(env, full) && TypeExpr(env, e).Accept?
    ensures TypeExpr(full, e) == TypeExpr(env, e)
    decreases e
  {
    match e {
      case Unary(_, arg) => TypeInLarger(env, full, arg);
      case Binary(op, left, right) =>
        TypeInLarger(env, full, left);
        TypeInLarger(env, full, right);
      case _ =>
    }
  }

  // ----- regions -----

  /** A region of code that starts in scope (env, cur) and ends in (env', cur'), inside a
      program whose final scope is `full` and whose data segment has `len` bytes. */
  ghost predicate Region(full: Env, gEnd: nat, env: Env, cur: nat, env': Env, cur': nat, len: nat)
  {
    && Scoped(gEnd, env, cur) && Grows(gEnd, env, cur, env', cur')
    && Fits(gEnd, full, env', cur') && cur' <= len
  }

  lemma RegionSplit(full: Env, gEnd: nat, env: Env, cur: nat, e1: Env, c1: nat, env': Env, cur': nat, len: nat)
    requires Region(full, gEnd, env, cur, env', cur', len)
    requires Extends(gEnd, env, cur, e1, c1) && Extends(gEnd, e1, c1, env', cur')
    ensures Region(full, gEnd, env, cur, e1, c1, len)
    ensures Region(full, gEnd, e1, c1, env', cur', len)
  {
    FitsBefore(gEnd, full, e1, c1, env', cur');
  }

  /** Scratch taken in a region without new names is free, and so is everything typed in it known. */
  lemma RegionFree(full: Env, gEnd: nat, env: Env, cur: nat, cur': nat, len: nat)
    requires Region(full, gEnd, env, cur, env, cur', len)
    ensures SubEnv(env, full) && Free(full, Frontier(gEnd, cur), cur') && cur' <= len
  {
    FreeBetween(gEnd, full, env, cur, cur');
  }

  lemma RegionNames(full: Env, gEnd: nat, env: Env, cur: nat, env': Env, cur': nat, len: nat)
    requires Region(full, gEnd, env, cur, env', cur', len)
    ensures SubEnv(env, full) && SubEnv(env', full) && cur' <= len
  {}

  // ----- before and after a piece of code -----

  ghost predicate At(w: World, im: Image, gEnd: nat, env: Env, cur: nat, s: State, m: Machine, b: Block)
  {
    && im.platform == w.platform
    && Holds(w, s, m) && NeverOverflows(im, m)
    && m.stack == []
    && Region(w.env, gEnd, env, cur, b.env, b.cur, |m.data.bytes|)
    && CodeAt(im.code, m.pc, b.ins)
  }

  /** The code ended the way the statement does. */
  ghost predicate Done(w: World, im: Image, top: nat, m: Machine, f: Flow, pc: nat, n: nat, m': Machine)
  {
    m.Valid() &&
    match f
    case Next(s) => Goes(w, im, top, m, n, s, m') && m'.pc == pc && m'.stack == []
    case Stop(s) => Run(im, m, n) == Returned(m') && Holds(w, s, m')
    case Fault(t) => Run(im, m, n) == Trapped(t)
  }

  lemma DoneAfter(w: World, im: Image, top: nat, m: Machine, a: nat, s: State, m1: Machine,
                  top': nat, f: Flow, pc: nat, b: nat, m2: Machine)
    requires top <= top' && Goes(w, im, top, m, a, s, m1) && Done(w, im, top', m1, f, pc, b, m2)
    ensures Done(w, im, top, m, f, pc, a + b, m2)
  {
    hide Goes, Holds, Run;
    GoesThen(w, im, top, m, a, s, m1, b);
    if f.Next? { GoesTrans(w, im, top, m, a, s, m1, top', b, f.s, m2); }
  }

  lemma DoneLower(w: World, im: Image, top: nat, top': nat, m: Machine, f: Flow, pc: nat, n: nat, m': Machine)
    requires top <= top' && Done(w, im, top', m, f, pc, n, m')
    ensures Done(w, im, top, m, f, pc, n, m')
  {
    hide Holds, Run;
  }

  /** A trapping operand faults the statement. */
  lemma DoneTrap(w: World, im: Image, top: nat, top': nat, s: State, m: Machine, t: Trap, pc: nat, pc': nat, rest: seq<Value>, n: nat, m': Machine)
    requires Yields(w, im, top, s, m, Err(t), pc, rest, n, m')
    ensures Done(w, im, top', m, Fault(t), pc', n, m')
  {
    hide Run;
  }

  lemma DoneHere(w: World, im: Image, top: nat, s: State, m: Machine)
    requires Holds(w, s, m) && m.stack == []
    ensures Done(w, im, top, m, Next(s), m.pc, 0, m)
  {
    hide LayoutOk, VarsHeld, Typed;
  }

  /** An operand inside a statement. */
  lemma OperandRuns(w: World, im: Image, gEnd: nat, env: Env, cur: nat, s: State, m: Machine, e: Expr) returns (n: nat, m': Machine)
    requires im.platform == w.platform && Holds(w, s, m) && NeverOverflows(im, m) && m.stack == []
    requires TypeExpr(env, e).Accept? && TameExpr(w, s, e)
    requires Region(w.env, gEnd, env, cur, env, LowerExpr(gEnd, env, cur, m.pc, e).cur, |m.data.bytes|)
    requires CodeAt(im.code, m.pc, LowerExpr(gEnd, env, cur, m.pc, e).ins)
    ensures n <= ExprSteps(e)
    ensures Yields(w, im, Frontier(gEnd, cur), s, m, Eval(w, s, e),
                   m.pc + CodeSize(LowerExpr(gEnd, env, cur, m.pc, e).ins), [], n, m')
  {
    hide Holds, LowerExpr, TypeExpr, Eval, SubEnv, Region, CodeAt, TameExpr, Yields, NeverOverflows;
    RegionFree(w.env, gEnd, env, cur, LowerExpr(gEnd, env, cur, m.pc, e).cur, |m.data.bytes|);
    MakeAtExpr(w, im, gEnd, env, cur, s, m, e);
    n, m' := ExprRuns(w, im, gEnd, env, cur, s, m, e);
  }

  // ----- short instruction groups -----

  /** Compares or combines a scratch slot with a constant. */
  lemma SlotConst(w: World, im: Image, top: nat, s: State, m: Machine, off: nat, v: Value, k: int, op: Opcode)
    returns (m': Machine)
    requires im.platform == w.platform && Holds(w, s, m) && m.stack == [] && IsBinary(op)
    requires CodeAt(im.code, m.pc, [Simple(LdData, off), WithImm32(PushIDint, 0, k % 0x1_0000_0000), Simple(op, 0)])
    requires Load(m.data, off) == Some(v) && Binop(w.platform, op, v, Dint(Wrap32(k))).Ok?
    ensures m' == m.(pc := m.pc + 16, stack := [Binop(w.platform, op, v, Dint(Wrap32(k))).value])
    ensures Goes(w, im, top, m, 3, s, m')
  {
    hide Holds, Goes, CodeAt, Load, Decode, Binop, IsBinary;
    CodeAtThree(im.code, m.pc, Simple(LdData, off), PushLiteral(IntLit(k)), Simple(op, 0));
    var m1 := LoadGoes(w, im, top, s, m, off, v);
    GoesBasics(w, im, top, m, 1, s, m1);
    var m2 := PushLiteralGoes(w, im, top, s, m1, IntLit(k));
    GoesTrans(w, im, top, m, 1, s, m1, top, 1, s, m2);
    GoesBasics(w, im, top, m, 2, s, m2);
    assert m2.stack == [] + [v, Dint(Wrap32(k))];
    m' := OperatorGoes(w, im, top, s, m2, op, [], v, Dint(Wrap32(k)));
    GoesTrans(w, im, top, m, 2, s, m2, top, 1, s, m');
  }

  /** Combines two data cells. */
  lemma SlotSlot(w: World, im: Image, top: nat, s: State, m: Machine, a: nat, x: Value, b: nat, y: Value, op: Opcode)
    returns (m': Machine)
    requires im.platform == w.platform && Holds(w, s, m) && m.stack == [] && IsBinary(op)
    requires CodeAt(im.code, m.pc, [Simple(LdData, a), Simple(LdData, b), Simple(op, 0)])
    requires Load(m.data, a) == Some(x) && Load(m.data, b) == Some(y)
    ensures m.Valid()
    ensures var r := Binop(w.platform, op, x, y);
            if r.Err? then Run(im, m, 3) == Trapped(r.trap)
            else m' == m.(pc := m.pc + 12, stack := [r.value]) && Goes(w, im, top, m, 3, s, m')
  {
    hide Holds, Goes, CodeAt, Load, Decode, Binop, IsBinary, Run;
    CodeAtThree(im.code, m.pc, Simple(LdData, a), Simple(LdData, b), Simple(op, 0));
    var m1 := LoadGoes(w, im, top, s, m, a, x);
    GoesBasics(w, im, top, m, 1, s, m1);
    var m2 := LoadGoes(w, im, top, s, m1, b, y);
    GoesTrans(w, im, top, m, 1, s, m1, top, 1, s, m2);
    GoesBasics(w, im, top, m, 2, s, m2);
    assert m2.stack == [] + [x, y];
    m' := OperatorGoes(w, im, top, s, m2, op, [], x, y);
    GoesThen(w, im, top, m, 2, s, m2, 1);
    if Binop(w.platform, op, x, y).Ok? { GoesTrans(w, im, top, m, 2, s, m2, top, 1, s, m'); }
  }

  /** The counter of a loop holds the number of iterations left, as a 32-bit value. */
  function CounterValue(k: nat): Value { Dint(Wrap32(k)) }

  lemma CounterZero(pf: Platform, k: nat)
    requires k < 0x1_0000_0000
    ensures Binop(pf, Eq, CounterValue(k), Dint(Wrap32(0))) == Ok(Bool(k == 0))
  {}

  lemma WrapPredecessor(k: nat)
    requires k > 0
    ensures Wrap32(Wrap32(k) - 1) == Wrap32(k - 1)
  {
    var n := 0x1_0000_0000;
    var q, m := k / n, k % n;
    assert k - 1 == q * n + (m - 1);
    if m == 0 {
      assert k - 1 == (q - 1) * n + (n - 1);
      assert (k - 1) % n == n - 1;
    } else {
      assert (k - 1) % n == m - 1;
    }
  }

  lemma CounterMinusOne(pf: Platform, k: nat)
    requires k > 0
    ensures Binop(pf, Sub, CounterValue(k), Dint(Wrap32(1))) == Ok(CounterValue(k - 1))
  {
    WrapPredecessor(k);
    assert Wrap32(1) == 1;
    hide Wrap32;
  }

  /** At the loop head: on to the body, or out when the counter is used up. */
  lemma TestCounter(w: World, im: Image, top: nat, s: State, m: Machine, counter: nat, k: nat, end: nat)
    returns (m': Machine)
    requires im.platform == w.platform && Holds(w, s, m) && m.stack == [] && k < 0x1_0000_0000
    requires CodeAt(im.code, m.pc, CounterTest(counter, end)) && Load(m.data, counter) == Some(CounterValue(k))
    ensures m' == m.(pc := if k == 0 then end else m.pc + 20)
    ensures Goes(w, im, top, m, 4, s, m')
  {
    hide Holds, Goes, CodeAt, Load, Decode, Binop;
    CounterZero(w.platform, k);
    var head := [Simple(LdData, counter), WithImm32(PushIDint, 0, 0), Simple(Eq, 0)];
    assert CounterTest(counter, end) == head + [Simple(JmpIf, end)];
    CodeAtSplit(im.code, m.pc, head, [Simple(JmpIf, end)]);
    CodeAtThree(im.code, m.pc, head[0], head[1], head[2]);
    CodeAtOne(im.code, m.pc + 16, Simple(JmpIf, end));
    var m1 := SlotConst(w, im, top, s, m, counter, CounterValue(k), 0, Eq);
    GoesBasics(w, im, top, m, 3, s, m1);
    assert m1.stack == [] + [Bool(k == 0)];
    m' := BranchGoes(w, im, top, s, m1, JmpIf, end, [], Bool(k == 0));
    GoesTrans(w, im, top, m, 3, s, m1, top, 1, s, m');
  }

  /** At the loop end: one iteration fewer, back to the head. */
  lemma CountsDown(w: World, im: Image, top: nat, s: State, m: Machine, counter: nat, k: nat, head: nat)
    returns (m': Machine)
    requires im.platform == w.platform && Holds(w, s, m) && m.stack == [] && k > 0
    requires CodeAt(im.code, m.pc, CountDown(counter, head)) && Load(m.data, counter) == Some(CounterValue(k))
    requires Free(w.env, counter, counter + 4) && counter + 4 <= |m.data.bytes| && top <= counter
    ensures Goes(w, im, top, m, 5, s, m') && m'.pc == head && m'.stack == []
    ensures m'.data.Valid() && Load(m'.data, counter) == Some(CounterValue(k - 1))
  {
    hide Holds, Goes, CodeAt, Load, Decode, Binop, Free;
    CounterMinusOne(w.platform, k);
    var sub := [Simple(LdData, counter), WithImm32(PushIDint, 0, 1), Simple(Sub, 0)];
    var tail := [Simple(StData, counter), Simple(Jmp, head)];
    assert CountDown(counter, head) == sub + tail;
    CodeAtSplit(im.code, m.pc, sub, tail);
    CodeAtThree(im.code, m.pc, sub[0], sub[1], sub[2]);
    CodeAtTwo(im.code, m.pc + 16, tail[0], tail[1]);
    var m1 := SlotConst(w, im, top, s, m, counter, CounterValue(k), 1, Sub);
    GoesBasics(w, im, top, m, 3, s, m1);
    assert m1.stack == [] + [CounterValue(k - 1)];
    var m2 := StoreScratchGoes(w, im, top, s, m1, counter, [], CounterValue(k - 1));
    GoesTrans(w, im, top, m, 3, s, m1, top, 1, s, m2);
    GoesBasics(w, im, top, m, 4, s, m2);
    m' := JumpGoes(w, im, top, s, m2, head);
    GoesTrans(w, im, top, m, 4, s, m2, top, 1, s, m');
  }

  /** Before the loop: the counter starts at the cap. */
  lemma StartsCounter(w: World, im: Image, top: nat, s: State, m: Machine, counter: nat, cap: nat) returns (m': Machine)
    requires Holds(w, s, m) && m.stack == []
    requires CodeAt(im.code, m.pc, StartCounter(cap, counter))
    requires Free(w.env, counter, counter + 4) && counter + 4 <= |m.data.bytes| && top <= counter
    ensures Goes(w, im, top, m, 2, s, m') && m'.pc == m.pc + 12 && m'.stack == []
    ensures m'.data.Valid() && Load(m'.data, counter) == Some(CounterValue(cap))
  {
    hide Holds, Goes, CodeAt, Load, Decode, Free;
    CodeAtTwo(im.code, m.pc, PushLiteral(IntLit(cap)), Simple(StData, counter));
    var m1 := PushLiteralGoes(w, im, top, s, m, IntLit(cap));
    GoesBasics(w, im, top, m, 1, s, m1);
    assert m1.stack == [] + [CounterValue(cap)];
    m' := StoreScratchGoes(w, im, top, s, m1, counter, [], CounterValue(cap));
    GoesTrans(w, im, top, m, 1, s, m1, top, 1, s, m');
  }
}
