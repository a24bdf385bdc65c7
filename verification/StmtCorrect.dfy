/** Statement code does what the statement means: every statement, every state. */
module StmtCorrect {
  import opened Bytes
  import opened Ir
  import opened Vm
  import opened St
  import opened Lower
  import opened Sizes
  import opened Unfold
  import opened Check
  import opened Scope
  import opened Simulation
  import opened ExprCorrect
  import opened Place

  // ----- how long a statement can run -----

  function StmtSteps(s: Stmt): nat
    decreases s, 0
  {
    match s
    case Empty => 0
    case Return => 1
    case Assign(_, rhs) => ExprSteps(rhs) + 1
    case If(branches, els) => BranchesSteps(branches) + ElseSteps(els)
    case Case(selector, arms, els) => ExprSteps(selector) + 1 + ArmsSteps(arms) + ElseSteps(els)
    case While(cond, maxIter, body) =>
      2 + Laps(if maxIter.Some? then maxIter.value else 0, ExprSteps(cond) + SeqSteps(body) + 10)
    case For(_, first, last, step, maxIter, body) =>
      var cap := ForCap(first, last, step, maxIter);
      ExprSteps(first) + ExprSteps(last) + (if step.Some? then ExprSteps(step.value) else 1) + 5
      + Laps(if cap.Accept? then cap.value else 0, SeqSteps(body) + 17)
  }

  /** `k` iterations and the final test. */
  function Laps(k: nat, per: nat): nat { if k == 0 then per else per + Laps(k - 1, per) }

  function SeqSteps(ss: seq<Stmt>): nat
    decreases ss, 0
  {
    if ss == [] then 0 else StmtSteps(ss[0]) + SeqSteps(ss[1..])
  }

  function ElseSteps(els: Else): nat
    decreases els, 0
  {
    if els.Else? then SeqSteps(els.body) else 0
  }

  function BranchesSteps(bs: seq<Branch>): nat
    decreases bs, 0
  {
    if bs == [] then 0 else ExprSteps(bs[0].cond) + SeqSteps(bs[0].body) + 2 + BranchesSteps(bs[1..])
  }

  function ArmsSteps(arms: seq<Arm>): nat
    decreases arms, 0
  {
    if arms == [] then 0 else 4 * |arms[0].labels| + SeqSteps(arms[0].body) + 1 + ArmsSteps(arms[1..])
  }

  lemma {:induction false} LapsProduct(k: nat, per: nat)
    ensures Laps(k, per) == (k + 1) * per
  {
    if k > 0 { LapsProduct(k - 1, per); }
  }

  // ----- assignment -----

  lemma OutputWritten(w: World, s: State, m: Machine, x: string, v: Value)
    requires Holds(w, s, m) && InOutput(w.env, x) && w.env[x].slot < |s.outputs|
    ensures |s.outputs| == |s.written|
    ensures var slot := w.env[x].slot;
            Holds(w, s.(outputs := s.outputs[slot := v], written := s.written[slot := true]),
                  m.(outputs := m.outputs[slot := v], written := m.written[slot := true]))
  {
    hide VarsHeld, Load, DataDisjoint;
  }

  /** The store that ends an assignment. */
  lemma TargetRuns(w: World, im: Image, top: nat, env: Env, s: State, m: Machine, x: string, v: Value) returns (m': Machine)
    requires Holds(w, s, m) && m.stack == [v] && SubEnv(env, w.env)
    requires CheckTarget(env, Name(x)).Accept? && StoreFits(w, x, v)
    requires DecodesTo(im.code, m.pc, StoreName(env, Name(x)))
    ensures Done(w, im, top, m, Write(w, s, x, v), m.pc + 4, 1, m')
  {
    hide Holds, Goes, Decode, Load, Store, Same, Run, StepInstr;
    HoldsBasics(w, s, m);
    HoldsImages(w, s, m);
    var i := StoreName(env, Name(x));
    OneStep(im, m, i);
    assert m.stack == [] + [v] && Drop(m, 1).stack == [];
    m' := m;
    match env[x] {
      case Output(slot, _) => m' := OutputTarget(w, im, top, s, m, x, v);
      case Data(off, _) =>
        StoreData(w, s, m, x, v, top);
        StoreStep(im, m, off, [], v);
        var m1 := m.(data := Store(m.data, off, v).value);
        m' := m1.(stack := [], pc := m.pc + 4);
        assert m' == m.(stack := [], pc := m.pc + 4, data := Store(m.data, off, v).value);
        HoldsAfterMove(w, s.(vars := s.vars[x := v]), m1, m.pc + 4, []);
        MakeGoes(w, im, top, m, 1, s.(vars := s.vars[x := v]), m');
      case Retain(off, _) => m' := RetainTarget(w, im, top, s, m, x, v);
    }
  }

  lemma MakeGoes(w: World, im: Image, top: nat, m: Machine, n: nat, s: State, m': Machine)
    requires m.Valid() && Run(im, m, n) == Running(m') && Holds(w, s, m') && Same(w.env, top, m.data, m'.data)
    ensures Goes(w, im, top, m, n, s, m')
  {}

  lemma SameData(env: Env, top: nat, a: Segment)
    requires a.Valid()
    ensures Same(env, top, a, a)
  {}

  lemma OutputTarget(w: World, im: Image, top: nat, s: State, m: Machine, x: string, v: Value) returns (m': Machine)
    requires Holds(w, s, m) && m.stack == [v] && InOutput(w.env, x)
    requires DecodesTo(im.code, m.pc, Simple(StQ, w.env[x].slot))
    ensures Done(w, im, top, m, Write(w, s, x, v), m.pc + 4, 1, m')
  {
    hide Holds, Goes, Decode, Same, Run;
    HoldsBasics(w, s, m);
    HoldsImages(w, s, m);
    var slot := w.env[x].slot;
    OneStep(im, m, Simple(StQ, slot));
    assert m.stack == [] + [v] && Drop(m, 1).stack == [];
    m' := m;
    if slot < |s.outputs| {
      OutputWritten(w, s, m, x, v);
      var m1 := m.(outputs := m.outputs[slot := v], written := m.written[slot := true]);
      m' := m1.(stack := [], pc := m.pc + 4);
      var s' := Write(w, s, x, v).s;
      HoldsAfterMove(w, s', m1, m.pc + 4, []);
      SameData(w.env, top, m.data);
      MakeGoes(w, im, top, m, 1, s', m');
    }
  }

  lemma RetainTarget(w: World, im: Image, top: nat, s: State, m: Machine, x: string, v: Value) returns (m': Machine)
    requires Holds(w, s, m) && m.stack == [v] && InRetain(w.env, x) && Width(v) <= ByteWidth(w.env[x].ty)
    requires DecodesTo(im.code, m.pc, Simple(StRetain, w.env[x].offset))
    ensures Done(w, im, top, m, Write(w, s, x, v), m.pc + 4, 1, m')
  {
    hide Holds, Goes, Decode, Same, Run, Store;
    HoldsBasics(w, s, m);
    RetainLen(w, s, m);
    var off := w.env[x].offset;
    OneStep(im, m, Simple(StRetain, off));
    assert m.stack == [] + [v] && Drop(m, 1).stack == [];
    StoreRetained(w, s, m, x, v);
    var m1 := m.(retain := Store(m.retain, off, v).value, retainDirty := true);
    m' := m1.(stack := [], pc := m.pc + 4);
    assert StepInstr(im, m, Simple(StRetain, off)) == Running(m');
    var s' := Write(w, s, x, v).s;
    HoldsAfterMove(w, s', m1, m.pc + 4, []);
    SameData(w.env, top, m.data);
    MakeGoes(w, im, top, m, 1, s', m');
  }

  lemma RetainLen(w: World, s: State, m: Machine)
    requires Holds(w, s, m)
    ensures |m.retain.bytes| <= 0x100_0000
  {}

  /** An expression and the store of its value to a name. */
  lemma StoresTo(w: World, im: Image, gEnd: nat, env: Env, cur: nat, s: State, m: Machine, e: Expr, x: string)
    returns (n: nat, m': Machine)
    requires im.platform == w.platform && Holds(w, s, m) && NeverOverflows(im, m) && m.stack == []
    requires TypeExpr(env, e).Accept? && TameExpr(w, s, e) && (Eval(w, s, e).Ok? ==> StoreFits(w, x, Eval(w, s, e).value))
    requires Region(w.env, gEnd, env, cur, env, LowerExpr(gEnd, env, cur, m.pc, e).cur, |m.data.bytes|)
    requires CodeAt(im.code, m.pc, LowerExpr(gEnd, env, cur, m.pc, e).ins)
    requires CheckTarget(env, Name(x)).Accept?
    requires DecodesTo(im.code, m.pc + CodeSize(LowerExpr(gEnd, env, cur, m.pc, e).ins), StoreName(env, Name(x)))
    ensures n <= ExprSteps(e) + 1
    ensures var v := Eval(w, s, e);
            Done(w, im, Frontier(gEnd, cur), m, if v.Err? then Fault(v.trap) else Write(w, s, x, v.value),
                 m.pc + CodeSize(LowerExpr(gEnd, env, cur, m.pc, e).ins) + 4, n, m')
  {
    hide Holds, Goes, Decode, CodeAt, Region, LowerExpr, Eval, TypeExpr, Write, StoreName, CheckTarget, StoreFits, TameExpr, NeverOverflows, Done, SubEnv;
    var top := Frontier(gEnd, cur);
    var size := CodeSize(LowerExpr(gEnd, env, cur, m.pc, e).ins);
    n, m' := OperandRuns(w, im, gEnd, env, cur, s, m, e);
    var v := Eval(w, s, e);
    if v.Err? {
      DoneTrap(w, im, top, top, s, m, v.trap, m.pc + size, m.pc + size + 4, [], n, m');
    } else {
      var m1 := m';
      GoesBasics(w, im, top, m, n, s, m1);
      RegionFree(w.env, gEnd, env, cur, LowerExpr(gEnd, env, cur, m.pc, e).cur, |m.data.bytes|);
      m' := TargetRuns(w, im, top, env, s, m1, x, v.value);
      DoneAfter(w, im, top, m, n, s, m1, top, Write(w, s, x, v.value), m1.pc + 4, 1, m');
      n := n + 1;
    }
  }

  lemma AssignRuns(w: World, im: Image, gEnd: nat, env: Env, cur: nat, s: State, m: Machine, st: Stmt)
    returns (n: nat, m': Machine)
    requires st.Assign?
    requires At(w, im, gEnd, env, cur, s, m, LowerStmt(gEnd, env, cur, m.pc, st))
    requires CheckStmt(gEnd, env, cur, m.pc, st).Accept? && TameStmt(w, s, st)
    ensures n <= StmtSteps(st)
    ensures Done(w, im, Frontier(gEnd, cur), m, Exec(w, s, st), m.pc + CodeSize(LowerStmt(gEnd, env, cur, m.pc, st).ins), n, m')
  {
    hide Holds, Goes, Decode, CodeAt, Region, LowerExpr, Eval, TypeExpr, Write, Done, SubEnv;
    var v := LowerExpr(gEnd, env, cur, m.pc, st.rhs);
    var i := StoreName(env, st.lhs);
    CodeAtSplit(im.code, m.pc, v.ins, [i]);
    CodeSizeAppend(v.ins, [i]);
    CodeAtOne(im.code, m.pc + CodeSize(v.ins), i);
    RegionNames(w.env, gEnd, env, cur, env, v.cur, |m.data.bytes|);
    TargetInLarger(env, w.env, st.lhs);
    assert st.lhs == Name(st.lhs.name);
    n, m' := StoresTo(w, im, gEnd, env, cur, s, m, st.rhs, st.lhs.name);
  }

  lemma TargetInLarger(env: Env, full: Env, lhs: Expr)
    requires SubEnv(env, full) && CheckTarget(env, lhs).Accept?
    ensures CheckTarget(full, lhs) == CheckTarget(env, lhs)
  {}

  // ----- sequences -----

  lemma {:induction false} SeqRuns(w: World, im: Image, gEnd: nat, env: Env, cur: nat, s: State, m: Machine, ss: seq<Stmt>)
    returns (n: nat, m': Machine)
    requires At(w, im, gEnd, env, cur, s, m, LowerSeq(gEnd, env, cur, m.pc, ss))
    requires CheckSeq(gEnd, env, cur, m.pc, ss).Accept? && TameSeq(w, s, ss)
    ensures n <= SeqSteps(ss)
    ensures Done(w, im, Frontier(gEnd, cur), m, ExecSeq(w, s, ss), m.pc + CodeSize(LowerSeq(gEnd, env, cur, m.pc, ss).ins), n, m')
    decreases ss, 2
  {
    hide Holds, Goes, CodeAt, Region, LowerStmt, Exec, CheckStmt, TameStmt, StmtSteps, Run;
    if ss == [] {
      n, m' := 0, m;
      DoneHere(w, im, Frontier(gEnd, cur), s, m);
    } else {
      hide Done, CodeSize, At, LowerSeq, CheckSeq, TameSeq, ExecSeq, SeqSteps;
      var a := LowerStmt(gEnd, env, cur, m.pc, ss[0]);
      SeqLayout(w, im, gEnd, env, cur, s, m, ss);
      SeqParts(w, s, gEnd, env, cur, m.pc, ss);
      n, m' := StmtRuns(w, im, gEnd, env, cur, s, m, ss[0]);
      var f := Exec(w, s, ss[0]);
      if !f.Next? {
        StopsLower(w, im, Frontier(gEnd, cur), Frontier(gEnd, cur), m, f, m.pc + CodeSize(a.ins),
                   m.pc + CodeSize(LowerSeq(gEnd, env, cur, m.pc, ss).ins), n, m');
      } else {
        var k, m2 := RestRuns(w, im, gEnd, Frontier(gEnd, cur), a.env, a.cur, f.s, m, m.pc + CodeSize(a.ins), ss[1..], n, m');
        n, m' := n + k, m2;
      }
    }
  }

  lemma SeqParts(w: World, s: State, gEnd: nat, env: Env, cur: nat, pc: nat, ss: seq<Stmt>)
    requires ss != [] && CheckSeq(gEnd, env, cur, pc, ss).Accept? && TameSeq(w, s, ss)
    ensures CheckStmt(gEnd, env, cur, pc, ss[0]).Accept? && TameStmt(w, s, ss[0])
    ensures var a := LowerStmt(gEnd, env, cur, pc, ss[0]);
            CheckSeq(gEnd, a.env, a.cur, pc + CodeSize(a.ins), ss[1..]).Accept?
    ensures var f := Exec(w, s, ss[0]);
            if f.Next? then TameSeq(w, f.s, ss[1..]) && ExecSeq(w, s, ss) == ExecSeq(w, f.s, ss[1..]) else ExecSeq(w, s, ss) == f
    ensures SeqSteps(ss) == StmtSteps(ss[0]) + SeqSteps(ss[1..])
  {
    hide LowerStmt, CheckStmt, TameStmt, Exec, StmtSteps, CodeSize;
  }

  lemma SeqLayout(w: World, im: Image, gEnd: nat, env: Env, cur: nat, s: State, m: Machine, ss: seq<Stmt>)
    requires ss != [] && At(w, im, gEnd, env, cur, s, m, LowerSeq(gEnd, env, cur, m.pc, ss))
    ensures var a := LowerStmt(gEnd, env, cur, m.pc, ss[0]);
            var restPc := m.pc + CodeSize(a.ins);
            var rest := LowerSeq(gEnd, a.env, a.cur, restPc, ss[1..]);
            && At(w, im, gEnd, env, cur, s, m, a)
            && Region(w.env, gEnd, a.env, a.cur, rest.env, rest.cur, |m.data.bytes|)
            && CodeAt(im.code, restPc, rest.ins) && im.platform == w.platform && NeverOverflows(im, m)
            && CodeSize(LowerSeq(gEnd, env, cur, m.pc, ss).ins) == CodeSize(a.ins) + CodeSize(rest.ins)
            && Frontier(gEnd, cur) <= Frontier(gEnd, a.cur)
  {
    hide Holds, CodeAt, Region, LowerStmt, Extends, CodeSize;
    var a := LowerStmt(gEnd, env, cur, m.pc, ss[0]);
    var restPc := m.pc + CodeSize(a.ins);
    var rest := LowerSeq(gEnd, a.env, a.cur, restPc, ss[1..]);
    StmtExtends(gEnd, env, cur, m.pc, ss[0]);
    SeqExtends(gEnd, a.env, a.cur, restPc, ss[1..]);
    ExtendsMoves(gEnd, env, cur, a.env, a.cur);
    RegionSplit(w.env, gEnd, env, cur, a.env, a.cur, rest.env, rest.cur, |m.data.bytes|);
    CodeAtSplit(im.code, m.pc, a.ins, rest.ins);
    CodeSizeAppend(a.ins, rest.ins);
  }

  /** The rest of a sequence, after `a` steps that fell through to it. */
  lemma {:induction false} RestRuns(w: World, im: Image, gEnd: nat, top: nat, env: Env, cur: nat, s: State, m: Machine, pc: nat, ss: seq<Stmt>, a: nat, m1: Machine)
    returns (n: nat, m': Machine)
    requires im.platform == w.platform && top <= Frontier(gEnd, cur) && Done(w, im, top, m, Next(s), pc, a, m1) && NeverOverflows(im, m)
    requires var b := LowerSeq(gEnd, env, cur, pc, ss);
            Region(w.env, gEnd, env, cur, b.env, b.cur, |m.data.bytes|) && CodeAt(im.code, pc, b.ins)
    requires CheckSeq(gEnd, env, cur, pc, ss).Accept? && TameSeq(w, s, ss)
    ensures n <= SeqSteps(ss)
    ensures Done(w, im, top, m, ExecSeq(w, s, ss), pc + CodeSize(LowerSeq(gEnd, env, cur, pc, ss).ins), a + n, m')
    decreases ss, 3
  {
    hide Holds, Goes, Region, LowerSeq, CheckSeq, TameSeq, CodeAt, Run, SeqSteps, ExecSeq;
    GoesBasics(w, im, top, m, a, s, m1);
    n, m' := SeqRuns(w, im, gEnd, env, cur, s, m1, ss);
    DoneAfter(w, im, top, m, a, s, m1, Frontier(gEnd, cur), ExecSeq(w, s, ss),
              pc + CodeSize(LowerSeq(gEnd, env, cur, pc, ss).ins), n, m');
  }

  lemma ExtendsMoves(gEnd: nat, env: Env, cur: nat, env': Env, cur': nat)
    requires Extends(gEnd, env, cur, env', cur')
    ensures cur <= cur' && Frontier(gEnd, cur) <= Frontier(gEnd, cur')
  {}

  lemma {:induction false} ElseRuns(w: World, im: Image, gEnd: nat, env: Env, cur: nat, s: State, m: Machine, els: Else)
    returns (n: nat, m': Machine)
    requires At(w, im, gEnd, env, cur, s, m, LowerElse(gEnd, env, cur, m.pc, els))
    requires CheckElse(gEnd, env, cur, m.pc, els).Accept? && TameElse(w, s, els)
    ensures n <= ElseSteps(els)
    ensures Done(w, im, Frontier(gEnd, cur), m, ExecElse(w, s, None, els),
                 m.pc + CodeSize(LowerElse(gEnd, env, cur, m.pc, els).ins), n, m')
    decreases els, 2
  {
    hide Holds, Goes, CodeAt, Region, ExecSeq, LowerSeq, CheckSeq, TameSeq, SeqSteps;
    if els.Else? {
      n, m' := SeqRuns(w, im, gEnd, env, cur, s, m, els.body);
    } else {
      n, m' := 0, m;
      DoneHere(w, im, Frontier(gEnd, cur), s, m);
    }
  }

  // ----- IF -----

  /** The pieces of the first branch and where they stand. */
  datatype BranchPlan = BranchPlan(c: Code, bodyPc: nat, b: Block, leave: seq<Instr>, next: nat, rest: Block)

  function PlanBranch(gEnd: nat, env: Env, cur: nat, pc: nat, bs: seq<Branch>, more: bool, end: nat): BranchPlan
    requires bs != []
  {
    var c := LowerExpr(gEnd, env, cur, pc, bs[0].cond);
    var bodyPc := pc + CodeSize(c.ins) + 4;
    var b := LowerSeq(gEnd, env, c.cur, bodyPc, bs[0].body);
    var leave := Leave(|bs| > 1 || more, end);
    var next := bodyPc + CodeSize(b.ins) + CodeSize(leave);
    BranchPlan(c, bodyPc, b, leave, next, LowerBranches(gEnd, b.env, b.cur, next, bs[1..], more, end))
  }

  lemma BranchLayout(w: World, im: Image, gEnd: nat, env: Env, cur: nat, s: State, m: Machine, bs: seq<Branch>, more: bool, end: nat)
    requires bs != [] && At(w, im, gEnd, env, cur, s, m, LowerBranches(gEnd, env, cur, m.pc, bs, more, end))
    ensures var p := PlanBranch(gEnd, env, cur, m.pc, bs, more, end);
            && CodeSize(LowerBranches(gEnd, env, cur, m.pc, bs, more, end).ins) == p.next - m.pc + CodeSize(p.rest.ins)
            && CodeAt(im.code, m.pc, p.c.ins)
            && DecodesTo(im.code, p.bodyPc - 4, Simple(JmpIfNot, p.next))
            && CodeAt(im.code, p.bodyPc, p.b.ins)
            && CodeAt(im.code, p.next - CodeSize(p.leave), p.leave)
            && CodeAt(im.code, p.next, p.rest.ins)
            && Region(w.env, gEnd, env, cur, env, p.c.cur, |m.data.bytes|)
            && Region(w.env, gEnd, env, p.c.cur, p.b.env, p.b.cur, |m.data.bytes|)
            && Region(w.env, gEnd, p.b.env, p.b.cur, p.rest.env, p.rest.cur, |m.data.bytes|)
            && cur <= p.c.cur <= p.b.cur
  {
    hide Holds, CodeAt, Region, LowerExpr, LowerSeq, Extends, Decode, CodeSize, Leave;
    var p := PlanBranch(gEnd, env, cur, m.pc, bs, more, end);
    var j := Simple(JmpIfNot, p.next);
    var head := p.c.ins + [j] + p.b.ins;
    assert LowerBranches(gEnd, env, cur, m.pc, bs, more, end).ins == head + p.leave + p.rest.ins;
    CodeAtSplit3(im.code, m.pc, head, p.leave, p.rest.ins);
    CodeAtSplit3(im.code, m.pc, p.c.ins, [j], p.b.ins);
    JoinSize(head, p.leave, p.rest.ins);
    JoinSize(p.c.ins, [j], p.b.ins);
    CodeAtOne(im.code, m.pc + CodeSize(p.c.ins), j);
    ExprExtends(gEnd, env, cur, m.pc, bs[0].cond);
    SeqExtends(gEnd, env, p.c.cur, p.bodyPc, bs[0].body);
    BranchesExtend(gEnd, p.b.env, p.b.cur, p.next, bs[1..], more, end);
    ExtendsMoves(gEnd, env, p.c.cur, p.b.env, p.b.cur);
    ExtendsTrans(gEnd, env, p.c.cur, p.b.env, p.b.cur, p.rest.env, p.rest.cur);
    RegionSplit(w.env, gEnd, env, cur, env, p.c.cur, p.rest.env, p.rest.cur, |m.data.bytes|);
    RegionSplit(w.env, gEnd, env, p.c.cur, p.b.env, p.b.cur, p.rest.env, p.rest.cur, |m.data.bytes|);
  }

  /** Where control is after the branches: at `end` if one was taken, else behind them. */
  ghost predicate AfterChoice(w: World, im: Image, top: nat, m: Machine, taken: Option<Flow>, s: State, end: nat, past: nat, n: nat, m': Machine)
  {
    if taken.Some? then Done(w, im, top, m, taken.value, end, n, m') else Done(w, im, top, m, Next(s), past, n, m')
  }

  lemma ChoiceAfter(w: World, im: Image, top: nat, m: Machine, a: nat, s: State, m1: Machine, top': nat,
                    taken: Option<Flow>, end: nat, past: nat, b: nat, m2: Machine)
    requires top <= top' && Goes(w, im, top, m, a, s, m1) && AfterChoice(w, im, top', m1, taken, s, end, past, b, m2)
    ensures AfterChoice(w, im, top, m, taken, s, end, past, a + b, m2)
  {
    hide Done;
    DoneAfter(w, im, top, m, a, s, m1, top', if taken.Some? then taken.value else Next(s),
              if taken.Some? then end else past, b, m2);
  }

  /** A taken branch: its body, then the jump to the end where there is one. */
  lemma {:induction false} TakenRuns(w: World, im: Image, gEnd: nat, env: Env, cur: nat, s: State, m: Machine, body: seq<Stmt>, b: Block,
                                     leave: seq<Instr>, needed: bool, end: nat)
    returns (n: nat, m': Machine)
    requires b == LowerSeq(gEnd, env, cur, m.pc, body) && At(w, im, gEnd, env, cur, s, m, b)
    requires CheckSeq(gEnd, env, cur, m.pc, body).Accept? && TameSeq(w, s, body)
    requires leave == Leave(needed, end) && CodeAt(im.code, m.pc + CodeSize(b.ins), leave)
    requires !needed ==> end == m.pc + CodeSize(b.ins)
    ensures n <= SeqSteps(body) + 1
    ensures Done(w, im, Frontier(gEnd, cur), m, ExecSeq(w, s, body), end, n, m')
    decreases body, 3
  {
    hide Holds, Goes, CodeAt, Region, LowerSeq, CheckSeq, TameSeq, Decode, ExecSeq, Run, At;
    var top := Frontier(gEnd, cur);
    n, m' := SeqRuns(w, im, gEnd, env, cur, s, m, body);
    var f := ExecSeq(w, s, body);
    if f.Next? && needed {
      var m1 := m';
      GoesBasics(w, im, top, m, n, f.s, m1);
      CodeAtOne(im.code, m1.pc, Simple(Jmp, end));
      m' := JumpGoes(w, im, top, f.s, m1, end);
      GoesTrans(w, im, top, m, n, f.s, m1, top, 1, f.s, m');
      n := n + 1;
    }
  }

  lemma BranchParts(w: World, s: State, gEnd: nat, env: Env, cur: nat, pc: nat, bs: seq<Branch>, more: bool, end: nat)
    requires bs != [] && CheckBranches(gEnd, env, cur, pc, bs, more).Accept? && TameBranches(w, s, bs)
    ensures var p := PlanBranch(gEnd, env, cur, pc, bs, more, end);
            && p.c == LowerExpr(gEnd, env, cur, pc, bs[0].cond)
            && p.b == LowerSeq(gEnd, env, p.c.cur, p.bodyPc, bs[0].body)
            && p.leave == Leave(|bs| > 1 || more, end)
            && p.rest == LowerBranches(gEnd, p.b.env, p.b.cur, p.next, bs[1..], more, end)
            && p.bodyPc == pc + CodeSize(p.c.ins) + 4
            && p.next == p.bodyPc + CodeSize(p.b.ins) + (if |bs| > 1 || more then 4 else 0)
            && TypeExpr(env, bs[0].cond).Accept? && TameExpr(w, s, bs[0].cond)
            && CheckSeq(gEnd, env, p.c.cur, p.bodyPc, bs[0].body).Accept?
            && CheckBranches(gEnd, p.b.env, p.b.cur, p.next, bs[1..], more).Accept?
            && (Eval(w, s, bs[0].cond).Ok? ==>
                  if AsBool(Eval(w, s, bs[0].cond).value) then TameSeq(w, s, bs[0].body) else TameBranches(w, s, bs[1..]))
    ensures var c := Eval(w, s, bs[0].cond);
            ExecBranches(w, s, bs)
            == if c.Err? then Some(Fault(c.trap))
               else if AsBool(c.value) then Some(ExecSeq(w, s, bs[0].body)) else ExecBranches(w, s, bs[1..])
    ensures BranchesSteps(bs) == ExprSteps(bs[0].cond) + SeqSteps(bs[0].body) + 2 + BranchesSteps(bs[1..])
  {
    hide LowerExpr, LowerSeq, TypeExpr, TameExpr, CodeSize, Eval, ExecSeq, TameSeq, CheckSeq, ExprSteps, SeqSteps;
  }

  lemma {:induction false} BranchesRun(w: World, im: Image, gEnd: nat, env: Env, cur: nat, s: State, m: Machine, bs: seq<Branch>, more: bool, end: nat)
    returns (n: nat, m': Machine)
    requires At(w, im, gEnd, env, cur, s, m, LowerBranches(gEnd, env, cur, m.pc, bs, more, end))
    requires CheckBranches(gEnd, env, cur, m.pc, bs, more).Accept? && TameBranches(w, s, bs)
    requires !more ==> end == m.pc + CodeSize(LowerBranches(gEnd, env, cur, m.pc, bs, more, end).ins)
    ensures n <= BranchesSteps(bs)
    ensures AfterChoice(w, im, Frontier(gEnd, cur), m, ExecBranches(w, s, bs), s, end,
                        m.pc + CodeSize(LowerBranches(gEnd, env, cur, m.pc, bs, more, end).ins), n, m')
    decreases bs, 2
  {
    hide At, LowerBranches, CheckBranches, TameBranches, BranchesSteps, ExecBranches, AfterChoice, CodeSize;
    if bs == [] {
      n, m' := NoBranchRuns(w, im, gEnd, env, cur, s, m, bs, more, end);
    } else {
      n, m' := FirstBranchRuns(w, im, gEnd, env, cur, s, m, bs, more, end);
    }
  }

  lemma {:induction false} FirstBranchRuns(w: World, im: Image, gEnd: nat, env: Env, cur: nat, s: State, m: Machine, bs: seq<Branch>, more: bool, end: nat)
    returns (n: nat, m': Machine)
    requires bs != [] && At(w, im, gEnd, env, cur, s, m, LowerBranches(gEnd, env, cur, m.pc, bs, more, end))
    requires CheckBranches(gEnd, env, cur, m.pc, bs, more).Accept? && TameBranches(w, s, bs)
    requires !more ==> end == m.pc + CodeSize(LowerBranches(gEnd, env, cur, m.pc, bs, more, end).ins)
    ensures n <= BranchesSteps(bs)
    ensures AfterChoice(w, im, Frontier(gEnd, cur), m, ExecBranches(w, s, bs), s, end,
                        m.pc + CodeSize(LowerBranches(gEnd, env, cur, m.pc, bs, more, end).ins), n, m')
    decreases bs, 1
  {
    hide Holds, Goes, Region, LowerExpr, LowerSeq, LowerBranches, CheckSeq, CheckBranches, TameSeq, TameBranches, TameExpr, Eval, TypeExpr, Decode,
         ExecSeq, ExecBranches, Done, CodeAt, Yields, ExprSteps, SeqSteps, BranchesSteps, PlanBranch, Leave, CodeSize;
    var top := Frontier(gEnd, cur);
    var p := PlanBranch(gEnd, env, cur, m.pc, bs, more, end);
    BranchLayout(w, im, gEnd, env, cur, s, m, bs, more, end);
    BranchParts(w, s, gEnd, env, cur, m.pc, bs, more, end);
    var cond := bs[0].cond;
    n, m' := OperandRuns(w, im, gEnd, env, cur, s, m, cond);
    var c := Eval(w, s, cond);
    if c.Err? {
      DoneTrap(w, im, top, top, s, m, c.trap, p.bodyPc - 4, end, [], n, m');
    } else {
      var m2 := CondBranch(w, im, top, s, m, c.value, p.bodyPc - 4, p.next, n, m');
      GoesBasics(w, im, top, m, n + 1, s, m2);
      if AsBool(c.value) {
        if |bs| == 1 && !more { NoBranches(gEnd, p.b.env, p.b.cur, p.next, bs[1..], more, end); }
        var k, m3 := TakenRuns(w, im, gEnd, env, p.c.cur, s, m2, bs[0].body, p.b, p.leave, |bs| > 1 || more, end);
        ChoiceAfter(w, im, top, m, n + 1, s, m2, Frontier(gEnd, p.c.cur), ExecBranches(w, s, bs), end, p.next, k, m3);
        n, m' := n + 1 + k, m3;
      } else {
        var k, m3 := BranchesRun(w, im, gEnd, p.b.env, p.b.cur, s, m2, bs[1..], more, end);
        ChoiceAfter(w, im, top, m, n + 1, s, m2, Frontier(gEnd, p.b.cur), ExecBranches(w, s, bs[1..]), end,
                    p.next + CodeSize(p.rest.ins), k, m3);
        n, m' := n + 1 + k, m3;
      }
    }
  }

  lemma NoBranchRuns(w: World, im: Image, gEnd: nat, env: Env, cur: nat, s: State, m: Machine, bs: seq<Branch>, more: bool, end: nat)
    returns (n: nat, m': Machine)
    requires bs == [] && At(w, im, gEnd, env, cur, s, m, LowerBranches(gEnd, env, cur, m.pc, bs, more, end))
    ensures n == 0
    ensures AfterChoice(w, im, Frontier(gEnd, cur), m, ExecBranches(w, s, bs), s, end,
                        m.pc + CodeSize(LowerBranches(gEnd, env, cur, m.pc, bs, more, end).ins), n, m')
  {
    hide Holds, Region, CodeAt, Done;
    n, m' := 0, m;
    DoneHere(w, im, Frontier(gEnd, cur), s, m);
  }

  lemma NoBranches(gEnd: nat, env: Env, cur: nat, pc: nat, bs: seq<Branch>, more: bool, end: nat)
    requires bs == []
    ensures CodeSize(LowerBranches(gEnd, env, cur, pc, bs, more, end).ins) == 0
  {}

  /** The conditional jump after a condition. */
  lemma CondBranch(w: World, im: Image, top: nat, s: State, m: Machine, v: Value, pc: nat, no: nat, n: nat, m1: Machine) returns (m': Machine)
    requires Yields(w, im, top, s, m, Ok(v), pc, [], n, m1) && DecodesTo(im.code, pc, Simple(JmpIfNot, no))
    ensures Goes(w, im, top, m, n + 1, s, m') && m'.stack == [] && m'.pc == if AsBool(v) then pc + 4 else no
  {
    hide Goes, Holds, Decode, Run;
    GoesBasics(w, im, top, m, n, s, m1);
    m' := BranchGoes(w, im, top, s, m1, JmpIfNot, no, [], v);
    GoesTrans(w, im, top, m, n, s, m1, top, 1, s, m');
  }

  lemma {:induction false} IfRuns(w: World, im: Image, gEnd: nat, env: Env, cur: nat, s: State, m: Machine, st: Stmt)
    returns (n: nat, m': Machine)
    requires st.If?
    requires At(w, im, gEnd, env, cur, s, m, LowerStmt(gEnd, env, cur, m.pc, st))
    requires CheckStmt(gEnd, env, cur, m.pc, st).Accept? && TameStmt(w, s, st)
    ensures n <= StmtSteps(st)
    ensures Done(w, im, Frontier(gEnd, cur), m, Exec(w, s, st), m.pc + CodeSize(LowerStmt(gEnd, env, cur, m.pc, st).ins), n, m')
    decreases st, 1
  {
    hide Holds, Goes, Region, LowerBranches, LowerElse, CheckBranches, CheckElse, TameBranches, TameElse, Done, Extends, CodeAt,
         CodeSize, BranchesSteps, ElseSteps, ExecBranches;
    var top, more := Frontier(gEnd, cur), st.elseBody.Else?;
    var bs := LowerBranches(gEnd, env, cur, m.pc, st.branches, more, 0);
    var elsePc := m.pc + CodeSize(bs.ins);
    var eb := LowerElse(gEnd, bs.env, bs.cur, elsePc, st.elseBody);
    var end := elsePc + CodeSize(eb.ins);
    var bs' := LowerBranches(gEnd, env, cur, m.pc, st.branches, more, end);
    BranchesSameShape(gEnd, env, cur, m.pc, st.branches, more, 0, end);
    BranchesExtend(gEnd, env, cur, m.pc, st.branches, more, end);
    ElseExtends(gEnd, bs.env, bs.cur, elsePc, st.elseBody);
    ExtendsMoves(gEnd, env, cur, bs.env, bs.cur);
    RegionSplit(w.env, gEnd, env, cur, bs.env, bs.cur, eb.env, eb.cur, |m.data.bytes|);
    CodeAtSplit(im.code, m.pc, bs'.ins, eb.ins);
    CodeSizeAppend(bs'.ins, eb.ins);
    if !more { EmptyElse(gEnd, bs.env, bs.cur, elsePc, st.elseBody); }
    n, m' := BranchesRun(w, im, gEnd, env, cur, s, m, st.branches, more, end);
    var taken := ExecBranches(w, s, st.branches);
    if taken.None? {
      var k, m2 := ElseAfter(w, im, gEnd, top, bs.env, bs.cur, s, m, st.elseBody, elsePc, n, m');
      n, m' := n + k, m2;
    } else {
      TakenElse(w, s, taken.value, st.elseBody);
    }
  }

  lemma EmptyElse(gEnd: nat, env: Env, cur: nat, pc: nat, els: Else)
    requires els.NoElse?
    ensures CodeSize(LowerElse(gEnd, env, cur, pc, els).ins) == 0
  {}

  lemma TakenElse(w: World, s: State, f: Flow, els: Else)
    ensures ExecElse(w, s, Some(f), els) == f
  {}

  /** The ELSE part, entered when no branch or arm was taken. */
  lemma {:induction false} ElseAfter(w: World, im: Image, gEnd: nat, top: nat, env: Env, cur: nat, s: State, m: Machine, els: Else, pc: nat, a: nat, m1: Machine)
    returns (n: nat, m': Machine)
    requires im.platform == w.platform && top <= Frontier(gEnd, cur) && Done(w, im, top, m, Next(s), pc, a, m1) && NeverOverflows(im, m)
    requires var b := LowerElse(gEnd, env, cur, pc, els);
            Region(w.env, gEnd, env, cur, b.env, b.cur, |m.data.bytes|) && CodeAt(im.code, pc, b.ins)
    requires CheckElse(gEnd, env, cur, pc, els).Accept? && TameElse(w, s, els)
    ensures n <= ElseSteps(els)
    ensures Done(w, im, top, m, ExecElse(w, s, None, els), pc + CodeSize(LowerElse(gEnd, env, cur, pc, els).ins), a + n, m')
    decreases els, 3
  {
    hide Holds, Goes, Region, LowerElse, CheckElse, TameElse, CodeAt, Run, ElseSteps, ExecElse;
    GoesBasics(w, im, top, m, a, s, m1);
    n, m' := ElseRuns(w, im, gEnd, env, cur, s, m1, els);
    DoneAfter(w, im, top, m, a, s, m1, Frontier(gEnd, cur), ExecElse(w, s, None, els),
              pc + CodeSize(LowerElse(gEnd, env, cur, pc, els).ins), n, m');
  }

  // ----- CASE -----

  /** The first label decides, or the remaining ones do. */
  lemma TakenByFirst(sel: Value, labels: seq<int>)
    requires labels != []
    ensures ArmTaken(sel, labels) <==>
              ValuesEq(sel, Dint(Wrap32(labels[0]))) || (|labels| > 1 && ArmTaken(sel, labels[1..]))
  {
    var eq := (l: int) => ValuesEq(sel, Dint(Wrap32(l)));
    hide ValuesEq, Wrap32;
    assert forall i :: 0 <= i < |labels| - 1 ==> labels[1..][i] == labels[i + 1];
    if i :| 0 < i < |labels| && ValuesEq(sel, Dint(Wrap32(labels[i]))) {
      assert labels[1..][i - 1] == labels[i];
    }
  }

  /** The comparisons of an arm leave memory alone and pick its body or what follows it. */
  lemma {:induction false} TestsRun(w: World, im: Image, top: nat, s: State, m: Machine, tmp: nat, sel: Value, labels: seq<int>, body: nat, next: nat)
    returns (n: nat, m': Machine)
    requires im.platform == w.platform && Holds(w, s, m) && m.stack == [] && Load(m.data, tmp) == Some(sel)
    requires CodeAt(im.code, m.pc, LabelTests(tmp, labels, body, next)) && body == m.pc + 20 * |labels|
    ensures n <= 4 * |labels|
    ensures m' == m.(pc := if ArmTaken(sel, labels) then body else next)
    ensures Goes(w, im, top, m, n, s, m')
    decreases labels
  {
    if labels == [] {
      n, m' := 0, m;
      HoldsBasics(w, s, m);
      SameData(w.env, top, m.data);
    } else {
      n, m' := FirstTestRuns(w, im, top, s, m, tmp, sel, labels, body, next);
    }
  }

  lemma {:induction false} FirstTestRuns(w: World, im: Image, top: nat, s: State, m: Machine, tmp: nat, sel: Value, labels: seq<int>, body: nat, next: nat)
    returns (n: nat, m': Machine)
    requires im.platform == w.platform && Holds(w, s, m) && m.stack == [] && Load(m.data, tmp) == Some(sel)
    requires CodeAt(im.code, m.pc, LabelTests(tmp, labels, body, next)) && body == m.pc + 20 * |labels|
    requires labels != []
    ensures n <= 4 * |labels|
    ensures m' == m.(pc := if ArmTaken(sel, labels) then body else next)
    ensures Goes(w, im, top, m, n, s, m')
    decreases labels, 0
  {
    hide Holds, Goes, CodeAt, Load, Decode, ArmTaken, ValuesEq, Wrap32;
    var last := |labels| == 1;
    var test := [Simple(LdData, tmp), WithImm32(PushIDint, 0, labels[0] % 0x1_0000_0000), Simple(Eq, 0)];
    var op, target := if last then JmpIfNot else JmpIf, if last then next else body;
    var rest := LabelTests(tmp, labels[1..], body, next);
    assert LabelTests(tmp, labels, body, next) == test + [Simple(op, target)] + rest;
    CodeAtSplit3(im.code, m.pc, test, [Simple(op, target)], rest);
    CodeAtThree(im.code, m.pc, test[0], test[1], test[2]);
    CodeAtOne(im.code, m.pc + 16, Simple(op, target));
    TakenByFirst(sel, labels);
    var hit := Bool(ValuesEq(sel, Dint(Wrap32(labels[0]))));
    var m1 := SlotConst(w, im, top, s, m, tmp, sel, labels[0], Eq);
    GoesBasics(w, im, top, m, 3, s, m1);
    assert m1.stack == [] + [hit];
    var m2 := BranchGoes(w, im, top, s, m1, op, target, [], hit);
    GoesTrans(w, im, top, m, 3, s, m1, top, 1, s, m2);
    n, m' := 4, m2;
    if !hit.b && !last {
      GoesBasics(w, im, top, m, 4, s, m2);
      var k, m3 := TestsRun(w, im, top, s, m2, tmp, sel, labels[1..], body, next);
      GoesTrans(w, im, top, m, 4, s, m2, top, k, s, m3);
      n, m' := 4 + k, m3;
    }
  }

  datatype ArmPlan = ArmPlan(bodyPc: nat, b: Block, next: nat, rest: Block)

  function PlanArm(gEnd: nat, env: Env, cur: nat, pc: nat, tmp: nat, arms: seq<Arm>, end: nat): ArmPlan
    requires arms != []
  {
    var bodyPc := pc + 20 * |arms[0].labels|;
    var b := LowerSeq(gEnd, env, cur, bodyPc, arms[0].body);
    var next := bodyPc + CodeSize(b.ins) + 4;
    ArmPlan(bodyPc, b, next, LowerArms(gEnd, b.env, b.cur, next, tmp, arms[1..], end))
  }

  lemma ArmLayout(w: World, im: Image, gEnd: nat, env: Env, cur: nat, s: State, m: Machine, tmp: nat, arms: seq<Arm>, end: nat)
    requires arms != [] && At(w, im, gEnd, env, cur, s, m, LowerArms(gEnd, env, cur, m.pc, tmp, arms, end))
    ensures var p := PlanArm(gEnd, env, cur, m.pc, tmp, arms, end);
            && CodeSize(LowerArms(gEnd, env, cur, m.pc, tmp, arms, end).ins) == p.next - m.pc + CodeSize(p.rest.ins)
            && CodeAt(im.code, m.pc, LabelTests(tmp, arms[0].labels, p.bodyPc, p.next))
            && CodeAt(im.code, p.bodyPc, p.b.ins)
            && CodeAt(im.code, p.next - 4, [Simple(Jmp, end)])
            && CodeAt(im.code, p.next, p.rest.ins)
            && Region(w.env, gEnd, env, cur, p.b.env, p.b.cur, |m.data.bytes|)
            && Region(w.env, gEnd, p.b.env, p.b.cur, p.rest.env, p.rest.cur, |m.data.bytes|)
            && cur <= p.b.cur
  {
    hide Holds, CodeAt, Region, LowerSeq, Extends, Decode, CodeSize, LabelTests;
    var p := PlanArm(gEnd, env, cur, m.pc, tmp, arms, end);
    var tests := LabelTests(tmp, arms[0].labels, p.bodyPc, p.next);
    assert LowerArms(gEnd, env, cur, m.pc, tmp, arms, end).ins == tests + p.b.ins + [Simple(Jmp, end)] + p.rest.ins;
    TestsSize(tmp, arms[0].labels, p.bodyPc, p.next);
    OneSize(Simple(Jmp, end));
    CodeAtSplit3(im.code, m.pc, tests + p.b.ins, [Simple(Jmp, end)], p.rest.ins);
    CodeAtSplit(im.code, m.pc, tests, p.b.ins);
    JoinSize(tests + p.b.ins, [Simple(Jmp, end)], p.rest.ins);
    CodeSizeAppend(tests, p.b.ins);
    SeqExtends(gEnd, env, cur, p.bodyPc, arms[0].body);
    ArmsExtend(gEnd, p.b.env, p.b.cur, p.next, tmp, arms[1..], end);
    ExtendsMoves(gEnd, env, cur, p.b.env, p.b.cur);
    RegionSplit(w.env, gEnd, env, cur, p.b.env, p.b.cur, p.rest.env, p.rest.cur, |m.data.bytes|);
  }

  lemma ArmParts(w: World, s: State, gEnd: nat, env: Env, cur: nat, pc: nat, tmp: nat, sel: Value, arms: seq<Arm>, end: nat)
    requires arms != [] && CheckArms(gEnd, env, cur, pc, tmp, arms).Accept? && TameArms(w, s, sel, arms)
    ensures var p := PlanArm(gEnd, env, cur, pc, tmp, arms, end);
            && p.bodyPc == pc + 20 * |arms[0].labels|
            && p.b == LowerSeq(gEnd, env, cur, p.bodyPc, arms[0].body)
            && p.next == p.bodyPc + CodeSize(p.b.ins) + 4
            && p.rest == LowerArms(gEnd, p.b.env, p.b.cur, p.next, tmp, arms[1..], end)
            && CheckSeq(gEnd, env, cur, p.bodyPc, arms[0].body).Accept?
            && CheckArms(gEnd, p.b.env, p.b.cur, p.next, tmp, arms[1..]).Accept?
            && (if ArmTaken(sel, arms[0].labels) then TameSeq(w, s, arms[0].body) else TameArms(w, s, sel, arms[1..]))
    ensures ExecArms(w, s, sel, arms)
            == if ArmTaken(sel, arms[0].labels) then Some(ExecSeq(w, s, arms[0].body)) else ExecArms(w, s, sel, arms[1..])
    ensures ArmsSteps(arms) == 4 * |arms[0].labels| + SeqSteps(arms[0].body) + 1 + ArmsSteps(arms[1..])
  {
    hide LowerSeq, CodeSize, ExecSeq, TameSeq, CheckSeq, SeqSteps, ArmTaken;
  }

  lemma {:induction false} ArmsRun(w: World, im: Image, gEnd: nat, env: Env, cur: nat, s: State, m: Machine, tmp: nat, sel: Value, arms: seq<Arm>, end: nat)
    returns (n: nat, m': Machine)
    requires At(w, im, gEnd, env, cur, s, m, LowerArms(gEnd, env, cur, m.pc, tmp, arms, end))
    requires m.data.Valid() && Load(m.data, tmp) == Some(sel)
    requires CheckArms(gEnd, env, cur, m.pc, tmp, arms).Accept? && TameArms(w, s, sel, arms)
    ensures n <= ArmsSteps(arms)
    ensures AfterChoice(w, im, Frontier(gEnd, cur), m, ExecArms(w, s, sel, arms), s, end,
                        m.pc + CodeSize(LowerArms(gEnd, env, cur, m.pc, tmp, arms, end).ins), n, m')
    decreases arms, 2
  {
    hide At, LowerArms, CheckArms, TameArms, ArmsSteps, ExecArms, AfterChoice, CodeSize, Load;
    if arms == [] {
      n, m' := NoArmRuns(w, im, gEnd, env, cur, s, m, tmp, sel, arms, end);
    } else {
      n, m' := FirstArmRuns(w, im, gEnd, env, cur, s, m, tmp, sel, arms, end);
    }
  }

  lemma NoArmRuns(w: World, im: Image, gEnd: nat, env: Env, cur: nat, s: State, m: Machine, tmp: nat, sel: Value, arms: seq<Arm>, end: nat)
    returns (n: nat, m': Machine)
    requires arms == [] && At(w, im, gEnd, env, cur, s, m, LowerArms(gEnd, env, cur, m.pc, tmp, arms, end))
    ensures n == 0
    ensures AfterChoice(w, im, Frontier(gEnd, cur), m, ExecArms(w, s, sel, arms), s, end,
                        m.pc + CodeSize(LowerArms(gEnd, env, cur, m.pc, tmp, arms, end).ins), n, m')
  {
    hide Holds, Region, CodeAt, Done;
    n, m' := 0, m;
    DoneHere(w, im, Frontier(gEnd, cur), s, m);
  }

  lemma {:induction false} FirstArmRuns(w: World, im: Image, gEnd: nat, env: Env, cur: nat, s: State, m: Machine, tmp: nat, sel: Value, arms: seq<Arm>, end: nat)
    returns (n: nat, m': Machine)
    requires arms != [] && At(w, im, gEnd, env, cur, s, m, LowerArms(gEnd, env, cur, m.pc, tmp, arms, end))
    requires m.data.Valid() && Load(m.data, tmp) == Some(sel)
    requires CheckArms(gEnd, env, cur, m.pc, tmp, arms).Accept? && TameArms(w, s, sel, arms)
    ensures n <= ArmsSteps(arms)
    ensures AfterChoice(w, im, Frontier(gEnd, cur), m, ExecArms(w, s, sel, arms), s, end,
                        m.pc + CodeSize(LowerArms(gEnd, env, cur, m.pc, tmp, arms, end).ins), n, m')
    decreases arms, 1
  {
    hide Holds, Goes, Region, LowerSeq, LowerArms, CheckSeq, CheckArms, TameSeq, TameArms, Decode, ExecSeq, ExecArms, Done, CodeAt,
         SeqSteps, ArmsSteps, PlanArm, CodeSize, ArmTaken, LabelTests, Load;
    var top := Frontier(gEnd, cur);
    var p := PlanArm(gEnd, env, cur, m.pc, tmp, arms, end);
    ArmLayout(w, im, gEnd, env, cur, s, m, tmp, arms, end);
    ArmParts(w, s, gEnd, env, cur, m.pc, tmp, sel, arms, end);
    var m1;
    n, m1 := TestsRun(w, im, top, s, m, tmp, sel, arms[0].labels, p.bodyPc, p.next);
    GoesBasics(w, im, top, m, n, s, m1);
    if ArmTaken(sel, arms[0].labels) {
      LeaveJump(end);
      var k, m2 := TakenRuns(w, im, gEnd, env, cur, s, m1, arms[0].body, p.b, [Simple(Jmp, end)], true, end);
      ChoiceAfter(w, im, top, m, n, s, m1, top, ExecArms(w, s, sel, arms), end, p.next, k, m2);
      n, m' := n + k, m2;
    } else {
      var k, m2 := ArmsRun(w, im, gEnd, p.b.env, p.b.cur, s, m1, tmp, sel, arms[1..], end);
      ChoiceAfter(w, im, top, m, n, s, m1, Frontier(gEnd, p.b.cur), ExecArms(w, s, sel, arms[1..]), end,
                  p.next + CodeSize(p.rest.ins), k, m2);
      n, m' := n + k, m2;
    }
  }

  lemma LeaveJump(end: nat)
    ensures Leave(true, end) == [Simple(Jmp, end)]
  {}

  /** An expression saved in a scratch slot that was taken before or after it was lowered. */
  lemma SlotRuns(w: World, im: Image, gEnd: nat, env: Env, cur: nat, s: State, m: Machine, e: Expr, slot: nat, width: nat, top: nat)
    returns (n: nat, m': Machine)
    requires im.platform == w.platform && Holds(w, s, m) && NeverOverflows(im, m) && m.stack == []
    requires TypeExpr(env, e).Accept? && TameSaved(w, s, e, width)
    requires var c := LowerExpr(gEnd, env, cur, m.pc, e);
            && Region(w.env, gEnd, env, cur, env, c.cur, |m.data.bytes|) && CodeAt(im.code, m.pc, c.ins)
            && DecodesTo(im.code, m.pc + CodeSize(c.ins), Simple(StData, slot))
    requires Free(w.env, slot, slot + width) && slot + width <= |m.data.bytes| && top <= slot && top <= Frontier(gEnd, cur)
    ensures n <= ExprSteps(e) + 1
    ensures m.Valid()
    ensures var v := Eval(w, s, e);
            if v.Err? then Run(im, m, n) == Trapped(v.trap)
            else
              && Goes(w, im, top, m, n, s, m') && m'.stack == [] && m'.data.Valid() && Load(m'.data, slot) == Some(v.value)
              && m'.pc == m.pc + CodeSize(LowerExpr(gEnd, env, cur, m.pc, e).ins) + 4
              && Width(v.value) <= width
  {
    hide Holds, Goes, Decode, CodeAt, Region, LowerExpr, Eval, TypeExpr, TameExpr, NeverOverflows, Run, Load, CodeSize, Free, ToBytes;
    HoldsBasics(w, s, m);
    var size := CodeSize(LowerExpr(gEnd, env, cur, m.pc, e).ins);
    n, m' := OperandRuns(w, im, gEnd, env, cur, s, m, e);
    var v := Eval(w, s, e);
    if v.Ok? {
      YieldsLower(w, im, top, Frontier(gEnd, cur), s, m, v, m.pc + size, [], n, m');
      var m1 := m';
      GoesBasics(w, im, top, m, n, s, m1);
      FreeWithin(w.env, slot, slot + width, slot, slot + Width(v.value));
      assert m1.stack == [] + [v.value];
      m' := StoreScratchGoes(w, im, top, s, m1, slot, [], v.value);
      GoesTrans(w, im, top, m, n, s, m1, top, 1, s, m');
      n := n + 1;
    }
  }

  datatype CasePlan = CasePlan(v: Code, tmp: nat, cur: nat, armsPc: nat, bs: Block, elsePc: nat, eb: Block, end: nat)

  function PlanCase(gEnd: nat, env: Env, cur: nat, pc: nat, st: Stmt): CasePlan
    requires st.Case?
  {
    var v := LowerExpr(gEnd, env, cur, pc, st.selector);
    var selTy := TypeExpr(env, st.selector);
    var t := AllocTemp(gEnd, v.cur, if selTy.Accept? then selTy.value else TDint);
    var armsPc := pc + CodeSize(v.ins) + 4;
    var bs := LowerArms(gEnd, env, t.1, armsPc, t.0, st.arms, 0);
    var elsePc := armsPc + CodeSize(bs.ins);
    var eb := LowerElse(gEnd, bs.env, bs.cur, elsePc, st.elseBody);
    var end := elsePc + CodeSize(eb.ins);
    CasePlan(v, t.0, t.1, armsPc, LowerArms(gEnd, env, t.1, armsPc, t.0, st.arms, end), elsePc, eb, end)
  }

  lemma CaseLayout(w: World, im: Image, gEnd: nat, env: Env, cur: nat, s: State, m: Machine, st: Stmt)
    requires st.Case? && At(w, im, gEnd, env, cur, s, m, LowerStmt(gEnd, env, cur, m.pc, st))
    requires CheckStmt(gEnd, env, cur, m.pc, st).Accept?
    ensures var p := PlanCase(gEnd, env, cur, m.pc, st);
            && CodeSize(LowerStmt(gEnd, env, cur, m.pc, st).ins) == p.end - m.pc
            && p.elsePc == p.armsPc + CodeSize(p.bs.ins)
            && p.end == p.elsePc + CodeSize(p.eb.ins)
            && p.bs == LowerArms(gEnd, env, p.cur, p.armsPc, p.tmp, st.arms, p.end)
            && p.eb == LowerElse(gEnd, p.bs.env, p.bs.cur, p.elsePc, st.elseBody)
            && CodeAt(im.code, m.pc, p.v.ins)
            && DecodesTo(im.code, p.armsPc - 4, Simple(StData, p.tmp))
            && CodeAt(im.code, p.armsPc, p.bs.ins)
            && CodeAt(im.code, p.elsePc, p.eb.ins)
            && Region(w.env, gEnd, env, cur, env, p.v.cur, |m.data.bytes|)
            && Region(w.env, gEnd, env, p.cur, p.bs.env, p.bs.cur, |m.data.bytes|)
            && Region(w.env, gEnd, p.bs.env, p.bs.cur, p.eb.env, p.eb.cur, |m.data.bytes|)
            && Free(w.env, p.tmp, p.cur) && Frontier(gEnd, cur) <= p.tmp && p.cur <= |m.data.bytes|
            && cur <= p.cur <= p.bs.cur
  {
    hide Holds, CodeAt, Region, LowerExpr, LowerArms, LowerElse, CheckArms, CheckElse, Extends, Decode, CodeSize, TypeExpr, Free;
    var p := PlanCase(gEnd, env, cur, m.pc, st);
    var i := Simple(StData, p.tmp);
    var head := p.v.ins + [i] + p.bs.ins;
    var len := |m.data.bytes|;
    ArmsSameShape(gEnd, env, p.cur, p.armsPc, p.tmp, st.arms, 0, p.end);
    assert LowerStmt(gEnd, env, cur, m.pc, st).ins == head + p.eb.ins;
    CodeAtSplit(im.code, m.pc, head, p.eb.ins);
    CodeAtSplit3(im.code, m.pc, p.v.ins, [i], p.bs.ins);
    CodeSizeAppend(head, p.eb.ins);
    JoinSize(p.v.ins, [i], p.bs.ins);
    CodeAtOne(im.code, m.pc + CodeSize(p.v.ins), i);
    ExprExtends(gEnd, env, cur, m.pc, st.selector);
    CursorMoves(gEnd, env, p.v.cur, p.cur);
    CursorMoves(gEnd, env, cur, p.cur);
    ArmsExtend(gEnd, env, p.cur, p.armsPc, p.tmp, st.arms, p.end);
    ElseExtends(gEnd, p.bs.env, p.bs.cur, p.elsePc, st.elseBody);
    ExtendsMoves(gEnd, env, p.cur, p.bs.env, p.bs.cur);
    ExtendsTrans(gEnd, env, p.cur, p.bs.env, p.bs.cur, p.eb.env, p.eb.cur);
    RegionSplit(w.env, gEnd, env, cur, env, p.cur, p.eb.env, p.eb.cur, len);
    RegionSplit(w.env, gEnd, env, p.cur, p.bs.env, p.bs.cur, p.eb.env, p.eb.cur, len);
    RegionFree(w.env, gEnd, env, cur, p.cur, len);
    FreeWithin(w.env, Frontier(gEnd, cur), p.cur, p.tmp, p.cur);
    RegionSplit(w.env, gEnd, env, cur, env, p.v.cur, env, p.cur, len);
  }

  lemma CaseParts(w: World, s: State, gEnd: nat, env: Env, cur: nat, pc: nat, st: Stmt)
    requires st.Case? && CheckStmt(gEnd, env, cur, pc, st).Accept? && TameStmt(w, s, st)
    ensures var p := PlanCase(gEnd, env, cur, pc, st);
            && p.v == LowerExpr(gEnd, env, cur, pc, st.selector)
            && p.armsPc == pc + CodeSize(p.v.ins) + 4
            && TypeExpr(env, st.selector).Accept? && TameSaved(w, s, st.selector, TypeWidth(w.env, st.selector))
            && p.cur == p.tmp + ByteWidth(TypeExpr(env, st.selector).value)
            && CheckArms(gEnd, env, p.cur, p.armsPc, p.tmp, st.arms).Accept?
            && CheckElse(gEnd, p.bs.env, p.bs.cur, p.elsePc, st.elseBody).Accept?
            && (Eval(w, s, st.selector).Ok? ==>
                  var v := Eval(w, s, st.selector).value;
                  TameArms(w, s, v, st.arms) && (ExecArms(w, s, v, st.arms).None? ==> TameElse(w, s, st.elseBody)))
    ensures var v := Eval(w, s, st.selector);
            Exec(w, s, st) == if v.Err? then Fault(v.trap)
                              else ExecElse(w, s, ExecArms(w, s, v.value, st.arms), st.elseBody)
    ensures StmtSteps(st) == ExprSteps(st.selector) + 1 + ArmsSteps(st.arms) + ElseSteps(st.elseBody)
  {
    hide LowerExpr, LowerArms, LowerElse, TypeExpr, TameExpr, CodeSize, Eval, CheckArms, CheckElse, ExprSteps, ExecArms, ExecElse;
    var p := PlanCase(gEnd, env, cur, pc, st);
    ArmsSameShape(gEnd, env, p.cur, p.armsPc, p.tmp, st.arms, 0, p.end);
  }

  lemma {:induction false} CaseRuns(w: World, im: Image, gEnd: nat, env: Env, cur: nat, s: State, m: Machine, st: Stmt)
    returns (n: nat, m': Machine)
    requires st.Case?
    requires At(w, im, gEnd, env, cur, s, m, LowerStmt(gEnd, env, cur, m.pc, st))
    requires CheckStmt(gEnd, env, cur, m.pc, st).Accept? && TameStmt(w, s, st)
    ensures n <= StmtSteps(st)
    ensures Done(w, im, Frontier(gEnd, cur), m, Exec(w, s, st), m.pc + CodeSize(LowerStmt(gEnd, env, cur, m.pc, st).ins), n, m')
    decreases st, 1
  {
    hide Holds, Goes, Region, LowerExpr, LowerStmt, LowerArms, LowerElse, CheckStmt, CheckArms, CheckElse, TameStmt, TameArms, TameElse, TameExpr,
         CodeAt, CodeSize, ArmsSteps, ElseSteps, StmtSteps, ExprSteps, ExecArms, ExecElse, Exec, Eval, TypeExpr, PlanCase, Decode, Load, Free, Run, Done;
    var top := Frontier(gEnd, cur);
    var p := PlanCase(gEnd, env, cur, m.pc, st);
    CaseLayout(w, im, gEnd, env, cur, s, m, st);
    CaseParts(w, s, gEnd, env, cur, m.pc, st);
    RegionFree(w.env, gEnd, env, cur, p.v.cur, |m.data.bytes|);
    TypeInLarger(env, w.env, st.selector);
    n, m' := SlotRuns(w, im, gEnd, env, cur, s, m, st.selector, p.tmp, ByteWidth(TypeExpr(env, st.selector).value), top);
    var v := Eval(w, s, st.selector);
    if v.Err? {
      TrapFaults(w, im, top, m, v.trap, p.end, n, m');
    } else {
      var m1 := m';
      GoesBasics(w, im, top, m, n, s, m1);
      var k, m2 := ArmsRun(w, im, gEnd, env, p.cur, s, m1, p.tmp, v.value, st.arms, p.end);
      var taken := ExecArms(w, s, v.value, st.arms);
      ChoiceAfter(w, im, top, m, n, s, m1, Frontier(gEnd, p.cur), taken, p.end, p.elsePc, k, m2);
      n, m' := n + k, m2;
      if taken.None? {
        var j, m3 := ElseAfter(w, im, gEnd, top, p.bs.env, p.bs.cur, s, m, st.elseBody, p.elsePc, n, m');
        n, m' := n + j, m3;
      } else {
        TakenElse(w, s, taken.value, st.elseBody);
      }
    }
  }

  lemma TrapFaults(w: World, im: Image, top: nat, m: Machine, t: Trap, pc: nat, n: nat, m': Machine)
    requires m.Valid() && Run(im, m, n) == Trapped(t)
    ensures Done(w, im, top, m, Fault(t), pc, n, m')
  {}

  // ----- WHILE -----

  datatype WhilePlan = WhilePlan(cap: nat, counter: nat, next: nat, head: nat, cond: Code, bodyPc: nat, body: Block, end: nat)

  function PlanWhile(gEnd: nat, env: Env, cur: nat, pc: nat, st: Stmt): WhilePlan
    requires st.While?
  {
    var t := AllocTemp(gEnd, cur, TDint);
    var c := LowerExpr(gEnd, env, t.1, pc + 32, st.cond);
    var bodyPc := pc + 36 + CodeSize(c.ins);
    var b := LowerSeq(gEnd, env, c.cur, bodyPc, st.body);
    WhilePlan(if st.maxIter.Some? then st.maxIter.value else 0, t.0, t.1, pc + 12, c, bodyPc, b, bodyPc + CodeSize(b.ins) + 24)
  }

  /** The pieces of a WHILE, one after the other. */
  lemma WhilePieces(code: seq<byte>, gEnd: nat, env: Env, cur: nat, pc: nat, st: Stmt)
    requires st.While? && CodeAt(code, pc, LowerStmt(gEnd, env, cur, pc, st).ins)
    ensures var p := PlanWhile(gEnd, env, cur, pc, st);
            && CodeSize(LowerStmt(gEnd, env, cur, pc, st).ins) == p.end - pc && p.head == pc + 12
            && CodeAt(code, pc, StartCounter(p.cap, p.counter))
            && CodeAt(code, p.head, CounterTest(p.counter, p.end))
            && CodeAt(code, p.head + 20, p.cond.ins)
            && DecodesTo(code, p.bodyPc - 4, Simple(JmpIfNot, p.end))
            && CodeAt(code, p.bodyPc, p.body.ins)
            && CodeAt(code, p.end - 24, CountDown(p.counter, p.head))
  {
    hide CodeAt, LowerExpr, LowerSeq, LowerStmt, CheckStmt, CheckSeq, Decode, CodeSize, TypeExpr, CounterTest, CountDown, StartCounter, AllocTemp;
    WhileUnfolds(gEnd, env, cur, pc, st);
    var p := PlanWhile(gEnd, env, cur, pc, st);
    var start, test, j, down := StartCounter(p.cap, p.counter), CounterTest(p.counter, p.end), Simple(JmpIfNot, p.end), CountDown(p.counter, p.head);
    var front := start + test + p.cond.ins;
    var back := front + [j] + p.body.ins;
    GroupSizes(p.cap, p.counter, p.head, p.end);
    CodeAtSplit(code, pc, back, down);
    CodeAtSplit3(code, pc, front, [j], p.body.ins);
    CodeAtSplit3(code, pc, start, test, p.cond.ins);
    CodeSizeAppend(back, down);
    JoinSize(front, [j], p.body.ins);
    JoinSize(start, test, p.cond.ins);
    CodeAtOne(code, pc + CodeSize(front), j);
  }

  /** Everything about a WHILE that does not change while it runs. */
  ghost predicate WhileCode(w: World, im: Image, gEnd: nat, env: Env, st: Stmt, p: WhilePlan, len: nat)
  {
    && im.platform == w.platform && st.While?
    && p.cond == LowerExpr(gEnd, env, p.next, p.head + 20, st.cond)
    && p.bodyPc == p.head + 24 + CodeSize(p.cond.ins)
    && p.body == LowerSeq(gEnd, env, p.cond.cur, p.bodyPc, st.body)
    && p.end == p.bodyPc + CodeSize(p.body.ins) + 24
    && CodeAt(im.code, p.head, CounterTest(p.counter, p.end))
    && CodeAt(im.code, p.head + 20, p.cond.ins)
    && DecodesTo(im.code, p.bodyPc - 4, Simple(JmpIfNot, p.end))
    && CodeAt(im.code, p.bodyPc, p.body.ins)
    && CodeAt(im.code, p.end - 24, CountDown(p.counter, p.head))
    && Region(w.env, gEnd, env, p.next, env, p.cond.cur, len)
    && Region(w.env, gEnd, env, p.cond.cur, p.body.env, p.body.cur, len)
    && Free(w.env, p.counter, p.counter + 4) && p.next == p.counter + 4 <= len && p.next <= p.cond.cur
    && TypeExpr(env, st.cond).Accept? && CheckSeq(gEnd, env, p.cond.cur, p.bodyPc, st.body).Accept?
  }

  lemma WhileLayout(w: World, im: Image, gEnd: nat, env: Env, cur: nat, s: State, m: Machine, st: Stmt)
    requires st.While? && At(w, im, gEnd, env, cur, s, m, LowerStmt(gEnd, env, cur, m.pc, st))
    requires CheckStmt(gEnd, env, cur, m.pc, st).Accept?
    ensures var p := PlanWhile(gEnd, env, cur, m.pc, st);
            && CodeSize(LowerStmt(gEnd, env, cur, m.pc, st).ins) == p.end - m.pc
            && CodeAt(im.code, m.pc, StartCounter(p.cap, p.counter)) && p.head == m.pc + 12
            && Frontier(gEnd, cur) <= p.counter
            && WhileCode(w, im, gEnd, env, st, p, |m.data.bytes|)
  {
    hide Holds, CodeAt, Region, LowerExpr, LowerSeq, LowerStmt, CheckStmt, CheckSeq, TameSeq, TameExpr, Extends, Decode, CodeSize, TypeExpr, Free, CounterTest,
         CountDown, StartCounter;
    WhileUnfolds(gEnd, env, cur, m.pc, st);
    WhilePieces(im.code, gEnd, env, cur, m.pc, st);
    var p := PlanWhile(gEnd, env, cur, m.pc, st);
    var len := |m.data.bytes|;
    ExprExtends(gEnd, env, p.next, p.head + 20, st.cond);
    SeqExtends(gEnd, env, p.cond.cur, p.bodyPc, st.body);
    CursorMoves(gEnd, env, cur, p.next);
    CursorMoves(gEnd, env, cur, p.cond.cur);
    CursorMoves(gEnd, env, p.next, p.cond.cur);
    RegionSplit(w.env, gEnd, env, cur, env, p.cond.cur, p.body.env, p.body.cur, len);
    RegionSplit(w.env, gEnd, env, cur, env, p.next, env, p.cond.cur, len);
    RegionFree(w.env, gEnd, env, cur, p.next, len);
    FreeWithin(w.env, Frontier(gEnd, cur), p.next, p.counter, p.next);
  }

  function WhileLap(st: Stmt): nat
    requires st.While?
  {
    ExprSteps(st.cond) + SeqSteps(st.body) + 10
  }

  /** Control is at the head of a loop with `k` iterations left. */
  ghost predicate AtHead(w: World, im: Image, s: State, m: Machine, head: nat, counter: nat, k: nat, len: nat)
  {
    && Holds(w, s, m) && NeverOverflows(im, m) && m.stack == [] && m.pc == head && |m.data.bytes| == len && k < 0x1_0000_0000
    && Load(m.data, counter) == Some(CounterValue(k))
  }

  lemma {:induction false} WhileLoop(w: World, im: Image, gEnd: nat, env: Env, st: Stmt, p: WhilePlan, len: nat, s: State, m: Machine, k: nat)
    returns (n: nat, m': Machine)
    requires WhileCode(w, im, gEnd, env, st, p, len) && AtHead(w, im, s, m, p.head, p.counter, k, len)
    requires TameWhile(w, s, st.cond, st.body, k)
    ensures n <= Laps(k, WhileLap(st))
    ensures Done(w, im, p.counter, m, ExecWhile(w, s, st.cond, st.body, k), p.end, n, m')
    decreases st.body, 3, k, 1
  {
    hide Holds, Goes, CodeAt, Decode, Load, Free, Region, LowerExpr, LowerSeq, CheckSeq, TameSeq, TameExpr, TypeExpr, Eval, ExecSeq, SeqSteps, ExprSteps,
         CodeSize, CounterTest, CountDown, CounterValue, Done, Yields, Run;
    var top := p.counter;
    var m1 := TestCounter(w, im, top, s, m, p.counter, k, p.end);
    GoesBasics(w, im, top, m, 4, s, m1);
    if k == 0 {
      n, m' := 4, m1;
      DoneNext(w, im, top, m, n, s, m');
    } else {
      var top1 := Frontier(gEnd, p.next);
      var a, m2 := OperandRuns(w, im, gEnd, env, p.next, s, m1, st.cond);
      var c := Eval(w, s, st.cond);
      if c.Err? {
        DoneTrap(w, im, top1, top, s, m1, c.trap, p.bodyPc - 4, p.end, [], a, m2);
        DoneAfter(w, im, top, m, 4, s, m1, top, Fault(c.trap), p.end, a, m2);
        n, m' := 4 + a, m2;
      } else {
        var m3 := CondBranch(w, im, top1, s, m1, c.value, p.bodyPc - 4, p.end, a, m2);
        CounterKept(w, im, top1, m1, a + 1, s, m3, p.counter, k);
        GoesBasics(w, im, top1, m1, a + 1, s, m3);
        GoesTrans(w, im, top, m, 4, s, m1, top1, a + 1, s, m3);
        if !AsBool(c.value) {
          n, m' := 5 + a, m3;
          DoneNext(w, im, top, m, n, s, m');
        } else {
          var b, m4 := WhileLap1(w, im, gEnd, env, st, p, len, s, m3, k);
          DoneAfter(w, im, top, m, 5 + a, s, m3, top, ExecWhile(w, s, st.cond, st.body, k), p.end, b, m4);
          n, m' := 5 + a + b, m4;
        }
      }
    }
  }

  lemma DoneNext(w: World, im: Image, top: nat, m: Machine, n: nat, s: State, m': Machine)
    requires Goes(w, im, top, m, n, s, m') && m'.stack == []
    ensures Done(w, im, top, m, Next(s), m'.pc, n, m')
  {
    hide Run, Holds;
  }

  /** Code above the counter leaves it alone. */
  lemma CounterKept(w: World, im: Image, top: nat, m: Machine, n: nat, s: State, m': Machine, counter: nat, k: nat)
    requires Goes(w, im, top, m, n, s, m') && Free(w.env, counter, counter + 4) && counter + 4 <= top && counter + 4 <= |m.data.bytes|
    requires Load(m.data, counter) == Some(CounterValue(k))
    ensures m'.data.Valid() && Load(m'.data, counter) == Some(CounterValue(k))
    ensures m.Valid() && Holds(w, s, m') && |m'.data.bytes| == |m.data.bytes|
  {
    hide Run, Holds, Free, Load;
    GoesBasics(w, im, top, m, n, s, m');
    ScratchKept(w.env, top, m.data, m'.data, counter, 4);
  }

  /** One iteration, from the start of the body, and what follows it. */
  lemma {:induction false} WhileLap1(w: World, im: Image, gEnd: nat, env: Env, st: Stmt, p: WhilePlan, len: nat, s: State, m: Machine, k: nat)
    returns (n: nat, m': Machine)
    requires WhileCode(w, im, gEnd, env, st, p, len) && k > 0
    requires AtHead(w, im, s, m, p.bodyPc, p.counter, k, len)
    requires Eval(w, s, st.cond).Ok? && AsBool(Eval(w, s, st.cond).value) && TameWhile(w, s, st.cond, st.body, k)
    ensures n <= SeqSteps(st.body) + 5 + Laps(k - 1, WhileLap(st))
    ensures Done(w, im, p.counter, m, ExecWhile(w, s, st.cond, st.body, k), p.end, n, m')
    decreases st.body, 3, k, 0
  {
    hide Holds, Goes, CodeAt, Decode, Load, Free, Region, LowerExpr, LowerSeq, CheckSeq, TameSeq, TameExpr, TypeExpr, Eval, ExecSeq, SeqSteps, ExprSteps,
         CodeSize, CounterTest, CountDown, CounterValue, Run;
    var top, top1 := p.counter, Frontier(gEnd, p.cond.cur);
    n, m' := SeqRuns(w, im, gEnd, env, p.cond.cur, s, m, st.body);
    var f := ExecSeq(w, s, st.body);
    DoneLower(w, im, top, top1, m, f, p.end - 24, n, m');
    if f.Next? {
      var m1 := m';
      GoesBasics(w, im, top1, m, n, f.s, m1);
      CounterKept(w, im, top1, m, n, f.s, m1, p.counter, k);
      var m2 := CountsDown(w, im, top, f.s, m1, p.counter, k, p.head);
      GoesBasics(w, im, top, m1, 5, f.s, m2);
      GoesTrans(w, im, top, m, n, f.s, m1, top, 5, f.s, m2);
      var a, m3 := WhileLoop(w, im, gEnd, env, st, p, len, f.s, m2, k - 1);
      DoneAfter(w, im, top, m, n + 5, f.s, m2, top, ExecWhile(w, f.s, st.cond, st.body, k - 1), p.end, a, m3);
      n, m' := n + 5 + a, m3;
    }
  }

  lemma {:induction false} WhileRuns(w: World, im: Image, gEnd: nat, env: Env, cur: nat, s: State, m: Machine, st: Stmt)
    returns (n: nat, m': Machine)
    requires st.While?
    requires At(w, im, gEnd, env, cur, s, m, LowerStmt(gEnd, env, cur, m.pc, st))
    requires CheckStmt(gEnd, env, cur, m.pc, st).Accept? && TameStmt(w, s, st)
    ensures n <= StmtSteps(st)
    ensures Done(w, im, Frontier(gEnd, cur), m, Exec(w, s, st), m.pc + CodeSize(LowerStmt(gEnd, env, cur, m.pc, st).ins), n, m')
    decreases st, 1
  {
    hide Holds, Goes, CodeAt, Load, Free, Region, LowerExpr, LowerSeq, LowerStmt, CheckStmt, TameStmt, WhileCode, ExecWhile, CodeSize, Done, StartCounter, CounterValue, Laps;
    var top := Frontier(gEnd, cur);
    var p := PlanWhile(gEnd, env, cur, m.pc, st);
    var len := |m.data.bytes|;
    WhileLayout(w, im, gEnd, env, cur, s, m, st);
    WhileTame(w, s, st);
    assert Free(w.env, p.counter, p.counter + 4) && p.counter + 4 <= len by { WhileFacts(w, im, gEnd, env, st, p, len); }
    var m1 := StartsCounter(w, im, top, s, m, p.counter, p.cap);
    GoesBasics(w, im, top, m, 2, s, m1);
    var k;
    k, m' := WhileLoop(w, im, gEnd, env, st, p, len, s, m1, p.cap);
    DoneAfter(w, im, top, m, 2, s, m1, p.counter, ExecWhile(w, s, st.cond, st.body, p.cap), p.end, k, m');
    n := 2 + k;
  }

  lemma WhileTame(w: World, s: State, st: Stmt)
    requires st.While? && TameStmt(w, s, st)
    ensures TameWhile(w, s, st.cond, st.body, if st.maxIter.Some? then st.maxIter.value else 0)
  {
    hide TameWhile;
  }

  lemma WhileFacts(w: World, im: Image, gEnd: nat, env: Env, st: Stmt, p: WhilePlan, len: nat)
    requires WhileCode(w, im, gEnd, env, st, p, len)
    ensures Free(w.env, p.counter, p.counter + 4) && p.counter + 4 <= len
  {
    hide CodeAt, Free, Region;
  }

  // ----- FOR -----

  /** The pieces of a FOR and where they stand. */
  datatype ForShape = ForShape(p: ForPlan, varCur: nat, lastPc: nat, stepPc: nat, startPc: nat, body: Block, end: nat)

  function ShapeFor(gEnd: nat, env: Env, cur: nat, pc: nat, st: Stmt): ForShape
    requires st.For?
  {
    var p := PlanFor(gEnd, env, cur, pc, st.v, st.first, st.last, st.step);
    var lastPc := pc + CodeSize(p.first.ins) + 4;
    var stepPc := lastPc + CodeSize(p.last.ins) + 4;
    var startPc := stepPc + CodeSize(p.step.ins) + 4;
    var b := LowerSeq(gEnd, p.env, p.cur, p.head + 36, st.body);
    ForShape(p, DeclareLoopVar(gEnd, env, cur, st.v).0, lastPc, stepPc, startPc, b, p.head + 36 + CodeSize(b.ins) + 40)
  }

  /** Everything about a FOR's loop that does not change while it runs. */
  ghost predicate ForCode(w: World, im: Image, gEnd: nat, st: Stmt, f: ForShape, len: nat)
  {
    var p := f.p;
    && im.platform == w.platform && st.For?
    && f.body == LowerSeq(gEnd, p.env, p.cur, p.head + 36, st.body)
    && f.end == p.head + 76 + CodeSize(f.body.ins)
    && CodeAt(im.code, p.head, CounterTest(p.counter, f.end))
    && CodeAt(im.code, p.head + 20, LimitTest(p.varOff, p.limit, f.end))
    && CodeAt(im.code, p.head + 36, f.body.ins)
    && CodeAt(im.code, f.end - 40, Advance(p.varOff, p.inc))
    && CodeAt(im.code, f.end - 24, CountDown(p.counter, p.head))
    && Region(w.env, gEnd, p.env, p.cur, f.body.env, f.body.cur, len)
    && Slots(w.env, p, len)
    && InData(p.env, st.v) && p.env[st.v].offset == p.varOff
    && CheckSeq(gEnd, p.env, p.cur, p.head + 36, st.body).Accept?
  }

  /** The three scratch slots lie one above the other, clear of every variable. */
  ghost predicate Slots(env: Env, p: ForPlan, len: nat)
  {
    && p.limit + 4 <= p.inc && p.inc + 4 <= p.counter && p.counter + 4 == p.cur <= len
    && Free(env, p.limit, p.limit + 4) && Free(env, p.inc, p.inc + 4) && Free(env, p.counter, p.counter + 4)
  }

  /** Limit, step and counter are in their slots. */
  ghost predicate Primed(m: Machine, p: ForPlan, limit: Value, step: Value, k: nat)
  {
    && m.data.Valid() && k < 0x1_0000_0000
    && Load(m.data, p.limit) == Some(limit) && Width(limit) <= 4
    && Load(m.data, p.inc) == Some(step) && Width(step) <= 4
    && Load(m.data, p.counter) == Some(CounterValue(k))
  }

  /** Code above the slots leaves them alone. */
  lemma SlotsKept(w: World, im: Image, top: nat, m: Machine, n: nat, s: State, m': Machine, p: ForPlan, limit: Value, step: Value, k: nat)
    requires Goes(w, im, top, m, n, s, m') && p.cur <= top && Slots(w.env, p, |m.data.bytes|)
    requires Primed(m, p, limit, step, k)
    ensures Primed(m', p, limit, step, k)
  {
    hide Run, Holds, Free, Load;
    GoesBasics(w, im, top, m, n, s, m');
    ScratchKept(w.env, top, m.data, m'.data, p.limit, 4);
    ScratchKept(w.env, top, m.data, m'.data, p.inc, 4);
    ScratchKept(w.env, top, m.data, m'.data, p.counter, 4);
  }

  lemma CountsDownPrimed(w: World, im: Image, s: State, m: Machine, p: ForPlan, limit: Value, step: Value, k: nat) returns (m': Machine)
    requires im.platform == w.platform && Holds(w, s, m) && m.stack == [] && k > 0
    requires CodeAt(im.code, m.pc, CountDown(p.counter, p.head)) && Slots(w.env, p, |m.data.bytes|)
    requires Primed(m, p, limit, step, k)
    ensures Goes(w, im, p.limit, m, 5, s, m') && m'.pc == p.head && m'.stack == []
    ensures Primed(m', p, limit, step, k - 1)
  {
    hide Run, Holds, Free, Load, CodeAt, CounterValue, CountDown;
    m' := CountsDown(w, im, p.counter, s, m, p.counter, k, p.head);
    GoesBasics(w, im, p.counter, m, 5, s, m');
    ScratchKept(w.env, p.counter, m.data, m'.data, p.limit, 4);
    ScratchKept(w.env, p.counter, m.data, m'.data, p.inc, 4);
    GoesLower(w, im, p.limit, p.counter, m, 5, s, m');
  }

  lemma GoesLower(w: World, im: Image, top: nat, top': nat, m: Machine, n: nat, s: State, m': Machine)
    requires top <= top' && Goes(w, im, top', m, n, s, m')
    ensures Goes(w, im, top, m, n, s, m')
  {
    hide Run, Holds;
  }

  lemma VarHeld(w: World, s: State, m: Machine, x: string)
    requires Holds(w, s, m) && InData(w.env, x)
    ensures m.Valid() && x in s.vars && Load(m.data, w.env[x].offset) == Some(s.vars[x])
    ensures Width(s.vars[x]) <= ByteWidth(w.env[x].ty)
  {}

  /** The limit test: out of the loop when the variable has passed the limit. */
  lemma TestLimit(w: World, im: Image, top: nat, s: State, m: Machine, varOff: nat, x: Value, limit: nat, y: Value, end: nat)
    returns (n: nat, m': Machine)
    requires im.platform == w.platform && Holds(w, s, m) && m.stack == []
    requires CodeAt(im.code, m.pc, LimitTest(varOff, limit, end))
    requires Load(m.data, varOff) == Some(x) && Load(m.data, limit) == Some(y)
    ensures n <= 4 && m.Valid()
    ensures var r := Compare(w.platform, Gt, x, y);
            if r.Err? then Run(im, m, n) == Trapped(r.trap)
            else m' == m.(pc := if AsBool(r.value) then end else m.pc + 16) && Goes(w, im, top, m, n, s, m')
  {
    hide Holds, Goes, CodeAt, Load, Decode, Compare, Run;
    var head := [Simple(LdData, varOff), Simple(LdData, limit), Simple(Gt, 0)];
    assert LimitTest(varOff, limit, end) == head + [Simple(JmpIf, end)];
    CodeAtSplit(im.code, m.pc, head, [Simple(JmpIf, end)]);
    CodeAtThree(im.code, m.pc, head[0], head[1], head[2]);
    CodeAtOne(im.code, m.pc + 12, Simple(JmpIf, end));
    m' := SlotSlot(w, im, top, s, m, varOff, x, limit, y, Gt);
    n := 3;
    var r := Compare(w.platform, Gt, x, y);
    if r.Ok? {
      var m1 := m';
      GoesBasics(w, im, top, m, 3, s, m1);
      assert m1.stack == [] + [r.value];
      m' := BranchGoes(w, im, top, s, m1, JmpIf, end, [], r.value);
      GoesTrans(w, im, top, m, 3, s, m1, top, 1, s, m');
      n := 4;
    }
  }

  /** The step: the variable takes the sum, or the addition traps. */
  lemma Advances(w: World, im: Image, top: nat, env: Env, s: State, m: Machine, x: string, inc: nat, step: Value)
    returns (n: nat, m': Machine)
    requires im.platform == w.platform && Holds(w, s, m) && m.stack == [] && SubEnv(env, w.env)
    requires InData(env, x)
    requires CodeAt(im.code, m.pc, Advance(env[x].offset, inc))
    requires m.data.Valid() && Load(m.data, inc) == Some(step)
    requires x in s.vars ==> var v := Arith(w.platform, Add, s.vars[x], step); v.Ok? ==> StoreFits(w, x, v.value)
    ensures n <= 4 && x in s.vars
    ensures var v := Arith(w.platform, Add, s.vars[x], step);
            Done(w, im, top, m, if v.Err? then Fault(v.trap) else Write(w, s, x, v.value), m.pc + 16, n, m')
  {
    hide Holds, Goes, CodeAt, Load, Decode, Arith, Run, Done, Write, SubEnv;
    assert w.env[x] == env[x] && InData(w.env, x) by { NameKept(env, w.env, x); }
    VarHeld(w, s, m, x);
    var off := env[x].offset;
    var head := [Simple(LdData, off), Simple(LdData, inc), Simple(Add, 0)];
    assert Advance(off, inc) == head + [Simple(StData, off)];
    CodeAtSplit(im.code, m.pc, head, [Simple(StData, off)]);
    CodeAtThree(im.code, m.pc, head[0], head[1], head[2]);
    CodeAtOne(im.code, m.pc + 12, Simple(StData, off));
    m' := SlotSlot(w, im, top, s, m, off, s.vars[x], inc, step, Add);
    n := 3;
    var v := Arith(w.platform, Add, s.vars[x], step);
    if v.Err? {
      TrapFaults(w, im, top, m, v.trap, m.pc + 16, n, m');
    } else {
      var m1 := m';
      GoesBasics(w, im, top, m, 3, s, m1);
      m' := TargetRuns(w, im, top, env, s, m1, x, v.value);
      DoneAfter(w, im, top, m, 3, s, m1, top, Write(w, s, x, v.value), m1.pc + 4, 1, m');
      n := 4;
    }
  }

  lemma NameKept(env: Env, full: Env, x: string)
    requires SubEnv(env, full) && x in env
    ensures x in full && full[x] == env[x]
  {}

  function ForLap(st: Stmt): nat
    requires st.For?
  {
    SeqSteps(st.body) + 17
  }

  /** Control is at the head of a FOR with `k` iterations left. */
  ghost predicate AtForHead(w: World, im: Image, s: State, m: Machine, p: ForPlan, limit: Value, step: Value, k: nat, len: nat)
  {
    Holds(w, s, m) && NeverOverflows(im, m) && m.stack == [] && m.pc == p.head && |m.data.bytes| == len && Primed(m, p, limit, step, k)
  }

  lemma {:induction false} ForLoop(w: World, im: Image, gEnd: nat, st: Stmt, f: ForShape, len: nat, s: State, m: Machine,
                                   limit: Value, step: Value, k: nat)
    returns (n: nat, m': Machine)
    requires ForCode(w, im, gEnd, st, f, len) && AtForHead(w, im, s, m, f.p, limit, step, k, len)
    requires TameFor(w, s, st.v, limit, step, st.body, k)
    ensures n <= Laps(k, ForLap(st))
    ensures Done(w, im, f.p.limit, m, ExecFor(w, s, st.v, limit, step, st.body, k), f.end, n, m')
    decreases st.body, 3, k, 1
  {
    hide Holds, Goes, CodeAt, Decode, Load, Free, Region, LowerSeq, CheckSeq, TameSeq, ExecSeq, SeqSteps, Slots, SubEnv,
         CodeSize, CounterTest, CountDown, LimitTest, Advance, CounterValue, Done, Run, Compare, Arith;
    var p, top := f.p, f.p.limit;
    RegionNames(w.env, gEnd, p.env, p.cur, f.body.env, f.body.cur, len);
    NameKept(p.env, w.env, st.v);
    VarHeld(w, s, m, st.v);
    var x := s.vars[st.v];
    var m1 := TestCounter(w, im, top, s, m, p.counter, k, f.end);
    GoesBasics(w, im, top, m, 4, s, m1);
    if k == 0 {
      n, m' := 4, m1;
      DoneNext(w, im, top, m, n, s, m');
    } else {
      var a, m2 := TestLimit(w, im, top, s, m1, p.varOff, x, p.limit, limit, f.end);
      var past := Compare(w.platform, Gt, x, limit);
      if past.Err? {
        TrapFaults(w, im, top, m1, past.trap, f.end, a, m2);
        DoneAfter(w, im, top, m, 4, s, m1, top, Fault(past.trap), f.end, a, m2);
        n, m' := 4 + a, m2;
      } else {
        GoesTrans(w, im, top, m, 4, s, m1, top, a, s, m2);
        GoesBasics(w, im, top, m, 4 + a, s, m2);
        if AsBool(past.value) {
          n, m' := 4 + a, m2;
          DoneNext(w, im, top, m, n, s, m');
        } else {
          var b, m3 := ForLap1(w, im, gEnd, st, f, len, s, m2, limit, step, k);
          DoneAfter(w, im, top, m, 4 + a, s, m2, top, ForRest(w, s, st, limit, step, k), f.end, b, m3);
          n, m' := 4 + a + b, m3;
        }
      }
    }
  }

  /** What an iteration that passed its tests amounts to. */
  ghost function ForRest(w: World, s: State, st: Stmt, limit: Value, step: Value, k: nat): Flow
    requires st.For? && k > 0
  {
    var f := ExecSeq(w, s, st.body);
    if !f.Next? then f
    else
      var g := ForStep(w, f.s, st.v, step);
      if g.Next? then ExecFor(w, g.s, st.v, limit, step, st.body, k - 1) else g
  }

  ghost function ForStep(w: World, s: State, x: string, step: Value): Flow
  {
    if x !in s.vars then Fault(Bounds)
    else
      var v := Arith(w.platform, Add, s.vars[x], step);
      if v.Err? then Fault(v.trap) else Write(w, s, x, v.value)
  }

  /** One iteration, from the start of the body, and what follows it. */
  lemma {:induction false} ForLap1(w: World, im: Image, gEnd: nat, st: Stmt, f: ForShape, len: nat, s: State, m: Machine,
                                   limit: Value, step: Value, k: nat)
    returns (n: nat, m': Machine)
    requires ForCode(w, im, gEnd, st, f, len) && k > 0
    requires Holds(w, s, m) && NeverOverflows(im, m) && m.stack == [] && m.pc == f.p.head + 36 && |m.data.bytes| == len
    requires Primed(m, f.p, limit, step, k) && TameSeq(w, s, st.body)
    requires var e := ExecSeq(w, s, st.body); e.Next? ==> TameStep(w, e.s, st.v, limit, step, st.body, k - 1)
    ensures n <= SeqSteps(st.body) + 9 + Laps(k - 1, ForLap(st))
    ensures Done(w, im, f.p.limit, m, ForRest(w, s, st, limit, step, k), f.end, n, m')
    decreases st.body, 3, k, 0
  {
    hide Holds, Goes, CodeAt, Decode, Load, Free, Region, LowerSeq, CheckSeq, TameSeq, ExecSeq, SeqSteps, Slots, SubEnv, ExecFor,
         CodeSize, CounterTest, CountDown, LimitTest, Advance, CounterValue, Run, Arith, ForStep, Primed, Laps;
    var p, top := f.p, f.p.limit;
    var top1 := Frontier(gEnd, p.cur);
    SlotOrder(w.env, p, len);
    n, m' := SeqRuns(w, im, gEnd, p.env, p.cur, s, m, st.body);
    var e := ExecSeq(w, s, st.body);
    DoneLower(w, im, top, top1, m, e, f.end - 40, n, m');
    if e.Next? {
      var m1 := m';
      GoesBasics(w, im, top1, m, n, e.s, m1);
      SlotsKept(w, im, top1, m, n, e.s, m1, p, limit, step, k);
      var a, m2 := ForTail(w, im, gEnd, st, f, len, e.s, m1, limit, step, k);
      hide Done;
      DoneAfter(w, im, top, m, n, e.s, m1, top, ForRest(w, s, st, limit, step, k), f.end, a, m2);
      n, m' := n + a, m2;
    }
  }

  lemma SlotOrder(env: Env, p: ForPlan, len: nat)
    requires Slots(env, p, len)
    ensures p.limit + 4 <= p.inc && p.inc + 4 <= p.counter && p.counter + 4 == p.cur <= len
  {}

  /** Behind the body: the step, the count-down and the remaining iterations. */
  lemma {:induction false} ForTail(w: World, im: Image, gEnd: nat, st: Stmt, f: ForShape, len: nat, s: State, m: Machine,
                                   limit: Value, step: Value, k: nat)
    returns (n: nat, m': Machine)
    requires ForCode(w, im, gEnd, st, f, len) && k > 0
    requires Holds(w, s, m) && NeverOverflows(im, m) && m.stack == [] && m.pc == f.end - 40 && |m.data.bytes| == len
    requires Primed(m, f.p, limit, step, k) && TameStep(w, s, st.v, limit, step, st.body, k - 1)
    ensures n <= 9 + Laps(k - 1, ForLap(st))
    ensures var g := ForStep(w, s, st.v, step);
            Done(w, im, f.p.limit, m, if g.Next? then ExecFor(w, g.s, st.v, limit, step, st.body, k - 1) else g, f.end, n, m')
    decreases st.body, 3, k - 1, 2
  {
    hide Holds, Goes, CodeAt, Decode, Load, Free, Region, LowerSeq, CheckSeq, TameSeq, ExecSeq, SeqSteps, Slots, SubEnv, ExecFor,
         CodeSize, CounterTest, CountDown, LimitTest, Advance, CounterValue, Run, Arith, Write, Laps;
    var p, top := f.p, f.p.limit;
    var top1 := Frontier(gEnd, p.cur);
    SlotOrder(w.env, p, len);
    RegionNames(w.env, gEnd, p.env, p.cur, f.body.env, f.body.cur, len);
    n, m' := Advances(w, im, top1, p.env, s, m, st.v, p.inc, step);
    var g := ForStep(w, s, st.v, step);
    DoneLower(w, im, top, top1, m, g, f.end - 24, n, m');
    if g.Next? {
      var m1 := m';
      GoesBasics(w, im, top1, m, n, g.s, m1);
      SlotsKept(w, im, top1, m, n, g.s, m1, p, limit, step, k);
      var m2 := CountsDownPrimed(w, im, g.s, m1, p, limit, step, k);
      GoesBasics(w, im, top, m1, 5, g.s, m2);
      GoesTrans(w, im, top, m, n, g.s, m1, top, 5, g.s, m2);
      var a, m3 := ForLoop(w, im, gEnd, st, f, len, g.s, m2, limit, step, k - 1);
      hide Done;
      DoneAfter(w, im, top, m, n + 5, g.s, m2, top, ExecFor(w, g.s, st.v, limit, step, st.body, k - 1), f.end, a, m3);
      n, m' := n + 5 + a, m3;
    }
  }

  lemma SubRegion(full: Env, gEnd: nat, env: Env, c0: nat, c1: nat, c2: nat, c3: nat, len: nat)
    requires Region(full, gEnd, env, c0, env, c3, len) && c0 <= c1 <= c2 <= c3
    ensures Region(full, gEnd, env, c1, env, c2, len)
  {
    hide Region, Extends;
    CursorMoves(gEnd, env, c0, c2);
    CursorMoves(gEnd, env, c2, c3);
    CursorMoves(gEnd, env, c0, c1);
    CursorMoves(gEnd, env, c1, c2);
    RegionSplit(full, gEnd, env, c0, env, c2, env, c3, len);
    RegionSplit(full, gEnd, env, c0, env, c1, env, c2, len);
  }

  /** The pieces of the plan, in order. */
  lemma PlanOrder(gEnd: nat, env: Env, cur: nat, pc: nat, st: Stmt)
    requires st.For?
    ensures var f := ShapeFor(gEnd, env, cur, pc, st);
            var p := f.p;
            && p.env == DeclareLoopVar(gEnd, env, cur, st.v).1
            && p.first == LowerExpr(gEnd, p.env, f.varCur, pc, st.first)
            && p.last == LowerExpr(gEnd, p.env, p.limit + 4, f.lastPc, st.last)
            && p.step == LowerExpr(gEnd, p.env, p.inc + 4, f.stepPc, StepExpr(st))
            && f.lastPc == pc + CodeSize(p.first.ins) + 4
            && f.stepPc == f.lastPc + CodeSize(p.last.ins) + 4
            && f.startPc == f.stepPc + CodeSize(p.step.ins) + 4
            && p.head == f.startPc + 12
            && p.varOff == LoopVarOffset(p.env, st.v)
            && f.body == LowerSeq(gEnd, p.env, p.cur, p.head + 36, st.body)
            && f.end == p.head + 76 + CodeSize(f.body.ins)
    ensures var f := ShapeFor(gEnd, env, cur, pc, st);
            var p := f.p;
            && cur <= f.varCur <= p.first.cur && Frontier(gEnd, p.first.cur) <= p.limit
            && p.limit + 4 <= p.last.cur && Frontier(gEnd, p.last.cur) <= p.inc
            && p.inc + 4 <= p.step.cur && Frontier(gEnd, p.step.cur) <= p.counter && p.cur == p.counter + 4
            && f.varCur <= p.limit + 4 <= p.last.cur <= p.inc + 4 <= p.step.cur <= p.cur
  {
    hide LowerExpr, LowerSeq, CodeSize, Extends, AllocTemp;
    var f := ShapeFor(gEnd, env, cur, pc, st);
    var p := f.p;
    assert p.step == LowerExpr(gEnd, p.env, p.inc + 4, f.stepPc, StepExpr(st)) by { StepLowered(gEnd, p.env, p.inc + 4, f.stepPc, st); }
    ExprExtends(gEnd, p.env, f.varCur, pc, st.first);
    ExprExtends(gEnd, p.env, p.limit + 4, f.lastPc, st.last);
    ExprExtends(gEnd, p.env, p.inc + 4, f.stepPc, StepExpr(st));
  }

  lemma StepLowered(gEnd: nat, env: Env, cur: nat, pc: nat, st: Stmt)
    requires st.For?
    ensures LowerStep(gEnd, env, cur, pc, st.step) == LowerExpr(gEnd, env, cur, pc, StepExpr(st))
  {}

  /** The instructions before the loop of a FOR. */
  lemma SetupPieces(code: seq<byte>, gEnd: nat, env: Env, cur: nat, pc: nat, st: Stmt)
    requires st.For? && CodeAt(code, pc, ShapeFor(gEnd, env, cur, pc, st).p.Setup())
    ensures var f := ShapeFor(gEnd, env, cur, pc, st);
            var p := f.p;
            && CodeSize(p.Setup()) == f.startPc - pc
            && CodeAt(code, pc, p.first.ins) && DecodesTo(code, f.lastPc - 4, Simple(StData, p.varOff))
            && CodeAt(code, f.lastPc, p.last.ins) && DecodesTo(code, f.stepPc - 4, Simple(StData, p.limit))
            && CodeAt(code, f.stepPc, p.step.ins) && DecodesTo(code, f.startPc - 4, Simple(StData, p.inc))
  {
    hide LowerExpr, LowerSeq, CodeAt, CodeSize, Decode, PlanFor;
    var f := ShapeFor(gEnd, env, cur, pc, st);
    var p := f.p;
    var s1, s2, s3 := Simple(StData, p.varOff), Simple(StData, p.limit), Simple(StData, p.inc);
    var a := p.first.ins + [s1] + p.last.ins;
    var b := a + [s2] + p.step.ins;
    assert p.Setup() == b + [s3];
    CodeAtSplit(code, pc, b, [s3]);
    CodeAtSplit3(code, pc, a, [s2], p.step.ins);
    CodeAtSplit3(code, pc, p.first.ins, [s1], p.last.ins);
    CodeSizeAppend(b, [s3]);
    JoinSize(a, [s2], p.step.ins);
    JoinSize(p.first.ins, [s1], p.last.ins);
    CodeAtOne(code, pc + CodeSize(p.first.ins), s1);
    CodeAtOne(code, pc + CodeSize(a), s2);
    CodeAtOne(code, pc + CodeSize(b), s3);
  }

  /** The instructions of a FOR, one piece after the other. */
  lemma ForPieces(code: seq<byte>, gEnd: nat, env: Env, cur: nat, pc: nat, st: Stmt)
    requires st.For? && CheckStmt(gEnd, env, cur, pc, st).Accept? && CodeAt(code, pc, LowerStmt(gEnd, env, cur, pc, st).ins)
    ensures var f := ShapeFor(gEnd, env, cur, pc, st);
            var p := f.p;
            && CodeSize(LowerStmt(gEnd, env, cur, pc, st).ins) == f.end - pc
            && CodeAt(code, pc, p.Setup())
            && CodeAt(code, f.startPc, StartCounter(ForLimit(st), p.counter))
            && CodeAt(code, p.head, CounterTest(p.counter, f.end))
            && CodeAt(code, p.head + 20, LimitTest(p.varOff, p.limit, f.end))
            && CodeAt(code, p.head + 36, f.body.ins)
            && CodeAt(code, f.end - 40, Advance(p.varOff, p.inc))
            && CodeAt(code, f.end - 24, CountDown(p.counter, p.head))
  {
    hide LowerExpr, LowerSeq, LowerStmt, CodeAt, CodeSize, CounterTest, CountDown, LimitTest, Advance, StartCounter, ForCap, PlanFor, CheckStmt,
         CheckSeq, TypeExpr, ForPlan.Setup;
    ForUnfolds(gEnd, env, cur, pc, st);
    var f := ShapeFor(gEnd, env, cur, pc, st);
    var p := f.p;
    PlanOrder(gEnd, env, cur, pc, st);
    var start, test := StartCounter(ForLimit(st), p.counter), CounterTest(p.counter, f.end);
    var limit, adv, down := LimitTest(p.varOff, p.limit, f.end), Advance(p.varOff, p.inc), CountDown(p.counter, p.head);
    var c := p.Setup() + start + test;
    var d := c + limit + f.body.ins;
    SetupSize(gEnd, env, cur, pc, st);
    CodeAtSplit3(code, pc, d, adv, down);
    CodeAtSplit3(code, pc, c, limit, f.body.ins);
    CodeAtSplit3(code, pc, p.Setup(), start, test);
    JoinSize(d, adv, down);
    JoinSize(c, limit, f.body.ins);
    JoinSize(p.Setup(), start, test);
    GroupSizes(ForLimit(st), p.counter, p.head, f.end);
    ForGroupSizes(p.varOff, p.limit, p.inc, f.end);
  }

  lemma SetupSize(gEnd: nat, env: Env, cur: nat, pc: nat, st: Stmt)
    requires st.For?
    ensures var f := ShapeFor(gEnd, env, cur, pc, st); CodeSize(f.p.Setup()) == f.startPc - pc
  {
    hide LowerExpr, LowerSeq, CodeSize, PlanFor;
    var p := ShapeFor(gEnd, env, cur, pc, st).p;
    var s1, s2, s3 := Simple(StData, p.varOff), Simple(StData, p.limit), Simple(StData, p.inc);
    JoinSize(p.first.ins + [s1] + p.last.ins + [s2], p.step.ins, [s3]);
    JoinSize(p.first.ins + [s1], p.last.ins, [s2]);
    CodeSizeAppend(p.first.ins, [s1]);
    OneSize(s1);
    OneSize(s2);
    OneSize(s3);
  }

  /** The scopes of a FOR, one inside the other, and its scratch slots. */
  lemma ForRegions(full: Env, gEnd: nat, env: Env, cur: nat, pc: nat, st: Stmt, len: nat)
    requires st.For?
    requires var b := LowerStmt(gEnd, env, cur, pc, st); Region(full, gEnd, env, cur, b.env, b.cur, len)
    ensures var f := ShapeFor(gEnd, env, cur, pc, st);
            var p := f.p;
            && Region(full, gEnd, p.env, f.varCur, p.env, p.first.cur, len)
            && Region(full, gEnd, p.env, p.limit + 4, p.env, p.last.cur, len)
            && Region(full, gEnd, p.env, p.inc + 4, p.env, p.step.cur, len)
            && Region(full, gEnd, p.env, p.cur, f.body.env, f.body.cur, len)
            && Slots(full, p, len) && Frontier(gEnd, cur) <= p.limit && Frontier(gEnd, cur) <= Frontier(gEnd, f.varCur)
  {
    hide Region, Extends, LowerExpr, LowerSeq, Free, PlanFor;
    var f := ShapeFor(gEnd, env, cur, pc, st);
    var p, e := f.p, f.p.env;
    var b := LowerStmt(gEnd, env, cur, pc, st);
    assert b.env == f.body.env && b.cur == f.body.cur;
    PlanOrder(gEnd, env, cur, pc, st);
    LoopVarExtends(gEnd, env, cur, st.v);
    CursorMoves(gEnd, e, f.varCur, p.cur);
    SeqExtends(gEnd, e, p.cur, p.head + 36, st.body);
    ExtendsTrans(gEnd, e, f.varCur, e, p.cur, b.env, b.cur);
    RegionSplit(full, gEnd, env, cur, e, f.varCur, b.env, b.cur, len);
    RegionSplit(full, gEnd, e, f.varCur, e, p.cur, b.env, b.cur, len);
    SubRegion(full, gEnd, e, f.varCur, f.varCur, p.first.cur, p.cur, len);
    SubRegion(full, gEnd, e, f.varCur, p.limit + 4, p.last.cur, p.cur, len);
    SubRegion(full, gEnd, e, f.varCur, p.inc + 4, p.step.cur, p.cur, len);
    RegionFree(full, gEnd, e, f.varCur, p.cur, len);
    FreeWithin(full, Frontier(gEnd, f.varCur), p.cur, p.limit, p.limit + 4);
    FreeWithin(full, Frontier(gEnd, f.varCur), p.cur, p.inc, p.inc + 4);
    FreeWithin(full, Frontier(gEnd, f.varCur), p.cur, p.counter, p.counter + 4);
  }

  lemma ForChecked(gEnd: nat, env: Env, cur: nat, pc: nat, st: Stmt)
    requires st.For? && CheckStmt(gEnd, env, cur, pc, st).Accept?
    ensures var f := ShapeFor(gEnd, env, cur, pc, st);
            var p := f.p;
            && InData(p.env, st.v) && p.env[st.v].offset == p.varOff
            && TypeExpr(p.env, st.first).Accept? && TypeExpr(p.env, st.last).Accept? && TypeExpr(p.env, StepExpr(st)).Accept?
            && CheckSeq(gEnd, p.env, p.cur, p.head + 36, st.body).Accept?
            && StoreName(p.env, Name(st.v)) == Simple(StData, p.varOff)
            && CheckTarget(p.env, Name(st.v)) == Accept(p.env[st.v])
            && ForLimit(st) < 0x1_0000_0000
  {
    hide LowerExpr, CheckSeq;
  }

  ghost function ForBounds(w: World, s: State, st: Stmt): Flow
    requires st.For?
  {
    var b := Eval(w, s, st.last);
    if b.Err? then Fault(b.trap)
    else
      var c := Eval(w, s, StepExpr(st));
      if c.Err? then Fault(c.trap) else ExecFor(w, s, st.v, b.value, c.value, st.body, ForLimit(st))
  }

  /** The part of TameStmt about a FOR whose variable has been set. */
  ghost predicate TameBounds(w: World, s: State, st: Stmt)
    requires st.For?
  {
    && TameSaved(w, s, st.last, 4) && TameSaved(w, s, StepExpr(st), 4)
    && var b, c := Eval(w, s, st.last), Eval(w, s, StepExpr(st));
       b.Ok? && c.Ok? ==> TameFor(w, s, st.v, b.value, c.value, st.body, ForLimit(st))
  }

  lemma ForTame(w: World, s: State, st: Stmt)
    requires st.For? && TameStmt(w, s, st)
    ensures TameExpr(w, s, st.first)
    ensures var a := Eval(w, s, st.first);
            a.Ok? ==> StoreFits(w, st.v, a.value) && var g := Write(w, s, st.v, a.value); g.Next? ==> TameBounds(w, g.s, st)
  {
    hide Eval, Write, TameFor, TameExpr, ForLimit, StepExpr, StoreFits, TameSaved;
  }

  lemma ForMeaning(w: World, s: State, st: Stmt)
    requires st.For?
    ensures var a := Eval(w, s, st.first);
            Exec(w, s, st)
            == if a.Err? then Fault(a.trap)
               else var g := Write(w, s, st.v, a.value); if g.Next? then ForBounds(w, g.s, st) else g
    ensures StmtSteps(st) == ExprSteps(st.first) + ExprSteps(st.last) + ExprSteps(StepExpr(st)) + 5 + Laps(ForLimit(st), ForLap(st))
  {
    hide ExecFor, ForCap, Write, Laps;
    assert Eval(w, s, Literal(IntLit(1))) == Ok(Dint(1));
  }

  /** The limit and the step are evaluated once, into their slots. */
  lemma BoundsPrimed(w: World, im: Image, gEnd: nat, s: State, m: Machine, st: Stmt, f: ForShape)
    returns (n: nat, m': Machine)
    requires ForCode(w, im, gEnd, st, f, |m.data.bytes|)
    requires ForReady(w, im, gEnd, st, f, |m.data.bytes|)
    requires Holds(w, s, m) && NeverOverflows(im, m) && m.stack == [] && m.pc == f.lastPc
    requires TameSaved(w, s, st.last, 4) && TameSaved(w, s, StepExpr(st), 4)
    ensures n <= ExprSteps(st.last) + ExprSteps(StepExpr(st)) + 4 && m.Valid()
    ensures var b := Eval(w, s, st.last);
            var c := Eval(w, s, StepExpr(st));
            if b.Err? then Run(im, m, n) == Trapped(b.trap)
            else if c.Err? then Run(im, m, n) == Trapped(c.trap)
            else Goes(w, im, f.p.limit, m, n, s, m') && AtForHead(w, im, s, m', f.p, b.value, c.value, ForLimit(st), |m.data.bytes|)
  {
    hide Holds, Goes, CodeAt, Decode, Load, Free, Region, LowerExpr, LowerSeq, CheckSeq, TameSeq, TameExpr, TypeExpr, Eval, ExprSteps,
         CodeSize, CounterTest, CountDown, LimitTest, Advance, StartCounter, CounterValue, Run, SubEnv, ForLimit, StepExpr;
    var p, top, len := f.p, f.p.limit, |m.data.bytes|;
    HoldsBasics(w, s, m);
    n, m' := SlotRuns(w, im, gEnd, p.env, p.limit + 4, s, m, st.last, p.limit, 4, top);
    var b := Eval(w, s, st.last);
    if b.Ok? {
      var m1 := m';
      GoesBasics(w, im, top, m, n, s, m1);
      var k, m2 := SlotRuns(w, im, gEnd, p.env, p.inc + 4, s, m1, StepExpr(st), p.inc, 4, p.inc);
      var c := Eval(w, s, StepExpr(st));
      GoesThen(w, im, top, m, n, s, m1, k);
      if c.Ok? {
        GoesBasics(w, im, p.inc, m1, k, s, m2);
        ScratchKept(w.env, p.inc, m1.data, m2.data, p.limit, 4);
        GoesTrans(w, im, top, m, n, s, m1, p.inc, k, s, m2);
        m' := StartsCounter(w, im, p.counter, s, m2, p.counter, ForLimit(st));
        GoesBasics(w, im, p.counter, m2, 2, s, m');
        ScratchKept(w.env, p.counter, m2.data, m'.data, p.limit, 4);
        ScratchKept(w.env, p.counter, m2.data, m'.data, p.inc, 4);
        GoesTrans(w, im, top, m, n + k, s, m2, p.counter, 2, s, m');
        n := n + k + 2;
      } else {
        n := n + k;
      }
    }
  }

  /** What the part before the loop needs besides ForCode. */
  ghost predicate ForReady(w: World, im: Image, gEnd: nat, st: Stmt, f: ForShape, len: nat)
    requires st.For?
  {
    var p := f.p;
    && p.last == LowerExpr(gEnd, p.env, p.limit + 4, f.lastPc, st.last)
    && p.step == LowerExpr(gEnd, p.env, p.inc + 4, f.stepPc, StepExpr(st))
    && f.stepPc == f.lastPc + CodeSize(p.last.ins) + 4
    && f.startPc == f.stepPc + CodeSize(p.step.ins) + 4
    && p.head == f.startPc + 12
    && CodeAt(im.code, f.lastPc, p.last.ins) && DecodesTo(im.code, f.stepPc - 4, Simple(StData, p.limit))
    && CodeAt(im.code, f.stepPc, p.step.ins) && DecodesTo(im.code, f.startPc - 4, Simple(StData, p.inc))
    && CodeAt(im.code, f.startPc, StartCounter(ForLimit(st), p.counter))
    && Region(w.env, gEnd, p.env, p.limit + 4, p.env, p.last.cur, len)
    && Region(w.env, gEnd, p.env, p.inc + 4, p.env, p.step.cur, len)
    && TypeExpr(p.env, st.last).Accept? && TypeExpr(p.env, StepExpr(st)).Accept?
    && ForLimit(st) < 0x1_0000_0000
  }

  lemma ForLayout(w: World, im: Image, gEnd: nat, env: Env, cur: nat, s: State, m: Machine, st: Stmt)
    requires st.For? && At(w, im, gEnd, env, cur, s, m, LowerStmt(gEnd, env, cur, m.pc, st))
    requires CheckStmt(gEnd, env, cur, m.pc, st).Accept?
    ensures var f := ShapeFor(gEnd, env, cur, m.pc, st);
            && ForCode(w, im, gEnd, st, f, |m.data.bytes|) && ForReady(w, im, gEnd, st, f, |m.data.bytes|)
            && InData(w.env, st.v) && w.env[st.v] == f.p.env[st.v]
  {
    hide Holds, CodeAt, Decode, Free, Region, LowerExpr, LowerSeq, LowerStmt, CheckStmt, TameStmt, CheckSeq, TameSeq, TameExpr, TypeExpr,
         CodeSize, CounterTest, CountDown, LimitTest, Advance, StartCounter, SubEnv, ForLimit, StepExpr, ShapeFor, Slots;
    var f := ShapeFor(gEnd, env, cur, m.pc, st);
    var len := |m.data.bytes|;
    ForPieces(im.code, gEnd, env, cur, m.pc, st);
    SetupPieces(im.code, gEnd, env, cur, m.pc, st);
    ForRegions(w.env, gEnd, env, cur, m.pc, st, len);
    ForChecked(gEnd, env, cur, m.pc, st);
    PlanOrder(gEnd, env, cur, m.pc, st);
    RegionNames(w.env, gEnd, f.p.env, f.p.cur, f.body.env, f.body.cur, len);
    NameKept(f.p.env, w.env, st.v);
  }

  lemma {:induction false} ForRuns(w: World, im: Image, gEnd: nat, env: Env, cur: nat, s: State, m: Machine, st: Stmt)
    returns (n: nat, m': Machine)
    requires st.For?
    requires At(w, im, gEnd, env, cur, s, m, LowerStmt(gEnd, env, cur, m.pc, st))
    requires CheckStmt(gEnd, env, cur, m.pc, st).Accept? && TameStmt(w, s, st)
    ensures n <= StmtSteps(st)
    ensures Done(w, im, Frontier(gEnd, cur), m, Exec(w, s, st), m.pc + CodeSize(LowerStmt(gEnd, env, cur, m.pc, st).ins), n, m')
    decreases st, 1
  {
    hide Holds, Goes, CodeAt, Decode, Region, LowerExpr, LowerSeq, LowerStmt, CheckStmt, TameStmt, TameExpr, TypeExpr, Eval, Exec, Write,
         CodeSize, Run, ForLimit, StepExpr, ShapeFor, ForCode, ForReady, ForBounds, TameBounds, StmtSteps, ExprSteps, Laps, ForLap, Done, Slots, StoreName, CheckTarget;
    var top := Frontier(gEnd, cur);
    var f := ShapeFor(gEnd, env, cur, m.pc, st);
    ForLayout(w, im, gEnd, env, cur, s, m, st);
    ForPieces(im.code, gEnd, env, cur, m.pc, st);
    SetupPieces(im.code, gEnd, env, cur, m.pc, st);
    ForRegions(w.env, gEnd, env, cur, m.pc, st, |m.data.bytes|);
    ForChecked(gEnd, env, cur, m.pc, st);
    PlanOrder(gEnd, env, cur, m.pc, st);
    ForMeaning(w, s, st);
    ForTame(w, s, st);
    n, m' := StoresTo(w, im, gEnd, f.p.env, f.varCur, s, m, st.first, st.v);
    var a := Eval(w, s, st.first);
    var g := if a.Err? then Fault(a.trap) else Write(w, s, st.v, a.value);
    if g.Next? {
      DoneLower(w, im, top, Frontier(gEnd, f.varCur), m, g, f.lastPc, n, m');
      var k, m2 := ForFromBounds(w, im, gEnd, top, g.s, m, st, f, n, m');
      n, m' := n + k, m2;
    } else {
      StopsLower(w, im, top, Frontier(gEnd, f.varCur), m, g, f.lastPc, f.end, n, m');
    }
  }

  lemma StopsLower(w: World, im: Image, top: nat, top': nat, m: Machine, f: Flow, pc: nat, pc': nat, n: nat, m': Machine)
    requires !f.Next? && Done(w, im, top', m, f, pc, n, m')
    ensures Done(w, im, top, m, f, pc', n, m')
  {
    hide Run, Holds;
  }

  /** From the bounds to the end of the FOR, after `a` steps that set the variable. */
  lemma {:induction false} ForFromBounds(w: World, im: Image, gEnd: nat, top: nat, s: State, m: Machine, st: Stmt, f: ForShape, a: nat, m1: Machine)
    returns (n: nat, m': Machine)
    requires st.For? && ForCode(w, im, gEnd, st, f, |m.data.bytes|) && ForReady(w, im, gEnd, st, f, |m.data.bytes|)
    requires top <= f.p.limit && Done(w, im, top, m, Next(s), f.lastPc, a, m1) && NeverOverflows(im, m)
    requires TameBounds(w, s, st)
    ensures n <= ExprSteps(st.last) + ExprSteps(StepExpr(st)) + 4 + Laps(ForLimit(st), ForLap(st))
    ensures Done(w, im, top, m, ForBounds(w, s, st), f.end, a + n, m')
    decreases st, 0
  {
    hide Holds, Goes, Eval, Run, ForLimit, StepExpr, ForCode, ForReady, ExprSteps, Laps, ForLap, ExecFor, AtForHead, CodeAt;
    GoesBasics(w, im, top, m, a, s, m1);
    n, m' := BoundsPrimed(w, im, gEnd, s, m1, st, f);
    var b, c := Eval(w, s, st.last), Eval(w, s, StepExpr(st));
    if b.Err? || c.Err? {
      var t := if b.Err? then b.trap else c.trap;
      TrapFaults(w, im, top, m1, t, f.end, n, m');
      DoneAfter(w, im, top, m, a, s, m1, top, Fault(t), f.end, n, m');
    } else {
      var m2 := m';
      GoesTrans(w, im, top, m, a, s, m1, f.p.limit, n, s, m2);
      var k, m3 := ForLoop(w, im, gEnd, st, f, |m.data.bytes|, s, m2, b.value, c.value, ForLimit(st));
      hide Done;
      DoneAfter(w, im, top, m, a + n, s, m2, f.p.limit, ForBounds(w, s, st), f.end, k, m3);
      n, m' := n + k, m3;
    }
  }

  lemma {:induction false} StmtRuns(w: World, im: Image, gEnd: nat, env: Env, cur: nat, s: State, m: Machine, st: Stmt)
    returns (n: nat, m': Machine)
    requires At(w, im, gEnd, env, cur, s, m, LowerStmt(gEnd, env, cur, m.pc, st))
    requires CheckStmt(gEnd, env, cur, m.pc, st).Accept? && TameStmt(w, s, st)
    ensures n <= StmtSteps(st)
    ensures Done(w, im, Frontier(gEnd, cur), m, Exec(w, s, st), m.pc + CodeSize(LowerStmt(gEnd, env, cur, m.pc, st).ins), n, m')
    decreases st, 2
  {
    hide At, LowerStmt, CheckStmt, TameStmt, StmtSteps, Done, Exec, CodeSize;
    match st {
      case Empty => n, m' := EmptyRuns(w, im, gEnd, env, cur, s, m, st);
      case Return => n, m' := ReturnRuns(w, im, gEnd, env, cur, s, m, st);
      case Assign(_, _) => n, m' := AssignRuns(w, im, gEnd, env, cur, s, m, st);
      case If(_, _) => n, m' := IfRuns(w, im, gEnd, env, cur, s, m, st);
      case Case(_, _, _) => n, m' := CaseRuns(w, im, gEnd, env, cur, s, m, st);
      case While(_, _, _) => n, m' := WhileRuns(w, im, gEnd, env, cur, s, m, st);
      case For(_, _, _, _, _, _) => n, m' := ForRuns(w, im, gEnd, env, cur, s, m, st);
    }
  }

  lemma EmptyRuns(w: World, im: Image, gEnd: nat, env: Env, cur: nat, s: State, m: Machine, st: Stmt)
    returns (n: nat, m': Machine)
    requires st.Empty? && At(w, im, gEnd, env, cur, s, m, LowerStmt(gEnd, env, cur, m.pc, st))
    ensures n == StmtSteps(st)
    ensures Done(w, im, Frontier(gEnd, cur), m, Exec(w, s, st), m.pc + CodeSize(LowerStmt(gEnd, env, cur, m.pc, st).ins), n, m')
  {
    n, m' := 0, m;
    DoneHere(w, im, Frontier(gEnd, cur), s, m);
  }

  /** At the top of a task a RETURN gives control back to the host. */
  lemma ReturnRuns(w: World, im: Image, gEnd: nat, env: Env, cur: nat, s: State, m: Machine, st: Stmt)
    returns (n: nat, m': Machine)
    requires st.Return? && At(w, im, gEnd, env, cur, s, m, LowerStmt(gEnd, env, cur, m.pc, st))
    ensures n == StmtSteps(st)
    ensures Done(w, im, Frontier(gEnd, cur), m, Exec(w, s, st), m.pc + CodeSize(LowerStmt(gEnd, env, cur, m.pc, st).ins), n, m')
  {
    hide Holds, Region, Run, Decode, Load;
    n, m' := 1, m;
    HoldsBasics(w, s, m);
    CodeAtOne(im.code, m.pc, Simple(Ret, 0));
    OneStep(im, m, Simple(Ret, 0));
  }
}
