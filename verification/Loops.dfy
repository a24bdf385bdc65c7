/** How often loop bodies run, and that whole tasks stop. */
module Loops {
  import opened Bytes
  import opened Ir
  import opened Vm
  import opened St
  import opened Lower
  import opened Check
  import opened Scope
  import opened Simulation
  import opened ExprCorrect
  import opened Place
  import opened StmtCorrect

  // ----- constant-bounds FOR -----

  /** The statement may write the name. */
  predicate Assigns(s: Stmt, x: string)
    decreases s, 0
  {
    match s
    case Empty => false
    case Return => false
    case Assign(lhs, _) => lhs == Name(x)
    case If(branches, els) => AssignsBranches(branches, x) || AssignsElse(els, x)
    case Case(_, arms, els) => AssignsArms(arms, x) || AssignsElse(els, x)
    case While(_, _, body) => AssignsSeq(body, x)
    case For(v, _, _, _, _, body) => v == x || AssignsSeq(body, x)
  }

  predicate AssignsSeq(ss: seq<Stmt>, x: string)
    decreases ss, 0
  {
    ss != [] && (Assigns(ss[0], x) || AssignsSeq(ss[1..], x))
  }

  predicate AssignsElse(els: Else, x: string)
    decreases els, 0
  {
    els.Else? && AssignsSeq(els.body, x)
  }

  predicate AssignsBranches(bs: seq<Branch>, x: string)
    decreases bs, 0
  {
    bs != [] && (AssignsSeq(bs[0].body, x) || AssignsBranches(bs[1..], x))
  }

  predicate AssignsArms(arms: seq<Arm>, x: string)
    decreases arms, 0
  {
    arms != [] && (AssignsSeq(arms[0].body, x) || AssignsArms(arms[1..], x))
  }

  /** A flow that falls through has the name as it was in `s`. */
  predicate Keeps(f: Flow, s: State, x: string)
  {
    f.Next? ==> (x in f.s.vars <==> x in s.vars) && (x in s.vars ==> f.s.vars[x] == s.vars[x])
  }

  lemma {:induction false} StmtKeeps(w: World, s: State, st: Stmt, x: string)
    requires !Assigns(st, x)
    ensures Keeps(Exec(w, s, st), s, x)
    decreases st, 0, 0
  {
    match st {
      case If(branches, els) =>
        BranchesKeep(w, s, branches, x);
        ElseKeeps(w, s, ExecBranches(w, s, branches), els, x);
      case Case(selector, arms, els) =>
        var v := Eval(w, s, selector);
        if v.Ok? {
          ArmsKeep(w, s, v.value, arms, x);
          ElseKeeps(w, s, ExecArms(w, s, v.value, arms), els, x);
        }
      case While(cond, maxIter, body) =>
        WhileKeeps(w, s, cond, body, if maxIter.Some? then maxIter.value else 0, x);
      case For(v, first, last, step, maxIter, body) =>
        ForMeaning(w, s, st);
        var a := Eval(w, s, first);
        if a.Ok? && Write(w, s, v, a.value).Next? {
          var s1 := Write(w, s, v, a.value).s;
          var b, c := Eval(w, s1, last), Eval(w, s1, StepExpr(st));
          if b.Ok? && c.Ok? { ForKeeps(w, s1, v, b.value, c.value, body, ForLimit(st), x); }
        }
      case _ =>
    }
  }

  lemma {:induction false} SeqKeeps(w: World, s: State, ss: seq<Stmt>, x: string)
    requires !AssignsSeq(ss, x)
    ensures Keeps(ExecSeq(w, s, ss), s, x)
    decreases ss, 0, 0
  {
    if ss != [] {
      StmtKeeps(w, s, ss[0], x);
      var f := Exec(w, s, ss[0]);
      if f.Next? { SeqKeeps(w, f.s, ss[1..], x); }
    }
  }

  lemma {:induction false} ElseKeeps(w: World, s: State, taken: Option<Flow>, els: Else, x: string)
    requires !AssignsElse(els, x) && (taken.Some? ==> Keeps(taken.value, s, x))
    ensures Keeps(ExecElse(w, s, taken, els), s, x)
    decreases els, 0, 0
  {
    if els.Else? { SeqKeeps(w, s, els.body, x); }
  }

  lemma {:induction false} BranchesKeep(w: World, s: State, bs: seq<Branch>, x: string)
    requires !AssignsBranches(bs, x)
    ensures var t := ExecBranches(w, s, bs); t.Some? ==> Keeps(t.value, s, x)
    decreases bs, 0, 0
  {
    if bs != [] {
      SeqKeeps(w, s, bs[0].body, x);
      BranchesKeep(w, s, bs[1..], x);
    }
  }

  lemma {:induction false} ArmsKeep(w: World, s: State, sel: Value, arms: seq<Arm>, x: string)
    requires !AssignsArms(arms, x)
    ensures var t := ExecArms(w, s, sel, arms); t.Some? ==> Keeps(t.value, s, x)
    decreases arms, 0, 0
  {
    if arms != [] {
      SeqKeeps(w, s, arms[0].body, x);
      ArmsKeep(w, s, sel, arms[1..], x);
    }
  }

  lemma {:induction false} WhileKeeps(w: World, s: State, cond: Expr, body: seq<Stmt>, k: nat, x: string)
    requires !AssignsSeq(body, x)
    ensures Keeps(ExecWhile(w, s, cond, body, k), s, x)
    decreases body, 1, k
  {
    if k > 0 {
      SeqKeeps(w, s, body, x);
      var f := ExecSeq(w, s, body);
      if f.Next? { WhileKeeps(w, f.s, cond, body, k - 1, x); }
    }
  }

  lemma {:induction false} ForKeeps(w: World, s: State, v: string, limit: Value, step: Value, body: seq<Stmt>, k: nat, x: string)
    requires !AssignsSeq(body, x) && v != x
    ensures Keeps(ExecFor(w, s, v, limit, step, body, k), s, x)
    decreases body, 1, k
  {
    if k > 0 && v in s.vars {
      SeqKeeps(w, s, body, x);
      var f := ExecSeq(w, s, body);
      if f.Next? && v in f.s.vars {
        var a := Arith(w.platform, Add, f.s.vars[v], step);
        if a.Ok? && Write(w, f.s, v, a.value).Next? {
          ForKeeps(w, Write(w, f.s, v, a.value).s, v, limit, step, body, k - 1, x);
        }
      }
    }
  }

  /** How many times a FOR enters its body (a body that does not fall through is the last). */
  function ForLaps(w: World, s: State, x: string, limit: Value, step: Value, body: seq<Stmt>, k: nat): nat
    decreases k
  {
    if k == 0 || x !in s.vars then 0
    else
      var past := Compare(w.platform, Gt, s.vars[x], limit);
      if past.Err? || AsBool(past.value) then 0
      else
        var f := ExecSeq(w, s, body);
        if !f.Next? || x !in f.s.vars then 1
        else
          var v := Arith(w.platform, Add, f.s.vars[x], step);
          if v.Err? || !Write(w, f.s, x, v.value).Next? then 1
          else 1 + ForLaps(w, Write(w, f.s, x, v.value).s, x, limit, step, body, k - 1)
  }

  /** Counting up by one from `a`, a FOR that completes runs its body `k` times when `k`
      values are left up to the limit; the addition may wrap after the last one. */
  lemma {:induction false} CountsUp(w: World, s: State, x: string, a: i32, b: i32, body: seq<Stmt>, k: nat)
    requires InData(w.env, x) && !AssignsSeq(body, x)
    requires x in s.vars && s.vars[x] == Dint(a) && a <= b + 1 && k == b - a + 1
    requires ExecFor(w, s, x, Dint(b), Dint(1), body, k).Next?
    ensures ForLaps(w, s, x, Dint(b), Dint(1), body, k) == k
    ensures var f := ExecFor(w, s, x, Dint(b), Dint(1), body, k);
            x in f.s.vars && f.s.vars[x] == if k == 0 then Dint(a) else Dint(Wrap32(b + 1))
    decreases k
  {
    if k > 0 {
      SeqKeeps(w, s, body, x);
      var f := ExecSeq(w, s, body);
      var g := Write(w, f.s, x, Dint(Wrap32(a + 1)));
      if a < b { CountsUp(w, g.s, x, a + 1, b, body, k - 1); }
    }
  }

  /** Starting past the limit, a FOR does nothing. */
  lemma StartsPast(w: World, s: State, x: string, a: i32, b: i32, body: seq<Stmt>, k: nat)
    requires x in s.vars && s.vars[x] == Dint(a) && a > b
    ensures ForLaps(w, s, x, Dint(b), Dint(1), body, k) == 0
    ensures ExecFor(w, s, x, Dint(b), Dint(1), body, k) == Next(s)
  {}

  /** A completed FOR over literal bounds whose body leaves the variable alone ran its body
      exactly last - first + 1 times if counting from the first bound to the last stays
      within 32 bits, and only then: otherwise it did not run it at all. */
  lemma ConstantFor(w: World, s: State, x: string, a: int, b: int, body: seq<Stmt>)
    requires InData(w.env, x) && !AssignsSeq(body, x)
    requires x in s.vars && s.vars[x] == Dint(Wrap32(a)) && a <= b && b - a + 1 <= MAX_LOOP_DEFAULT
    requires ExecFor(w, s, x, Dint(Wrap32(b)), Dint(1), body, b - a + 1).Next?
    ensures ForCap(Literal(IntLit(a)), Literal(IntLit(b)), None, None) == Accept(b - a + 1)
    ensures ForLaps(w, s, x, Dint(Wrap32(b)), Dint(1), body, b - a + 1) == b - a + 1
            <==> Wrap32(a) + (b - a) < 0x8000_0000
    ensures Wrap32(a) + (b - a) >= 0x8000_0000 ==> ForLaps(w, s, x, Dint(Wrap32(b)), Dint(1), body, b - a + 1) == 0
  {
    hide ExecFor, ForLaps, AssignsSeq, Wrap32;
    WrapApart(a, b);
    if Wrap32(a) + (b - a) < 0x8000_0000 {
      CountsUp(w, s, x, Wrap32(a), Wrap32(b), body, b - a + 1);
    } else {
      StartsPast(w, s, x, Wrap32(a), Wrap32(b), body, b - a + 1);
    }
  }

  lemma WrapApart(a: int, b: int)
    requires a <= b <= a + 10_000
    ensures Wrap32(a) + (b - a) < 0x8000_0000 ==> Wrap32(b) == Wrap32(a) + (b - a)
    ensures Wrap32(a) + (b - a) >= 0x8000_0000 ==> Wrap32(b) < Wrap32(a)
  {
    var x, d := Wrap32(a), b - a;
    var q := WrapTurns(a);
    assert b == x + d + q * 0x1_0000_0000;
    if x + d < 0x8000_0000 {
      WrapUnique(x + d, q, b);
    } else {
      WrapUnique(x + d - 0x1_0000_0000, q + 1, b);
    }
  }

  /** A number and its wrap differ by whole turns. */
  lemma WrapTurns(a: int) returns (q: int)
    ensures a == Wrap32(a) + q * 0x1_0000_0000
  {
    var m := a % 0x1_0000_0000;
    q := a / 0x1_0000_0000 + if m < 0x8000_0000 then 0 else 1;
  }

  lemma WrapUnique(x: int, q: int, b: int)
    requires -0x8000_0000 <= x < 0x8000_0000 && b == x + q * 0x1_0000_0000
    ensures Wrap32(b) == x
  {}

  // ----- tasks -----

  /** How a task invocation ends, as the host sees it. */
  ghost predicate Ends(w: World, im: Image, m: Machine, f: Flow, n: nat, m': Machine)
  {
    m.Valid() &&
    match f
    case Next(s) => Run(im, m, n) == Halted(m') && Holds(w, s, m')
    case Stop(s) => Run(im, m, n) == Returned(m') && Holds(w, s, m')
    case Fault(t) => Run(im, m, n) == Trapped(t)
  }

  /** A task body followed by HALT: it ends within its step bound, in the state the body means. */
  lemma TaskRuns(w: World, im: Image, gEnd: nat, globals: Env, cur: nat, s: State, m: Machine, body: seq<Stmt>)
    returns (n: nat, m': Machine)
    requires im.platform == w.platform && Holds(w, s, m) && NeverOverflows(im, m) && m.stack == []
    requires Scoped(gEnd, globals, cur)
    requires var b := LowerSeq(gEnd, globals, cur, m.pc, body);
            && w.env == b.env && b.cur <= |m.data.bytes|
            && CodeAt(im.code, m.pc, b.ins + [Simple(Halt, 0)])
    requires CheckSeq(gEnd, globals, cur, m.pc, body).Accept? && TameSeq(w, s, body)
    ensures n <= SeqSteps(body) + 1
    ensures Ends(w, im, m, ExecSeq(w, s, body), n, m')
  {
    hide Holds, CodeAt, LowerSeq, CheckSeq, TameSeq, SeqSteps, ExecSeq, Scoped, Run, Goes;
    var b := LowerSeq(gEnd, globals, cur, m.pc, body);
    var top := Frontier(gEnd, cur);
    SeqExtends(gEnd, globals, cur, m.pc, body);
    CodeAtSplit(im.code, m.pc, b.ins, [Simple(Halt, 0)]);
    CodeAtOne(im.code, m.pc + CodeSize(b.ins), Simple(Halt, 0));
    n, m' := SeqRuns(w, im, gEnd, globals, cur, s, m, body);
    var f := ExecSeq(w, s, body);
    if f.Next? {
      GoesBasics(w, im, top, m, n, f.s, m');
      GoesThen(w, im, top, m, n, f.s, m', 1);
      OneStep(im, m', Simple(Halt, 0));
      n := n + 1;
    }
  }

  /** The halting time does not depend on the budget: any budget at or above the bound gives
      the same end. */
  lemma EndsStays(im: Image, m: Machine, n: nat, k: nat)
    requires m.Valid() && !Run(im, m, n).Running? && n <= k
    ensures Run(im, m, k) == Run(im, m, n)
  {
    hide Run;
    RunAdd(im, m, n, k - n);
  }

  /** Values of the variables as memory holds them. */
  ghost function VarsOf(env: Env, m: Machine): map<string, Value>
    requires m.Valid()
  {
    map x | x in env && (env[x].Data? || env[x].Retain?)
          :: (var r := Load(if env[x].Data? then m.data else m.retain, env[x].offset);
              if r.Some? then r.value else Bool(false))
  }

  /** Freshly cleared memory represents a state, in which every variable reads as FALSE. */
  lemma FreshHolds(w: World, m: Machine, dataLen: nat, retainLen: nat)
    requires m.Valid() && m.frames == [] && m.dataBase == 0
    requires m.data == ZeroSegment(dataLen) && m.retain == ZeroSegment(retainLen)
    requires dataLen <= 0x100_0000 && retainLen <= 0x100_0000
    requires LayoutOk(w.env, dataLen, retainLen)
    requires m.inputs == w.inputs && m.quality == w.quality
    ensures Holds(w, State(VarsOf(w.env, m), m.outputs, m.written, m.retainDirty), m)
    ensures forall x :: InData(w.env, x) || InRetain(w.env, x) ==> x in VarsOf(w.env, m) && VarsOf(w.env, m)[x] == Bool(false)
  {
    forall off, len: nat | 0 <= off < len ensures Load(ZeroSegment(len), off) == Some(Bool(false)) {
      assert ZeroSegment(len).tags[off] == TAG_UNSET;
      assert ZeroSegment(len).bytes[off..off + 1] == [0];
    }
    hide Load, ZeroSegment;
    var vars := VarsOf(w.env, m);
    forall x | InData(w.env, x) ensures x in vars && vars[x] == Bool(false) && Load(m.data, w.env[x].offset) == Some(vars[x]) {
      assert w.env[x].offset < dataLen;
    }
    forall x | InRetain(w.env, x) ensures x in vars && vars[x] == Bool(false) && Load(m.retain, w.env[x].offset) == Some(vars[x]) {
      assert w.env[x].offset < retainLen;
    }
  }
}
