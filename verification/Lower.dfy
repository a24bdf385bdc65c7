/** Reference code generation: the instructions a body stands for when every jump target
    and every scratch slot is already known. No labels, no fixups, no patching. */
module Lower {
  import opened Ir
  import opened Vm
  import opened St

  function Align(ty: IrType): (a: nat)
    ensures 1 <= a <= 4
  {
    if ty.TBool? then 1 else if ty.TInt? then 2 else 4
  }

  lemma FarMultiple(d: int, a: nat)
    ensures d >= 1 ==> d * a >= a
    ensures d <= -1 ==> d * a <= 0 - a
  {}

  lemma MultipleAligned(k: nat, a: nat)
    requires a > 0
    ensures k * a % a == 0
  {
    var q, r := k * a / a, k * a % a;
    assert (k - q) * a == r;
    FarMultiple(k - q, a);
  }

  /** The first multiple of `a` that is not below `n`. */
  function AlignUp(n: nat, a: nat): (r: nat)
    requires a > 0
    ensures n <= r < n + a && r % a == 0
  {
    var mis := n % a;
    assert n + (a - mis) == (n / a + 1) * a;
    MultipleAligned(n / a + 1, a);
    if mis == 0 then n else n + (a - mis)
  }

  function Max(a: nat, b: nat): (m: nat)
    ensures m >= a && m >= b && (m == a || m == b)
  {
    if a >= b then a else b
  }

  /** First byte above the globals and all scratch slots handed out so far. */
  function Frontier(gEnd: nat, cur: nat): nat { Max(gEnd, cur) }

  /** A scratch slot: its offset and the cursor after it. */
  function AllocTemp(gEnd: nat, cur: nat, ty: IrType): (t: (nat, nat))
    ensures Frontier(gEnd, cur) <= t.0
    ensures t.1 == t.0 + ByteWidth(ty) && t.0 % Align(ty) == 0
  {
    var base := Max(gEnd, AlignUp(cur, Align(ty)));
    var off := AlignUp(base, Align(ty));
    (off, off + ByteWidth(ty))
  }

  function CodeSize(code: seq<Instr>): nat
  {
    if code == [] then 0 else Size(code[0]) + CodeSize(code[1..])
  }

  lemma {:induction false} CodeSizeAppend(a: seq<Instr>, b: seq<Instr>)
    ensures CodeSize(a + b) == CodeSize(a) + CodeSize(b)
  {
    if a == [] {
      assert a + b == b;
    } else {
      CodeSizeAppend(a[1..], b);
      assert (a + b)[1..] == a[1..] + b;
    }
  }

  function PushLiteral(l: Literal): Instr
  {
    match l
    case BoolLit(b) => Simple(PushIBool, if b then 1 else 0)
    case IntLit(n) => WithImm32(PushIDint, 0, n % 0x1_0000_0000)
    case RealLit(bits) => WithImm32(PushIReal, 0, bits)
    case TimeLit(ms) => WithImm32(PushTime, 0, ms % 0x1_0000_0000)
  }

  function PushDint(n: nat): Instr { WithImm32(PushIDint, 0, n % 0x1_0000_0000) }

  function LoadName(env: Env, x: string): Instr
  {
    if x !in env then Simple(Nop, 0)
    else
      match env[x]
      case Input(slot, _) => Simple(LdI, slot)
      case Output(slot, _) => Simple(LdQ, slot)
      case Data(offset, _) => Simple(LdData, offset)
      case Retain(offset, _) => Simple(LdRetain, offset)
      case Const(l) => PushLiteral(l)
  }

  function LoadQuality(env: Env, of: Expr): Instr
  {
    if of.Name? && of.name in env && env[of.name].Input? then Simple(LdIq, env[of.name].slot)
    else Simple(Nop, 0)
  }

  function StoreName(env: Env, lhs: Expr): Instr
  {
    if !lhs.Name? || lhs.name !in env then Simple(Nop, 0)
    else
      match env[lhs.name]
      case Output(slot, _) => Simple(StQ, slot)
      case Data(offset, _) => Simple(StData, offset)
      case Retain(offset, _) => Simple(StRetain, offset)
      case _ => Simple(Nop, 0)
  }

  /** Code and the cursor after it. */
  datatype Code = Code(ins: seq<Instr>, cur: nat)

  /** Where the code of a statement list ends up: code, cursor, names in scope. */
  datatype Block = Block(ins: seq<Instr>, cur: nat, env: Env)

  function LowerExpr(gEnd: nat, env: Env, cur: nat, pc: nat, e: Expr): Code
    decreases e
  {
    match e
    case Literal(l) => Code([PushLiteral(l)], cur)
    case Name(x) => Code([LoadName(env, x)], cur)
    case QGood(of) => Code([LoadQuality(env, of)], cur)
    case Unary(op, arg) =>
      var a := LowerExpr(gEnd, env, cur, pc, arg);
      Code(a.ins + [Simple(if op.Invert? then Not else Neg, 0)], a.cur)
    case Binary(op, left, right) =>
      if op.AndAlso? || op.OrElse? then
        var a := LowerExpr(gEnd, env, cur, pc, left);
        var t := AllocTemp(gEnd, a.cur, TBool);
        var rightPc := pc + CodeSize(a.ins) + 12;
        var b := LowerExpr(gEnd, env, t.1, rightPc, right);
        var skip := rightPc + CodeSize(b.ins) + 4;
        Code(a.ins + ShortCircuit(op, t.0, skip) + b.ins
             + [Simple(Jmp, skip + 4), Simple(PushIBool, if op.OrElse? then 1 else 0)], b.cur)
      else
        var a := LowerExpr(gEnd, env, cur, pc, left);
        var b := LowerExpr(gEnd, env, a.cur, pc + CodeSize(a.ins), right);
        Code(a.ins + b.ins + [Simple(OpcodeOf(op), 0)], b.cur)
  }

  /** Duplicates the left operand through a scratch slot and tests it. */
  function ShortCircuit(op: BinaryOp, tmp: nat, skip: nat): seq<Instr>
  {
    [Simple(StData, tmp), Simple(LdData, tmp), Simple(if op.OrElse? then JmpIf else JmpIfNot, skip)]
  }

  /** The comparisons of one CASE arm; `body` and `next` are its two continuations. */
  function LabelTests(tmp: nat, labels: seq<int>, body: nat, next: nat): seq<Instr>
  {
    if labels == [] then []
    else
      [Simple(LdData, tmp), WithImm32(PushIDint, 0, labels[0] % 0x1_0000_0000), Simple(Eq, 0),
       if |labels| == 1 then Simple(JmpIfNot, next) else Simple(JmpIf, body)]
      + LabelTests(tmp, labels[1..], body, next)
  }

  /** Leaves a loop when its iteration counter is used up. */
  function CounterTest(counter: nat, end: nat): seq<Instr>
  {
    [Simple(LdData, counter), PushDint(0), Simple(Eq, 0), Simple(JmpIf, end)]
  }

  function CountDown(counter: nat, head: nat): seq<Instr>
  {
    [Simple(LdData, counter), PushDint(1), Simple(Sub, 0), Simple(StData, counter), Simple(Jmp, head)]
  }

  function StartCounter(cap: nat, counter: nat): seq<Instr>
  {
    [PushDint(cap), Simple(StData, counter)]
  }

  function LowerStmt(gEnd: nat, env: Env, cur: nat, pc: nat, s: Stmt): Block
    decreases s, 0
  {
    match s
    case Empty => Block([], cur, env)
    case Return => Block([Simple(Ret, 0)], cur, env)
    case Assign(lhs, rhs) =>
      var v := LowerExpr(gEnd, env, cur, pc, rhs);
      Block(v.ins + [StoreName(env, lhs)], v.cur, env)
    case If(branches, els) =>
      // The length of the code does not depend on where it jumps to at its end.
      var bs := LowerBranches(gEnd, env, cur, pc, branches, els.Else?, 0);
      var elsePc := pc + CodeSize(bs.ins);
      var eb := LowerElse(gEnd, bs.env, bs.cur, elsePc, els);
      var end := elsePc + CodeSize(eb.ins);
      var final := LowerBranches(gEnd, env, cur, pc, branches, els.Else?, end);
      Block(final.ins + eb.ins, eb.cur, eb.env)
    case Case(selector, arms, els) =>
      var v := LowerExpr(gEnd, env, cur, pc, selector);
      var selTy := TypeExpr(env, selector);
      var t := AllocTemp(gEnd, v.cur, if selTy.Accept? then selTy.value else TDint);
      var armsPc := pc + CodeSize(v.ins) + 4;
      var bs := LowerArms(gEnd, env, t.1, armsPc, t.0, arms, 0);
      var elsePc := armsPc + CodeSize(bs.ins);
      var eb := LowerElse(gEnd, bs.env, bs.cur, elsePc, els);
      var end := elsePc + CodeSize(eb.ins);
      var final := LowerArms(gEnd, env, t.1, armsPc, t.0, arms, end);
      Block(v.ins + [Simple(StData, t.0)] + final.ins + eb.ins, eb.cur, eb.env)
    case While(cond, maxIter, body) =>
      var t := AllocTemp(gEnd, cur, TDint);
      var head := pc + 12;
      var c := LowerExpr(gEnd, env, t.1, head + 20, cond);
      var bodyPc := head + 20 + CodeSize(c.ins) + 4;
      var b := LowerSeq(gEnd, env, c.cur, bodyPc, body);
      var end := bodyPc + CodeSize(b.ins) + 24;
      Block(StartCounter(if maxIter.Some? then maxIter.value else 0, t.0)
            + CounterTest(t.0, end) + c.ins + [Simple(JmpIfNot, end)]
            + b.ins + CountDown(t.0, head), b.cur, b.env)
    case For(x, first, last, step, maxIter, body) =>
      var p := PlanFor(gEnd, env, cur, pc, x, first, last, step);
      var b := LowerSeq(gEnd, p.env, p.cur, p.head + 36, body);
      var end := p.head + 36 + CodeSize(b.ins) + 40;
      var cap := ForCap(first, last, step, maxIter);
      Block(p.Setup() + StartCounter(if cap.Accept? then cap.value else 0, p.counter)
            + CounterTest(p.counter, end) + LimitTest(p.varOff, p.limit, end)
            + b.ins + Advance(p.varOff, p.inc) + CountDown(p.counter, p.head), b.cur, b.env)
  }

  /** The parts of a FOR before its loop: scope, scratch slots and the three bound
      expressions. The limit and step slots are taken before their expressions are lowered. */
  datatype ForPlan = ForPlan(
    env: Env, varOff: nat, first: Code, limit: nat, last: Code, inc: nat, step: Code,
    counter: nat, cur: nat, head: nat) {

    function Setup(): seq<Instr>
    {
      first.ins + [Simple(StData, varOff)] + last.ins + [Simple(StData, limit)]
      + step.ins + [Simple(StData, inc)]
    }
  }

  function PlanFor(gEnd: nat, env: Env, cur: nat, pc: nat, x: string, first: Expr, last: Expr, step: Option<Expr>): ForPlan
  {
    var d := DeclareLoopVar(gEnd, env, cur, x);
    var a := LowerExpr(gEnd, d.1, d.0, pc, first);
    var lim := AllocTemp(gEnd, a.cur, TDint);
    var lastPc := pc + CodeSize(a.ins) + 4;
    var l := LowerExpr(gEnd, d.1, lim.1, lastPc, last);
    var inc := AllocTemp(gEnd, l.cur, TDint);
    var stepPc := lastPc + CodeSize(l.ins) + 4;
    var st := LowerStep(gEnd, d.1, inc.1, stepPc, step);
    var ctr := AllocTemp(gEnd, st.cur, TDint);
    ForPlan(d.1, LoopVarOffset(d.1, x), a, lim.0, l, inc.0, st, ctr.0, ctr.1,
            stepPc + CodeSize(st.ins) + 4 + 12)
  }

  function LimitTest(varOff: nat, limit: nat, end: nat): seq<Instr>
  {
    [Simple(LdData, varOff), Simple(LdData, limit), Simple(Gt, 0), Simple(JmpIf, end)]
  }

  function Advance(varOff: nat, step: nat): seq<Instr>
  {
    [Simple(LdData, varOff), Simple(LdData, step), Simple(Add, 0), Simple(StData, varOff)]
  }

  /** A FOR variable that is not declared becomes a DINT in a scratch slot. */
  function DeclareLoopVar(gEnd: nat, env: Env, cur: nat, x: string): (nat, Env)
  {
    if x in env then (cur, env)
    else var t := AllocTemp(gEnd, cur, TDint); (t.1, env[x := Data(t.0, TDint)])
  }

  function LoopVarOffset(env: Env, x: string): nat
  {
    if x in env && env[x].Data? then env[x].offset else 0
  }

  function LowerStep(gEnd: nat, env: Env, cur: nat, pc: nat, step: Option<Expr>): Code
  {
    if step.Some? then LowerExpr(gEnd, env, cur, pc, step.value) else Code([PushDint(1)], cur)
  }

  function LowerSeq(gEnd: nat, env: Env, cur: nat, pc: nat, ss: seq<Stmt>): Block
    decreases ss, 0
  {
    if ss == [] then Block([], cur, env)
    else
      var a := LowerStmt(gEnd, env, cur, pc, ss[0]);
      var b := LowerSeq(gEnd, a.env, a.cur, pc + CodeSize(a.ins), ss[1..]);
      Block(a.ins + b.ins, b.cur, b.env)
  }

  function LowerElse(gEnd: nat, env: Env, cur: nat, pc: nat, els: Else): Block
    decreases els, 0
  {
    if els.Else? then LowerSeq(gEnd, env, cur, pc, els.body) else Block([], cur, env)
  }

  function Leave(needed: bool, end: nat): (ins: seq<Instr>)
    ensures CodeSize(ins) == if needed then 4 else 0
  {
    if needed then [Simple(Jmp, end)] else []
  }

  /** IF branches; each taken one jumps to `end` unless it already stands there. */
  function LowerBranches(gEnd: nat, env: Env, cur: nat, pc: nat, bs: seq<Branch>, more: bool, end: nat): Block
    decreases bs, 0
  {
    if bs == [] then Block([], cur, env)
    else
      var c := LowerExpr(gEnd, env, cur, pc, bs[0].cond);
      var bodyPc := pc + CodeSize(c.ins) + 4;
      var b := LowerSeq(gEnd, env, c.cur, bodyPc, bs[0].body);
      var leave := Leave(|bs| > 1 || more, end);
      var next := bodyPc + CodeSize(b.ins) + CodeSize(leave);
      var rest := LowerBranches(gEnd, b.env, b.cur, next, bs[1..], more, end);
      Block(c.ins + [Simple(JmpIfNot, next)] + b.ins + leave + rest.ins, rest.cur, rest.env)
  }

  function LowerArms(gEnd: nat, env: Env, cur: nat, pc: nat, tmp: nat, arms: seq<Arm>, end: nat): Block
    decreases arms, 0
  {
    if arms == [] then Block([], cur, env)
    else
      var bodyPc := pc + 20 * |arms[0].labels|;
      var b := LowerSeq(gEnd, env, cur, bodyPc, arms[0].body);
      var next := bodyPc + CodeSize(b.ins) + 4;
      var rest := LowerArms(gEnd, b.env, b.cur, next, tmp, arms[1..], end);
      Block(LabelTests(tmp, arms[0].labels, bodyPc, next) + b.ins + [Simple(Jmp, end)] + rest.ins,
            rest.cur, rest.env)
  }
}
