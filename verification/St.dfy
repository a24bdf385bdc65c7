/** Structured Text program bodies: syntax (crates/plc-compiler/src/ast.rs), what the
    compiler accepts statically, and what a body means independently of any code. */
module St {
  import opened Ir
  import opened Vm

  // ----- syntax -----

  datatype Literal = BoolLit(b: bool) | IntLit(n: int) | RealLit(bits: u32) | TimeLit(ms: i32)

  datatype UnaryOp = Negate | Invert

  datatype BinaryOp =
    | Plus | Minus | Times | Divide | Modulo
    | AndAlso | OrElse | ExclOr
    | Equal | NotEqual | Less | LessEq | Greater | GreaterEq

  datatype Expr =
    | Literal(value: Literal)
    | Name(name: string)
    | QGood(of: Expr)
    | Unary(uop: UnaryOp, arg: Expr)
    | Binary(bop: BinaryOp, left: Expr, right: Expr)

  datatype Branch = Branch(cond: Expr, body: seq<Stmt>)
  datatype Else = NoElse | Else(body: seq<Stmt>)
  datatype Arm = Arm(labels: seq<int>, body: seq<Stmt>)

  datatype Stmt =
    | Empty
    | Return
    | Assign(lhs: Expr, rhs: Expr)
    | If(branches: seq<Branch>, elseBody: Else)
    | Case(selector: Expr, arms: seq<Arm>, elseBody: Else)
    | While(cond: Expr, maxIter: Option<u32>, body: seq<Stmt>)
    | For(v: string, first: Expr, last: Expr, step: Option<Expr>, maxIter: Option<u32>, body: seq<Stmt>)

  // ----- declarations -----

  datatype Storage =
    | Input(slot: nat, ty: IrType)
    | Output(slot: nat, ty: IrType)
    | Data(offset: nat, ty: IrType)
    | Retain(offset: nat, ty: IrType)
    | Const(value: Literal)

  type Env = map<string, Storage>

  // ----- static checks, in the order the compiler makes them -----

  datatype ErrorCode = EUndefined | EType | EExcluded | EUnboundedLoop | EDuplicate | ECodegen

  datatype Checked<+T> = Accept(value: T) | Reject(code: ErrorCode)

  function LiteralType(l: Literal): IrType
  {
    match l
    case BoolLit(_) => TBool
    case IntLit(_) => TDint
    case RealLit(_) => TReal
    case TimeLit(_) => TTime
  }

  predicate IsComparison(op: BinaryOp)
  {
    op.Equal? || op.NotEqual? || op.Less? || op.LessEq? || op.Greater? || op.GreaterEq?
  }

  function NameType(env: Env, x: string): Checked<IrType>
  {
    if x !in env then Reject(EUndefined)
    else if env[x].Const? then Accept(LiteralType(env[x].value))
    else Accept(env[x].ty)
  }

  /** The type the compiler gives an expression, or its first complaint. */
  function TypeExpr(env: Env, e: Expr): Checked<IrType>
  {
    match e
    case Literal(l) => Accept(LiteralType(l))
    case Name(x) => NameType(env, x)
    case QGood(of) =>
      if !of.Name? then Reject(EType)
      else if of.name !in env then Reject(EUndefined)
      else if env[of.name].Input? then Accept(TBool)
      else Reject(EType)
    case Unary(op, arg) =>
      var t := TypeExpr(env, arg);
      if t.Reject? then t else if op.Invert? then Accept(TBool) else t
    case Binary(op, left, right) =>
      var lt := TypeExpr(env, left);
      if lt.Reject? then lt
      else if op.AndAlso? || op.OrElse? then
        if lt.value != TBool then Reject(EType)
        else
          var rt := TypeExpr(env, right);
          if rt.Reject? then rt else Accept(TBool)
      else
        var rt := TypeExpr(env, right);
        if rt.Reject? then rt
        else if op.Modulo? then Reject(EExcluded)
        else if !op.ExclOr? && lt.value != rt.value then Reject(EType)
        else if IsComparison(op) then Accept(TBool)
        else lt
  }

  /** Assignment targets: outputs, data and retained variables. */
  function CheckTarget(env: Env, lhs: Expr): Checked<Storage>
  {
    if !lhs.Name? then Reject(EType)
    else if lhs.name !in env then Reject(EUndefined)
    else
      var st := env[lhs.name];
      if st.Output? || st.Data? || st.Retain? then Accept(st) else Reject(EType)
  }

  const MAX_LOOP_DEFAULT: nat := 10_000

  /** The iteration cap of a FOR: the attribute, or a bound proved from constants. */
  function ForCap(first: Expr, last: Expr, step: Option<Expr>, maxIter: Option<u32>): Checked<u32>
  {
    if maxIter.Some? then Accept(maxIter.value)
    else if
      && first.Literal? && first.value.IntLit?
      && last.Literal? && last.value.IntLit?
      && (step.None? || step.value == Literal(IntLit(1)))
      && last.value.n >= first.value.n
      && last.value.n - first.value.n + 1 <= MAX_LOOP_DEFAULT
    then Accept(last.value.n - first.value.n + 1)
    else Reject(EUnboundedLoop)
  }

  // ----- meaning -----

  /** Everything a body reads but does not change. */
  datatype World = World(env: Env, platform: Platform, inputs: seq<Value>, quality: seq<bool>)

  /** What a body changes: variables by name, output slots, the retain-dirty flag. */
  datatype State = State(vars: map<string, Value>, outputs: seq<Value>, written: seq<bool>, dirty: bool)

  /** How a statement ends: falls through, returns to the host, or faults. */
  datatype Flow = Next(s: State) | Stop(s: State) | Fault(trap: Trap)

  function LiteralValue(l: Literal): Value
  {
    match l
    case BoolLit(b) => Bool(b)
    case IntLit(n) => Dint(Wrap32(n))
    case RealLit(bits) => Real(bits)
    case TimeLit(ms) => Time(ms)
  }

  function OpcodeOf(op: BinaryOp): (o: Opcode)
    ensures IsBinary(o)
  {
    match op
    case Plus => Add
    case Minus => Sub
    case Times => Mul
    case Divide => Div
    case ExclOr => Xor
    case Equal => Eq
    case NotEqual => Ne
    case Less => Lt
    case LessEq => Opcode.Le
    case Greater => Gt
    case GreaterEq => Ge
    case AndAlso => And
    case OrElse => Or
    case Modulo => Div // never reached: Modulo is rejected
  }

  function ReadName(w: World, s: State, x: string): Result<Value>
  {
    if x !in w.env then Err(Bounds)
    else
      match w.env[x]
      case Input(slot, _) => if slot < |w.inputs| then Ok(w.inputs[slot]) else Err(Bounds)
      case Output(slot, _) => if slot < |s.outputs| then Ok(s.outputs[slot]) else Err(Bounds)
      case Const(l) => Ok(LiteralValue(l))
      case _ => if x in s.vars then Ok(s.vars[x]) else Err(Bounds)
  }

  function Eval(w: World, s: State, e: Expr): Result<Value>
  {
    match e
    case Literal(l) => Ok(LiteralValue(l))
    case Name(x) => ReadName(w, s, x)
    case QGood(of) =>
      if of.Name? && of.name in w.env && w.env[of.name].Input?
         && w.env[of.name].slot < |w.quality|
      then Ok(Bool(w.quality[w.env[of.name].slot]))
      else Err(Bounds)
    case Unary(op, arg) =>
      var v := Eval(w, s, arg);
      if v.Err? then v
      else Unop(w.platform, if op.Invert? then Not else Neg, v.value)
    case Binary(op, left, right) =>
      var a := Eval(w, s, left);
      if a.Err? then a
      else if op.AndAlso? then
        if AsBool(a.value) then Eval(w, s, right) else Ok(Bool(false))
      else if op.OrElse? then
        if AsBool(a.value) then Ok(Bool(true)) else Eval(w, s, right)
      else
        var b := Eval(w, s, right);
        if b.Err? then b
        else Binop(w.platform, OpcodeOf(op), a.value, b.value)
  }

  /** Writes a value to a name. */
  function Write(w: World, s: State, x: string, v: Value): Flow
  {
    if x !in w.env then Fault(Bounds)
    else
      match w.env[x]
      case Output(slot, _) =>
        if slot < |s.outputs| && slot < |s.written| then
          Next(s.(outputs := s.outputs[slot := v], written := s.written[slot := true]))
        else Fault(Bounds)
      case Data(_, _) => Next(s.(vars := s.vars[x := v]))
      case Retain(_, _) => Next(s.(vars := s.vars[x := v], dirty := true))
      case _ => Fault(Bounds)
  }

  /** An arm is taken when the selector equals one of its labels. */
  predicate ArmTaken(sel: Value, labels: seq<int>)
  {
    labels == [] || exists i :: 0 <= i < |labels| && ValuesEq(sel, Dint(Wrap32(labels[i])))
  }

  function Exec(w: World, s: State, st: Stmt): Flow
    decreases st, 0, 0
  {
    match st
    case Empty => Next(s)
    case Return => Stop(s)
    case Assign(lhs, rhs) =>
      var v := Eval(w, s, rhs);
      if v.Err? then Fault(v.trap)
      else if lhs.Name? then Write(w, s, lhs.name, v.value) else Fault(Bounds)
    case If(branches, els) => ExecElse(w, s, ExecBranches(w, s, branches), els)
    case Case(selector, arms, els) =>
      var v := Eval(w, s, selector);
      if v.Err? then Fault(v.trap)
      else ExecElse(w, s, ExecArms(w, s, v.value, arms), els)
    case While(cond, maxIter, body) =>
      ExecWhile(w, s, cond, body, if maxIter.Some? then maxIter.value else 0)
    case For(x, first, last, step, maxIter, body) =>
      var a := Eval(w, s, first);
      if a.Err? then Fault(a.trap)
      else
        var f := Write(w, s, x, a.value);
        if !f.Next? then f
        else
          var b := Eval(w, f.s, last);
          if b.Err? then Fault(b.trap)
          else
            var c := if step.Some? then Eval(w, f.s, step.value) else Ok(Dint(1));
            if c.Err? then Fault(c.trap)
            else
              var cap := ForCap(first, last, step, maxIter);
              ExecFor(w, f.s, x, b.value, c.value, body, if cap.Accept? then cap.value else 0)
  }

  function ExecSeq(w: World, s: State, ss: seq<Stmt>): Flow
    decreases ss, 0, 0
  {
    if ss == [] then Next(s)
    else
      var f := Exec(w, s, ss[0]);
      if f.Next? then ExecSeq(w, f.s, ss[1..]) else f
  }

  /** The first branch whose condition holds; None when there is none. */
  function ExecBranches(w: World, s: State, bs: seq<Branch>): Option<Flow>
    decreases bs, 0, 0
  {
    if bs == [] then None
    else
      var c := Eval(w, s, bs[0].cond);
      if c.Err? then Some(Fault(c.trap))
      else if AsBool(c.value) then Some(ExecSeq(w, s, bs[0].body))
      else ExecBranches(w, s, bs[1..])
  }

  /** The first arm the selector matches; None when there is none. */
  function ExecArms(w: World, s: State, sel: Value, arms: seq<Arm>): Option<Flow>
    decreases arms, 0, 0
  {
    if arms == [] then None
    else if ArmTaken(sel, arms[0].labels) then Some(ExecSeq(w, s, arms[0].body))
    else ExecArms(w, s, sel, arms[1..])
  }

  /** The ELSE part, where no branch or arm was taken. */
  function ExecElse(w: World, s: State, taken: Option<Flow>, els: Else): Flow
    decreases els, 0, 0
  {
    if taken.Some? then taken.value
    else if els.Else? then ExecSeq(w, s, els.body)
    else Next(s)
  }

  /** At most `k` more iterations. */
  function ExecWhile(w: World, s: State, cond: Expr, body: seq<Stmt>, k: nat): Flow
    decreases body, 1, k
  {
    if k == 0 then Next(s)
    else
      var c := Eval(w, s, cond);
      if c.Err? then Fault(c.trap)
      else if !AsBool(c.value) then Next(s)
      else
        var f := ExecSeq(w, s, body);
        if f.Next? then ExecWhile(w, f.s, cond, body, k - 1) else f
  }

  /** At most `k` more iterations, while the variable has not passed the limit. */
  function ExecFor(w: World, s: State, x: string, limit: Value, step: Value, body: seq<Stmt>, k: nat): Flow
    decreases body, 1, k
  {
    if k == 0 then Next(s)
    else if x !in s.vars then Fault(Bounds)
    else
      var past := Compare(w.platform, Gt, s.vars[x], limit);
      if past.Err? then Fault(past.trap)
      else if AsBool(past.value) then Next(s)
      else
        var f := ExecSeq(w, s, body);
        if !f.Next? then f
        else if x !in f.s.vars then Fault(Bounds)
        else
          var v := Arith(w.platform, Add, f.s.vars[x], step);
          if v.Err? then Fault(v.trap)
          else
            var g := Write(w, f.s, x, v.value);
            if g.Next? then ExecFor(w, g.s, x, limit, step, body, k - 1) else g
  }
}
