/** The abstract machine the instruction stream runs on
    (crates/plc-vm: value.rs, memory.rs, exec.rs). */
module Vm {
  import opened Bytes
  import opened Ir

  // ----- values -----

  type i16 = x: int | -0x8000 <= x < 0x8000
  type i32 = x: int | -0x8000_0000 <= x < 0x8000_0000
  type i64 = x: int | -0x8000_0000_0000_0000 <= x < 0x8000_0000_0000_0000
  type u32 = x: int | 0 <= x < 0x1_0000_0000

  datatype Value =
    | Bool(b: bool)
    | Int(i: i16)
    | Dint(d: i32)
    | Real(bits: u32)
    | Time(ms: i32)
    | Lint(l: i64)

  function TypeOf(v: Value): IrType
  {
    match v
    case Bool(_) => TBool
    case Int(_) => TInt
    case Dint(_) => TDint
    case Real(_) => TReal
    case Time(_) => TTime
    case Lint(_) => TLint
  }

  function Width(v: Value): (w: nat)
    ensures 1 <= w <= 8
  {
    ByteWidth(TypeOf(v))
  }

  /** Two's-complement wrap to 16, 32 and 64 bits. */
  function Wrap16(n: int): i16
  {
    var m := n % 0x1_0000;
    if m >= 0x8000 then m - 0x1_0000 else m
  }

  function Wrap32(n: int): i32
  {
    var m := n % 0x1_0000_0000;
    if m >= 0x8000_0000 then m - 0x1_0000_0000 else m
  }

  function Wrap64(n: int): i64
  {
    var m := n % 0x1_0000_0000_0000_0000;
    if m >= 0x8000_0000_0000_0000 then m - 0x1_0000_0000_0000_0000 else m
  }

  /** Division rounding toward zero. */
  function TruncDiv(x: int, y: int): int
    requires y != 0
  {
    var q := (if x < 0 then -x else x) / (if y < 0 then -y else y);
    if (x < 0) == (y < 0) then q else -q
  }

  function AsInt(v: Value): Option<int>
  {
    match v
    case Bool(b) => Some(if b then 1 else 0)
    case Int(i) => Some(i)
    case Dint(d) => Some(d)
    case Time(t) => Some(t)
    case Lint(l) => Some(l)
    case Real(_) => None
  }

  /** Non-BOOL values count as false in a jump condition. */
  predicate AsBool(v: Value) { v.Bool? && v.b }

  /** The stored form of a value. */
  function ToBytes(v: Value): (s: seq<byte>)
    ensures |s| == Width(v)
  {
    match v
    case Bool(b) => [if b then 1 else 0]
    case Int(i) => Bytes.Le(i % 0x1_0000, 2)
    case Dint(d) => Bytes.Le(d % 0x1_0000_0000, 4)
    case Real(bits) => Bytes.Le(bits, 4)
    case Time(t) => Bytes.Le(t % 0x1_0000_0000, 4)
    case Lint(l) => Bytes.Le(l % 0x1_0000_0000_0000_0000, 8)
  }

  function OfBytes(ty: IrType, s: seq<byte>): (v: Value)
    requires |s| == ByteWidth(ty)
    ensures TypeOf(v) == ty
  {
    Powers();
    match ty
    case TBool => Bool(s[0] != 0)
    case TInt => Int(Wrap16(FromLe(s)))
    case TDint => Dint(Wrap32(FromLe(s)))
    case TReal => Real(FromLe(s))
    case TTime => Time(Wrap32(FromLe(s)))
    case TLint => Lint(Wrap64(FromLe(s)))
  }

  /** A value survives being stored and read back. */
  lemma OfBytesOfToBytes(v: Value)
    ensures OfBytes(TypeOf(v), ToBytes(v)) == v
  {
    match v {
      case Bool(_) =>
      case Int(i) => Wrap16OfBytes(i);
      case Dint(d) => Wrap32OfBytes(d);
      case Real(bits) => Powers(); FromLeOfLe(bits, 4);
      case Time(t) => Wrap32OfBytes(t);
      case Lint(l) => Wrap64OfBytes(l);
    }
  }

  lemma Wrap16OfBytes(i: i16)
    ensures Wrap16(FromLe(Bytes.Le(i % 0x1_0000, 2))) == i
  {
    hide FromLe, Bytes.Le;
    var m := i % 0x1_0000;
    assert m < Pow256(2) by { Powers(); }
    FromLeOfLe(m, 2);
  }

  lemma Wrap32OfBytes(i: i32)
    ensures Wrap32(FromLe(Bytes.Le(i % 0x1_0000_0000, 4))) == i
  {
    hide FromLe, Bytes.Le;
    var m := i % 0x1_0000_0000;
    assert m < Pow256(4) by { Powers(); }
    FromLeOfLe(m, 4);
  }

  lemma Wrap64OfBytes(i: i64)
    ensures Wrap64(FromLe(Bytes.Le(i % 0x1_0000_0000_0000_0000, 8))) == i
  {
    hide FromLe, Bytes.Le;
    var m := i % 0x1_0000_0000_0000_0000;
    assert m < Pow256(8) by { Powers(); }
    FromLeOfLe(m, 8);
  }

  // ----- byte segments -----

  const TAG_UNSET: byte := 255

  /** Bytes with a type tag at the start offset of each stored value. */
  datatype Segment = Segment(bytes: seq<byte>, tags: seq<byte>) {
    predicate Valid() { |bytes| == |tags| }
  }

  function ZeroSegment(size: nat): (s: Segment)
    ensures s.Valid() && |s.bytes| == size
  {
    Segment(seq(size, i => 0), seq(size, i => TAG_UNSET))
  }

  function Store(s: Segment, off: nat, v: Value): (r: Option<Segment>)
    requires s.Valid()
    ensures r.Some? <==> off + Width(v) <= |s.bytes|
    ensures r.Some? ==> r.value.Valid() && |r.value.bytes| == |s.bytes|
  {
    var w := Width(v);
    if off + w > |s.bytes| then None
    else
      Some(Segment(
        s.bytes[..off] + ToBytes(v) + s.bytes[off + w..],
        s.tags[..off] + [TypeTag(TypeOf(v))] + seq(w - 1, i => TAG_UNSET) + s.tags[off + w..]))
  }

  /** The tag at an offset decides the type read there; an unset tag reads as BOOL. */
  function TypeAt(s: Segment, off: nat): IrType
    requires s.Valid() && off < |s.bytes|
  {
    var ty := TypeOfTag(s.tags[off]);
    if ty.None? then TBool else ty.value
  }

  function Load(s: Segment, off: nat): (r: Option<Value>)
    requires s.Valid()
  {
    if off >= |s.bytes| then None
    else
      var ty := TypeAt(s, off);
      var w := ByteWidth(ty);
      if off + w > |s.bytes| then None
      else Some(OfBytes(ty, s.bytes[off..off + w]))
  }

  /** A store is read back exactly. */
  lemma LoadAfterStore(s: Segment, off: nat, v: Value)
    requires s.Valid() && off + Width(v) <= |s.bytes|
    ensures Load(Store(s, off, v).value, off) == Some(v)
  {
    var r := Store(s, off, v).value;
    assert r.tags[off] == TypeTag(TypeOf(v));
    assert r.bytes[off..off + Width(v)] == ToBytes(v);
    OfBytesOfToBytes(v);
  }

  /** Positions outside the stored range keep their byte and tag. */
  lemma StoreOutside(s: Segment, off: nat, v: Value, p: nat)
    requires s.Valid() && off + Width(v) <= |s.bytes| && p < |s.bytes|
    requires p < off || off + Width(v) <= p
    ensures Store(s, off, v).value.bytes[p] == s.bytes[p]
    ensures Store(s, off, v).value.tags[p] == s.tags[p]
  {}

  /** A load depends only on the bytes and tags of the cell it reads. */
  lemma LoadFrame(s: Segment, t: Segment, off: nat, w: nat)
    requires s.Valid() && t.Valid() && |s.bytes| == |t.bytes|
    requires off < off + w <= |s.bytes|
    requires forall p :: off <= p < off + w ==> s.bytes[p] == t.bytes[p] && s.tags[p] == t.tags[p]
    requires Load(s, off).Some? && Width(Load(s, off).value) <= w
    ensures Load(t, off) == Load(s, off)
  {
    var k := ByteWidth(TypeAt(s, off));
    assert s.bytes[off..off + k] == t.bytes[off..off + k];
  }

  // ----- operators -----

  /** What the model leaves open: the primitive function blocks (with their
      instance store) and the IEEE operations on REAL bit patterns. */
  type PrimStore = seq<int>

  datatype Platform = Platform(
    prim: (nat, nat, seq<Value>, PrimStore) -> Option<(seq<Value>, PrimStore)>,
    realArith: (Opcode, u32, u32) -> u32,
    realCmp: (Opcode, u32, u32) -> bool,
    realNeg: u32 -> u32,
    ofReal: (IrType, u32) -> int,
    toReal: int -> u32)

  datatype Trap =
    | StackUnderflow | StackOverflow | CallDepth | Bounds | TypeError
    | DecodeError | UnknownUserFb | PrimitiveError | Panic | Budget

  datatype Result<+T> = Ok(value: T) | Err(trap: Trap)

  /** 32-bit integer arithmetic: wrapping, division by zero gives zero,
      and the most negative number divided by -1 is an arithmetic panic. */
  function IntArith(op: Opcode, x: i32, y: i32): (r: Result<i32>)
  {
    match op
    case Add => Ok(Wrap32(x + y))
    case Sub => Ok(Wrap32(x - y))
    case Mul => Ok(Wrap32(x * y))
    case Div =>
      if y == 0 then Ok(0)
      else if x == -0x8000_0000 && y == -1 then Err(Panic)
      else Ok(Wrap32(TruncDiv(x, y)))
    case _ => Ok(0)
  }

  function LintArith(op: Opcode, x: i64, y: i64): Result<i64>
  {
    match op
    case Add => Ok(Wrap64(x + y))
    case Sub => Ok(Wrap64(x - y))
    case Mul => Ok(Wrap64(x * y))
    case Div =>
      if y == 0 then Ok(0)
      else if x == -0x8000_0000_0000_0000 && y == -1 then Err(Panic)
      else Ok(Wrap64(TruncDiv(x, y)))
    case _ => Err(TypeError)
  }

  function Arith(pf: Platform, op: Opcode, a: Value, b: Value): Result<Value>
  {
    match (a, b)
    case (Real(x), Real(y)) =>
      if op.Add? || op.Sub? || op.Mul? || op.Div? then Ok(Real(pf.realArith(op, x, y)))
      else Err(TypeError)
    case (Time(x), Time(y)) =>
      var r := IntArith(op, x, y);
      if r.Ok? then Ok(Time(r.value)) else Err(r.trap)
    case (Dint(x), Dint(y)) => OfI32(IntArith(op, x, y))
    case (Int(x), Int(y)) =>
      var r := IntArith(op, x, y);
      if r.Ok? then Ok(Int(Wrap16(r.value))) else Err(r.trap)
    case (Lint(x), Lint(y)) =>
      var r := LintArith(op, x, y);
      if r.Ok? then Ok(Lint(r.value)) else Err(r.trap)
    case (Int(x), Dint(y)) => OfI32(IntArith(op, x, y))
    case (Dint(x), Int(y)) => OfI32(IntArith(op, x, y))
    case _ => Err(TypeError)
  }

  function OfI32(r: Result<i32>): Result<Value>
  {
    if r.Ok? then Ok(Dint(r.value)) else Err(r.trap)
  }

  predicate ValuesEq(a: Value, b: Value)
  {
    if a.Bool? && b.Bool? then a.b == b.b
    else if a.Real? && b.Real? then a.bits == b.bits
    else if a.Real? || b.Real? then false
    else AsInt(a) == AsInt(b)
  }

  function IntCompare(op: Opcode, x: int, y: int): bool
  {
    match op
    case Lt => x < y
    case Le => x <= y
    case Gt => x > y
    case Ge => x >= y
    case _ => false
  }

  function Compare(pf: Platform, op: Opcode, a: Value, b: Value): Result<Value>
  {
    if a.Real? && b.Real? then Ok(Bool(pf.realCmp(op, a.bits, b.bits)))
    else if a.Real? || b.Real? then Err(TypeError)
    else Ok(Bool(IntCompare(op, AsInt(a).value, AsInt(b).value)))
  }

  function BitLogic32(op: Opcode, x: i32, y: i32): i32
  {
    var a := (x % 0x1_0000_0000) as bv32;
    var b := (y % 0x1_0000_0000) as bv32;
    var r := match op case And => a & b case Or => a | b case _ => a ^ b;
    Wrap32(r as int)
  }

  function Logic(op: Opcode, a: Value, b: Value): Result<Value>
  {
    match (a, b)
    case (Bool(x), Bool(y)) =>
      Ok(Bool(match op case And => x && y case Or => x || y case _ => x != y))
    case (Dint(x), Dint(y)) => Ok(Dint(BitLogic32(op, x, y)))
    case (Int(x), Int(y)) => Ok(Int(Wrap16(BitLogic32(op, x, y))))
    case _ => Err(TypeError)
  }

  predicate IsBinary(op: Opcode)
  {
    op.Add? || op.Sub? || op.Mul? || op.Div? || op.And? || op.Or? || op.Xor?
    || op.Eq? || op.Ne? || op.Lt? || op.Le? || op.Gt? || op.Ge?
  }

  function Binop(pf: Platform, op: Opcode, a: Value, b: Value): Result<Value>
    requires IsBinary(op)
  {
    match op
    case And | Or | Xor => Logic(op, a, b)
    case Eq => Ok(Bool(ValuesEq(a, b)))
    case Ne => Ok(Bool(!ValuesEq(a, b)))
    case Lt | Le | Gt | Ge => Compare(pf, op, a, b)
    case _ => Arith(pf, op, a, b)
  }

  function Unop(pf: Platform, op: Opcode, v: Value): Result<Value>
    requires op.Not? || op.Neg?
  {
    if op.Not? then
      match v
      case Bool(b) => Ok(Bool(!b))
      case Int(i) => Ok(Int(-1 - i))
      case Dint(d) => Ok(Dint(-1 - d))
      case Time(t) => Ok(Time(-1 - t))
      case Lint(l) => Ok(Lint(-1 - l))
      case Real(_) => Err(TypeError)
    else
      match v
      case Bool(_) => Err(TypeError)
      case Int(i) => Ok(Int(Wrap16(0 - i)))
      case Dint(d) => Ok(Dint(Wrap32(0 - d)))
      case Time(t) => Ok(Time(Wrap32(0 - t)))
      case Lint(l) => Ok(Lint(Wrap64(0 - l)))
      case Real(r) => Ok(Real(pf.realNeg(r)))
  }

  function Convert(pf: Platform, v: Value, ty: IrType): Value
  {
    if v.Real? && ty.TReal? then v
    else
      var n := if v.Real? then pf.ofReal(ty, v.bits) else AsInt(v).value;
      match ty
      case TBool => Bool(n != 0)
      case TInt => Int(Wrap16(n))
      case TDint => Dint(Wrap32(n))
      case TReal => Real(pf.toReal(n))
      case TTime => Time(Wrap32(n))
      case TLint => Lint(Wrap64(n))
  }

  // ----- machine -----

  const MAX_STACK: nat := 256
  const MAX_CALL_DEPTH: nat := 32

  datatype Frame = Frame(returnPc: nat, dataBase: nat)

  /** The loaded program: code, user function-block entry points, platform. */
  datatype Image = Image(code: seq<byte>, userFbPc: map<nat, nat>, platform: Platform)

  datatype Machine = Machine(
    pc: nat,
    stack: seq<Value>,
    frames: seq<Frame>,
    dataBase: nat,
    data: Segment,
    retain: Segment,
    inputs: seq<Value>,
    quality: seq<bool>,
    outputs: seq<Value>,
    written: seq<bool>,
    retainDirty: bool,
    prims: PrimStore) {

    predicate Valid()
    {
      && data.Valid() && retain.Valid() && |inputs| == |quality| && |outputs| == |written|
      && |stack| <= MAX_STACK
    }
  }

  datatype Outcome = Running(m: Machine) | Halted(m: Machine) | Returned(m: Machine) | Trapped(trap: Trap)

  function Push(m: Machine, v: Value, size: nat): (r: Outcome)
  {
    if |m.stack| >= MAX_STACK then Trapped(StackOverflow)
    else Running(m.(stack := m.stack + [v], pc := m.pc + size))
  }

  function PushResult(m: Machine, r: Result<Value>): Outcome
  {
    if r.Ok? then Push(m, r.value, 4) else Trapped(r.trap)
  }

  function PushOption(m: Machine, r: Option<Value>): Outcome
  {
    if r.Some? then Push(m, r.value, 4) else Trapped(Bounds)
  }

  function Top(m: Machine): Value
    requires |m.stack| > 0
  {
    m.stack[|m.stack| - 1]
  }

  function Drop(m: Machine, n: nat): Machine
    requires n <= |m.stack|
  {
    m.(stack := m.stack[..|m.stack| - n])
  }

  /** Offsets inside a user function block are relative to its instance (saturating u32). */
  function Address(m: Machine, payload: nat): nat
  {
    if m.dataBase + payload > 0xFFFF_FFFF then 0xFFFF_FFFF else m.dataBase + payload
  }

  function StepStore(m: Machine, op: Opcode, payload: nat): (r: Outcome)
    requires m.Valid()
    ensures r.Running? ==> r.m.Valid()
  {
    if |m.stack| == 0 then Trapped(StackUnderflow)
    else
      var v := Top(m);
      var m1 := Drop(m, 1).(pc := m.pc + 4);
      if op.StQ? then
        if payload >= |m.outputs| then Trapped(Bounds)
        else Running(m1.(outputs := m.outputs[payload := v], written := m.written[payload := true]))
      else if op.StData? then
        var s := Store(m.data, Address(m, payload), v);
        if s.None? then Trapped(Bounds) else Running(m1.(data := s.value))
      else
        var s := Store(m.retain, Address(m, payload), v);
        if s.None? then Trapped(Bounds) else Running(m1.(retain := s.value, retainDirty := true))
  }

  function StepLoad(m: Machine, op: Opcode, payload: nat): (r: Outcome)
    requires m.Valid()
    ensures r.Running? ==> r.m.Valid()
  {
    if op.LdData? then PushOption(m, Load(m.data, Address(m, payload)))
    else if op.LdRetain? then PushOption(m, Load(m.retain, Address(m, payload)))
    else if op.LdI? then PushOption(m, if payload < |m.inputs| then Some(m.inputs[payload]) else None)
    else if op.LdQ? then PushOption(m, if payload < |m.outputs| then Some(m.outputs[payload]) else None)
    else PushOption(m, if payload < |m.quality| then Some(Bool(m.quality[payload])) else None)
  }

  function StepRet(m: Machine): Outcome
  {
    var n := |m.frames|;
    if n == 0 then Returned(m)
    else
      Running(m.(frames := m.frames[..n - 1], pc := m.frames[n - 1].returnPc,
                 dataBase := if n == 1 then 0 else m.frames[n - 2].dataBase))
  }

  function StepUnary(im: Image, m: Machine, op: Opcode): (r: Outcome)
    requires m.Valid() && (op.Neg? || op.Not?)
    ensures r.Running? ==> r.m.Valid()
  {
    if |m.stack| == 0 then Trapped(StackUnderflow)
    else PushResult(Drop(m, 1), Unop(im.platform, op, Top(m)))
  }

  function StepBinary(im: Image, m: Machine, op: Opcode): (r: Outcome)
    requires m.Valid() && IsBinary(op)
    ensures r.Running? ==> r.m.Valid()
  {
    var n := |m.stack|;
    if n < 2 then Trapped(StackUnderflow)
    else PushResult(Drop(m, 2), Binop(im.platform, op, m.stack[n - 2], m.stack[n - 1]))
  }

  function StepBranch(m: Machine, op: Opcode, target: nat): (r: Outcome)
    requires m.Valid()
    ensures r.Running? ==> r.m.Valid()
  {
    if |m.stack| == 0 then Trapped(StackUnderflow)
    else Running(Drop(m, 1).(pc := if AsBool(Top(m)) == op.JmpIf? then target else m.pc + 4))
  }

  function StepConv(im: Image, m: Machine, payload: nat): (r: Outcome)
    requires m.Valid()
    ensures r.Running? ==> r.m.Valid()
  {
    if |m.stack| == 0 then Trapped(StackUnderflow)
    else
      var ty := TypeOfTag(payload % 256);
      if ty.None? then Trapped(TypeError)
      else Push(Drop(m, 1), Convert(im.platform, Top(m), ty.value), 4)
  }

  function StepSimple(im: Image, m: Machine, op: Opcode, payload: nat): (r: Outcome)
    requires m.Valid()
    ensures r.Running? ==> r.m.Valid()
  {
    match op
    case Nop => Running(m.(pc := m.pc + 4))
    case Halt => Halted(m)
    case Ret => StepRet(m)
    case PushIBool => Push(m, Bool(payload != 0), 4)
    case LdData | LdRetain | LdI | LdQ | LdIq => StepLoad(m, op, payload)
    case StData | StRetain | StQ => StepStore(m, op, payload)
    case Neg | Not => StepUnary(im, m, op)
    case Jmp => Running(m.(pc := payload))
    case JmpIf | JmpIfNot => StepBranch(m, op, payload)
    case Conv => StepConv(im, m, payload)
    case PushIDint | PushIReal | PushTime | CallFb => Trapped(DecodeError)
    case _ => StepBinary(im, m, op)
  }

  function StepImm(m: Machine, op: Opcode, imm: nat): (r: Outcome)
    requires m.Valid()
    ensures r.Running? ==> r.m.Valid()
  {
    if op.PushIDint? then Push(m, Dint(Wrap32(imm)), 8)
    else if op.PushIReal? then Push(m, Real(imm % 0x1_0000_0000), 8)
    else if op.PushTime? then Push(m, Time(Wrap32(imm)), 8)
    else Trapped(DecodeError)
  }

  function Reverse<T>(s: seq<T>): (r: seq<T>)
    ensures |r| == |s|
  {
    if s == [] then [] else Reverse(s[1..]) + [s[0]]
  }

  /** A primitive pops its inputs and pushes its outputs, the first on top. */
  function StepPrim(im: Image, m: Machine, id: nat, instance: nat): (r: Outcome)
    requires m.Valid()
    ensures r.Running? ==> r.m.Valid()
  {
    match PrimArity(id)
    case None => Trapped(PrimitiveError)
    case Some((ins, outs)) =>
      if |m.stack| < ins then Trapped(StackUnderflow)
      else
        var n := |m.stack|;
        match im.platform.prim(id, instance, m.stack[n - ins..], m.prims)
        case None => Trapped(PrimitiveError)
        case Some((vs, store)) =>
          if n - ins + |vs| > MAX_STACK then Trapped(StackOverflow)
          else Running(m.(stack := m.stack[..n - ins] + Reverse(vs), prims := store, pc := m.pc + 12))
  }

  function StepCall(im: Image, m: Machine, kind: nat, id: nat, base: nat): (r: Outcome)
    requires m.Valid()
    ensures r.Running? ==> r.m.Valid()
  {
    if kind == 0 then StepPrim(im, m, id, base)
    else if id !in im.userFbPc then Trapped(UnknownUserFb)
    else if |m.frames| >= MAX_CALL_DEPTH then Trapped(CallDepth)
    else
      Running(m.(frames := m.frames + [Frame(m.pc + 12, base)], dataBase := base,
                 pc := im.userFbPc[id]))
  }

  function StepInstr(im: Image, m: Machine, i: Instr): (r: Outcome)
    requires m.Valid()
    ensures r.Running? ==> r.m.Valid()
  {
    match i
    case Simple(op, payload) => StepSimple(im, m, op, payload)
    case WithImm32(op, _, imm) => StepImm(m, op, imm)
    case Call(kind, id, base) => StepCall(im, m, kind, id, base)
  }

  function Step(im: Image, m: Machine): (r: Outcome)
    requires m.Valid()
    ensures r.Running? ==> r.m.Valid()
  {
    var d := Decode(im.code, m.pc);
    if d.None? then Trapped(DecodeError) else StepInstr(im, m, d.value.0)
  }

  /** `n` steps, stopping early at a halt, a return to the host, or a trap. */
  function Run(im: Image, m: Machine, n: nat): (r: Outcome)
    requires m.Valid()
    ensures r.Running? ==> r.m.Valid()
    decreases n
  {
    if n == 0 then Running(m)
    else
      var r := Step(im, m);
      if r.Running? then Run(im, r.m, n - 1) else r
  }

  lemma {:induction false} RunAdd(im: Image, m: Machine, a: nat, b: nat)
    requires m.Valid()
    ensures Run(im, m, a + b)
         == (var r := Run(im, m, a); if r.Running? then Run(im, r.m, b) else r)
    decreases a
  {
    hide Step;
    if a > 0 {
      var r := Step(im, m);
      if r.Running? {
        RunAdd(im, r.m, a - 1, b);
      }
    }
  }
}
