/** The instruction set: types, opcodes, and the 32-bit word encoding
    (crates/plc-ir: value.rs, opcode.rs, encode.rs, module.rs). */
module Ir {
  import opened Bytes

  datatype Option<+T> = None | Some(value: T)

  datatype IrType = TBool | TInt | TDint | TReal | TTime | TLint

  function ByteWidth(ty: IrType): (w: nat)
    ensures 1 <= w <= 8
  {
    match ty
    case TBool => 1
    case TInt => 2
    case TDint | TReal | TTime => 4
    case TLint => 8
  }

  function TypeTag(ty: IrType): (tag: byte)
    ensures TypeOfTag(tag) == Some(ty)
  {
    match ty
    case TBool => 0
    case TInt => 1
    case TDint => 2
    case TReal => 3
    case TTime => 4
    case TLint => 5
  }

  function TypeOfTag(tag: int): (ty: Option<IrType>)
    ensures ty.Some? <==> 0 <= tag <= 5
  {
    if tag == 0 then Some(TBool)
    else if tag == 1 then Some(TInt)
    else if tag == 2 then Some(TDint)
    else if tag == 3 then Some(TReal)
    else if tag == 4 then Some(TTime)
    else if tag == 5 then Some(TLint)
    else None
  }

  predicate IsNumeric(ty: IrType) { !ty.TBool? }

  predicate IsIntegral(ty: IrType) { !ty.TReal? }

  datatype Opcode =
    | Nop | Halt | PushIDint | PushIReal | PushIBool | PushTime
    | LdData | StData | LdRetain | StRetain | LdI | StQ | LdQ | LdIq
    | Add | Sub | Mul | Div | Neg
    | And | Or | Xor | Not
    | Eq | Ne | Lt | Le | Gt | Ge
    | Jmp | JmpIf | JmpIfNot
    | CallFb | Ret | Conv

  function OpByte(op: Opcode): (b: byte)
    ensures OpOfByte(b) == Some(op)
  {
    match op
    case Nop => 0x00
    case Halt => 0x01
    case PushIDint => 0x02
    case PushIReal => 0x03
    case PushIBool => 0x04
    case PushTime => 0x05
    case LdData => 0x10
    case StData => 0x11
    case LdRetain => 0x12
    case StRetain => 0x13
    case LdI => 0x14
    case StQ => 0x15
    case LdQ => 0x16
    case LdIq => 0x17
    case Add => 0x20
    case Sub => 0x21
    case Mul => 0x22
    case Div => 0x23
    case Neg => 0x24
    case And => 0x28
    case Or => 0x29
    case Xor => 0x2A
    case Not => 0x2B
    case Eq => 0x30
    case Ne => 0x31
    case Lt => 0x32
    case Le => 0x33
    case Gt => 0x34
    case Ge => 0x35
    case Jmp => 0x40
    case JmpIf => 0x41
    case JmpIfNot => 0x42
    case CallFb => 0x50
    case Ret => 0x51
    case Conv => 0x60
  }

  function OpOfByte(b: byte): Option<Opcode>
  {
    if b == 0x00 then Some(Nop)
    else if b == 0x01 then Some(Halt)
    else if b == 0x02 then Some(PushIDint)
    else if b == 0x03 then Some(PushIReal)
    else if b == 0x04 then Some(PushIBool)
    else if b == 0x05 then Some(PushTime)
    else if b == 0x10 then Some(LdData)
    else if b == 0x11 then Some(StData)
    else if b == 0x12 then Some(LdRetain)
    else if b == 0x13 then Some(StRetain)
    else if b == 0x14 then Some(LdI)
    else if b == 0x15 then Some(StQ)
    else if b == 0x16 then Some(LdQ)
    else if b == 0x17 then Some(LdIq)
    else if b == 0x20 then Some(Add)
    else if b == 0x21 then Some(Sub)
    else if b == 0x22 then Some(Mul)
    else if b == 0x23 then Some(Div)
    else if b == 0x24 then Some(Neg)
    else if b == 0x28 then Some(And)
    else if b == 0x29 then Some(Or)
    else if b == 0x2A then Some(Xor)
    else if b == 0x2B then Some(Not)
    else if b == 0x30 then Some(Eq)
    else if b == 0x31 then Some(Ne)
    else if b == 0x32 then Some(Lt)
    else if b == 0x33 then Some(Opcode.Le)
    else if b == 0x34 then Some(Gt)
    else if b == 0x35 then Some(Ge)
    else if b == 0x40 then Some(Jmp)
    else if b == 0x41 then Some(JmpIf)
    else if b == 0x42 then Some(JmpIfNot)
    else if b == 0x50 then Some(CallFb)
    else if b == 0x51 then Some(Ret)
    else if b == 0x60 then Some(Conv)
    else None
  }

  /** Opcodes that take a following immediate word. */
  predicate IsImm(op: Opcode) { op.PushIDint? || op.PushIReal? || op.PushTime? }

  datatype Instr =
    | Simple(op: Opcode, payload: nat)
    | WithImm32(op: Opcode, payload: nat, imm: nat)
    | Call(kind: nat, id: nat, base: nat)

  /** Opcode in the high byte, payload cut to 24 bits, little-endian. */
  function PackWord(op: Opcode, payload: nat): (w: seq<byte>)
    ensures |w| == 4
  {
    Bytes.Le(payload, 3) + [OpByte(op)]
  }

  function Encode(i: Instr): (s: seq<byte>)
    ensures |s| == Size(i)
  {
    match i
    case Simple(op, payload) => PackWord(op, payload)
    case WithImm32(op, payload, imm) => PackWord(op, payload) + Bytes.Le(imm, 4)
    case Call(kind, id, base) =>
      PackWord(CallFb, 0) + (Bytes.Le(id, 3) + Bytes.Le(kind, 1)) + Bytes.Le(base, 4)
  }

  function Size(i: Instr): nat
  {
    match i
    case Simple(_, _) => 4
    case WithImm32(_, _, _) => 8
    case Call(_, _, _) => 12
  }

  /** One instruction and its byte size, or None where the source reports an error. */
  function Decode(code: seq<byte>, pc: nat): (r: Option<(Instr, nat)>)
    ensures r.Some? ==> r.value.1 == Size(r.value.0) && pc + r.value.1 <= |code|
  {
    if pc + 4 > |code| then None
    else
      var payload := FromLe(code[pc..pc + 3]);
      match OpOfByte(code[pc + 3])
      case None => None
      case Some(op) =>
        if IsImm(op) then
          if pc + 8 > |code| then None
          else Some((WithImm32(op, payload, FromLe(code[pc + 4..pc + 8])), 8))
        else if op.CallFb? then
          if pc + 12 > |code| then None
          else
            Some((Call(FromLe(code[pc + 7..pc + 8]), FromLe(code[pc + 4..pc + 7]),
                       FromLe(code[pc + 8..pc + 12])), 12))
        else Some((Simple(op, payload), 4))
  }

  /** Instructions the encoding can represent. */
  predicate Encodable(i: Instr)
  {
    match i
    case Simple(op, payload) => !IsImm(op) && !op.CallFb? && payload < 0x100_0000
    case WithImm32(op, payload, imm) =>
      IsImm(op) && payload < 0x100_0000 && imm < 0x1_0000_0000
    case Call(kind, id, base) => kind < 0x100 && id < 0x100_0000 && base < 0x1_0000_0000
  }

  /** Decoding the encoded bytes of an instruction, wherever they stand, gives it back. */
  lemma DecodeOfEncode(code: seq<byte>, pc: nat, i: Instr)
    requires Encodable(i)
    requires pc + Size(i) <= |code| && code[pc..pc + Size(i)] == Encode(i)
    ensures Decode(code, pc) == Some((i, Size(i)))
  {
    Powers();
    var e := Encode(i);
    forall lo, hi | 0 <= lo <= hi <= Size(i) ensures code[pc + lo..pc + hi] == e[lo..hi] {
      SubSlice(code, pc, pc + Size(i), lo, hi);
    }
    assert code[pc + 3] == e[3];
    assert code[pc..pc + 3] == e[0..3];
    match i {
      case Simple(op, payload) =>
        assert e[0..3] == Bytes.Le(payload, 3);
        FromLeOfLe(payload, 3);
      case WithImm32(op, payload, imm) =>
        assert e[0..3] == Bytes.Le(payload, 3);
        assert code[pc + 4..pc + 8] == e[4..8] == Bytes.Le(imm, 4);
        FromLeOfLe(payload, 3);
        FromLeOfLe(imm, 4);
      case Call(kind, id, base) =>
        assert code[pc + 4..pc + 7] == e[4..7] == Bytes.Le(id, 3);
        assert code[pc + 7..pc + 8] == e[7..8] == Bytes.Le(kind, 1);
        assert code[pc + 8..pc + 12] == e[8..12] == Bytes.Le(base, 4);
        FromLeOfLe(id, 3);
        FromLeOfLe(kind, 1);
        FromLeOfLe(base, 4);
    }
  }

  /** What Decode returns is encodable, and re-encoding it gives the bytes that were read
      (the unused payload of a CALL_FB first word excepted). */
  lemma EncodeOfDecode(code: seq<byte>, pc: nat)
    requires Decode(code, pc).Some?
    ensures Encodable(Decode(code, pc).value.0)
    ensures var (i, n) := Decode(code, pc).value;
            (i.Call? && code[pc + 3..pc + n] == Encode(i)[3..])
            || (!i.Call? && code[pc..pc + n] == Encode(i))
  {
    Powers();
    var (i, n) := Decode(code, pc).value;
    LeOfFromLe(code[pc..pc + 3]);
    match i {
      case Simple(op, payload) =>
        assert code[pc..pc + 4] == code[pc..pc + 3] + [code[pc + 3]];
        OpByteOfOp(code[pc + 3]);
      case WithImm32(op, payload, imm) =>
        LeOfFromLe(code[pc + 4..pc + 8]);
        OpByteOfOp(code[pc + 3]);
        assert code[pc..pc + 8] == code[pc..pc + 3] + [code[pc + 3]] + code[pc + 4..pc + 8];
      case Call(kind, id, base) =>
        LeOfFromLe(code[pc + 4..pc + 7]);
        LeOfFromLe(code[pc + 7..pc + 8]);
        LeOfFromLe(code[pc + 8..pc + 12]);
        OpByteOfOp(code[pc + 3]);
        assert code[pc + 3..pc + 12]
            == [code[pc + 3]] + code[pc + 4..pc + 7] + code[pc + 7..pc + 8] + code[pc + 8..pc + 12];
    }
  }

  lemma OpByteOfOp(b: byte)
    requires OpOfByte(b).Some?
    ensures OpByte(OpOfByte(b).value) == b
  {}

  datatype EntryPoint = EntryPoint(name: string, pc: nat, isUserFb: bool)

  datatype IrModule = IrModule(
    irMajor: nat,
    constSize: nat,
    dataSize: nat,
    retainSize: nat,
    inputSlots: nat,
    outputSlots: nat,
    entries: seq<EntryPoint>,
    constData: seq<byte>,
    code: seq<byte>)

  /** Stack inputs and outputs of the primitive function blocks; None for an unknown id. */
  function PrimArity(id: nat): Option<(nat, nat)>
  {
    if 1 <= id <= 3 then Some((2, 2))
    else if 4 <= id <= 5 then Some((3, 2))
    else if 6 <= id <= 7 then Some((2, 1))
    else if 8 <= id <= 9 then Some((1, 1))
    else if id == 10 then Some((3, 1))
    else None
  }
}
