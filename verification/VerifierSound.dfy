/** What acceptance by the verifier means for the machine: over every run from every entry
    of an accepted module, control stays on decodable, aligned instructions, no operand is
    ever missing, no call pops below the stack it was entered with, and image slots are in
    range; without user function-block calls the operand depth is a function of the position. */
module VerifierSound {
  import opened Bytes
  import opened Ir
  import opened Vm
  import opened Verifier

  /** Primitives return as many values as they declare outputs. */
  ghost predicate PlatformOk(pf: Platform)
  {
    forall id: nat, inst: nat, vs: seq<Value>, store: PrimStore ::
      PrimArity(id).Some? && pf.prim(id, inst, vs, store).Some? ==>
        |pf.prim(id, inst, vs, store).value.0| == PrimArity(id).value.1
  }

  /** The loaded image of a module. */
  ghost predicate Loaded(im: Image, mod: IrModule)
  {
    && im.code == mod.code && PlatformOk(im.platform)
    && forall id :: id in im.userFbPc ==>
         exists k :: 0 <= k < |mod.entries| && mod.entries[k].isUserFb && mod.entries[k].pc == im.userFbPc[id]
  }

  predicate Sized(m: Machine, mod: IrModule)
  {
    m.Valid() && |m.inputs| == mod.inputSlots && |m.outputs| == mod.outputSlots
  }

  // ----- one instruction -----

  /** Traps that acceptance rules out. */
  predicate Impossible(t: Trap) { t.StackUnderflow? || t.DecodeError? }

  predicate TouchesSegment(i: Instr)
  {
    i.Simple? && (i.op.LdData? || i.op.StData? || i.op.LdRetain? || i.op.StRetain?)
  }

  /** A step of a machine whose stack holds at least what the shape says: no impossible
      trap; when it continues in the same frame, only the shape's part of the stack changed,
      exactly as the shape does, and control went where the verifier looked. */
  ghost predicate StepFits(mod: IrModule, m: Machine, i: Instr, stack: AStack, next: Verdict<Succ>, r: Outcome)
    requires |stack| <= |m.stack|
  {
    var base := |m.stack| - |stack|;
    match r
    case Trapped(t) =>
      !Impossible(t) && (t.Bounds? ==> TouchesSegment(i)) && (t.StackOverflow? ==> base > 0)
      && (t.UnknownUserFb? || t.CallDepth? ==> IsUserCall(i))
    case Halted(m') => next == Good(Terminal) && m' == m
    case Returned(m') => next == Good(Terminal) && m' == m && m.frames == []
    case Running(m') =>
      && Sized(m', mod)
      && (next == Good(Terminal) ==> i.Simple? && i.op.Ret?)
      && (next.Good? && next.value.Flow? && !IsUserCall(i) ==>
            && m'.pc in next.value.nexts && m'.frames == m.frames
            && |m'.stack| == base + |next.value.stack| && m'.stack[..base] == m.stack[..base])
  }

  lemma PushFits(mod: IrModule, m: Machine, i: Instr, stack: AStack, drop: nat, v: Value, ty: Option<IrType>)
    requires Sized(m, mod) && drop <= |stack| <= |m.stack| && !IsUserCall(i)
    requires PushType(stack[..|stack| - drop], ty).Good?
    ensures var next := pcNext(m, i);
            StepFits(mod, m, i, stack, Falls(PushType(stack[..|stack| - drop], ty), next), Push(Drop(m, drop), v, Size(i)))
  {
    var base := |m.stack| - |stack|;
    var m1 := Drop(m, drop);
    assert m1.stack[..base] == m.stack[..base];
    assert (m1.stack + [v])[..base] == m1.stack[..base];
  }

  function pcNext(m: Machine, i: Instr): nat { m.pc + Size(i) }

  lemma LoadFits(im: Image, mod: IrModule, m: Machine, op: Opcode, payload: nat, stack: AStack)
    requires Sized(m, mod) && |stack| <= |m.stack| && (op.LdData? || op.LdRetain? || op.LdI? || op.LdIq? || op.LdQ?)
    requires LoadEffect(mod, op, payload, stack, m.pc + 4).Good?
    ensures StepFits(mod, m, Simple(op, payload), stack, LoadEffect(mod, op, payload, stack, m.pc + 4), StepLoad(m, op, payload))
  {
    hide Load;
    var i := Simple(op, payload);
    var ty := if op.LdIq? then Some(TBool) else None;
    assert Drop(m, 0) == m && stack[..|stack| - 0] == stack;
    if op.LdData? {
      var v := Load(m.data, Address(m, payload));
      if v.Some? { PushFits(mod, m, i, stack, 0, v.value, ty); }
    } else if op.LdRetain? {
      var v := Load(m.retain, Address(m, payload));
      if v.Some? { PushFits(mod, m, i, stack, 0, v.value, ty); }
    } else if op.LdI? {
      PushFits(mod, m, i, stack, 0, m.inputs[payload], ty);
    } else if op.LdQ? {
      PushFits(mod, m, i, stack, 0, m.outputs[payload], ty);
    } else {
      PushFits(mod, m, i, stack, 0, Bool(m.quality[payload]), ty);
    }
  }

  lemma StoreFits(im: Image, mod: IrModule, m: Machine, op: Opcode, payload: nat, stack: AStack)
    requires Sized(m, mod) && |stack| <= |m.stack| && (op.StData? || op.StRetain? || op.StQ?)
    requires StoreEffect(mod, op, payload, stack, m.pc + 4).Good?
    ensures StepFits(mod, m, Simple(op, payload), stack, StoreEffect(mod, op, payload, stack, m.pc + 4), StepStore(m, op, payload))
  {
    hide Store;
    var base := |m.stack| - |stack|;
    assert Drop(m, 1).stack[..base] == m.stack[..base];
  }

  lemma UnaryFits(im: Image, mod: IrModule, m: Machine, op: Opcode, payload: nat, stack: AStack)
    requires Sized(m, mod) && |stack| <= |m.stack| && (op.Neg? || op.Not?)
    requires UnaryEffect(op, stack, m.pc + 4).Good?
    ensures StepFits(mod, m, Simple(op, payload), stack, UnaryEffect(op, stack, m.pc + 4), StepUnary(im, m, op))
  {
    var r := Unop(im.platform, op, Top(m));
    UnopTraps(im.platform, op, Top(m));
    hide Unop;
    if r.Ok? {
      var a := stack[|stack| - 1];
      PushFits(mod, m, Simple(op, payload), stack, 1, r.value, if op.Not? then OrElse(a, Some(TBool)) else a);
    }
  }

  lemma UnopTraps(pf: Platform, op: Opcode, v: Value)
    requires op.Neg? || op.Not?
    ensures var r := Unop(pf, op, v); r.Err? ==> r.trap == TypeError
  {}

  lemma BinopTraps(pf: Platform, op: Opcode, a: Value, b: Value)
    requires IsBinary(op)
    ensures var r := Binop(pf, op, a, b); r.Err? ==> r.trap == TypeError || r.trap == Panic
  {}

  lemma BinaryFits(im: Image, mod: IrModule, m: Machine, op: Opcode, payload: nat, stack: AStack)
    requires Sized(m, mod) && |stack| <= |m.stack| && IsBinary(op)
    requires BinaryEffect(op, stack, m.pc + 4).Good?
    ensures StepFits(mod, m, Simple(op, payload), stack, BinaryEffect(op, stack, m.pc + 4), StepBinary(im, m, op))
  {
    hide Binop, ResultType, IsBinary, StepFits, PushType;
    var n, k := |stack|, |m.stack|;
    var i := Simple(op, payload);
    var r := Binop(im.platform, op, m.stack[k - 2], m.stack[k - 1]);
    BinopTraps(im.platform, op, m.stack[k - 2], m.stack[k - 1]);
    if r.Ok? {
      PushFits(mod, m, i, stack, 2, r.value, ResultType(op, stack[n - 2], stack[n - 1]).value);
    } else {
      TrapFits(mod, m, i, stack, BinaryEffect(op, stack, m.pc + 4), r.trap);
    }
  }

  lemma TrapFits(mod: IrModule, m: Machine, i: Instr, stack: AStack, next: Verdict<Succ>, t: Trap)
    requires |stack| <= |m.stack| && (t.TypeError? || t.Panic?)
    ensures StepFits(mod, m, i, stack, next, Trapped(t))
  {}

  lemma BranchFits(im: Image, mod: IrModule, m: Machine, op: Opcode, payload: nat, stack: AStack)
    requires Sized(m, mod) && |stack| <= |m.stack| && (op.JmpIf? || op.JmpIfNot?)
    requires BranchEffect(mod, payload, stack, m.pc + 4).Good?
    ensures StepFits(mod, m, Simple(op, payload), stack, BranchEffect(mod, payload, stack, m.pc + 4), StepBranch(m, op, payload))
  {
    var base := |m.stack| - |stack|;
    assert Drop(m, 1).stack[..base] == m.stack[..base];
  }

  lemma ConvFits(im: Image, mod: IrModule, m: Machine, payload: nat, stack: AStack)
    requires Sized(m, mod) && |stack| <= |m.stack|
    requires SimpleEffect(mod, false, Conv, payload, stack, m.pc + 4).Good?
    ensures StepFits(mod, m, Simple(Conv, payload), stack, SimpleEffect(mod, false, Conv, payload, stack, m.pc + 4),
                     StepConv(im, m, payload))
  {
    hide Convert;
    var ty := TypeOfTag(payload % 256);
    PushFits(mod, m, Simple(Conv, payload), stack, 1, Convert(im.platform, Top(m), ty.value), ty);
  }

  lemma SimpleFits(im: Image, mod: IrModule, isFb: bool, m: Machine, op: Opcode, payload: nat, stack: AStack)
    requires Sized(m, mod) && |stack| <= |m.stack|
    requires SimpleEffect(mod, isFb, op, payload, stack, m.pc + 4).Good?
    ensures StepFits(mod, m, Simple(op, payload), stack, SimpleEffect(mod, isFb, op, payload, stack, m.pc + 4),
                     StepSimple(im, m, op, payload))
  {
    hide StepLoad, StepStore, StepUnary, StepBinary, StepBranch, StepConv, LoadEffect, StoreEffect, UnaryEffect, BinaryEffect, BranchEffect, StepFits;
    match op {
      case LdData | LdRetain | LdI | LdIq | LdQ => LoadFits(im, mod, m, op, payload, stack);
      case StData | StRetain | StQ => StoreFits(im, mod, m, op, payload, stack);
      case Neg | Not => UnaryFits(im, mod, m, op, payload, stack);
      case JmpIf | JmpIfNot => BranchFits(im, mod, m, op, payload, stack);
      case Conv => ConvFits(im, mod, m, payload, stack);
      case PushIBool => ConstFits(mod, m, Simple(op, payload), stack, Bool(payload != 0), Some(TBool));
      case Nop | Halt | Ret | Jmp => MoveFits(im, mod, isFb, m, op, payload, stack);
      case _ => BinaryFits(im, mod, m, op, payload, stack);
    }
  }

  lemma ConstFits(mod: IrModule, m: Machine, i: Instr, stack: AStack, v: Value, ty: Option<IrType>)
    requires Sized(m, mod) && |stack| <= |m.stack| && !IsUserCall(i) && PushType(stack, ty).Good?
    ensures StepFits(mod, m, i, stack, Falls(PushType(stack, ty), m.pc + Size(i)), Push(m, v, Size(i)))
  {
    hide StepFits;
    assert Drop(m, 0) == m && stack[..|stack| - 0] == stack;
    PushFits(mod, m, i, stack, 0, v, ty);
  }

  lemma MoveFits(im: Image, mod: IrModule, isFb: bool, m: Machine, op: Opcode, payload: nat, stack: AStack)
    requires Sized(m, mod) && |stack| <= |m.stack| && (op.Nop? || op.Halt? || op.Ret? || op.Jmp?)
    requires SimpleEffect(mod, isFb, op, payload, stack, m.pc + 4).Good?
    ensures StepFits(mod, m, Simple(op, payload), stack, SimpleEffect(mod, isFb, op, payload, stack, m.pc + 4),
                     StepSimple(im, m, op, payload))
  {}

  lemma ImmFits(mod: IrModule, m: Machine, op: Opcode, payload: nat, imm: nat, stack: AStack)
    requires Sized(m, mod) && |stack| <= |m.stack| && ImmEffect(op, stack, m.pc + 8).Good?
    ensures StepFits(mod, m, WithImm32(op, payload, imm), stack, ImmEffect(op, stack, m.pc + 8), StepImm(m, op, imm))
  {
    hide StepFits;
    var i := WithImm32(op, payload, imm);
    if op.PushIDint? {
      ConstFits(mod, m, i, stack, Dint(Wrap32(imm)), Some(TDint));
    } else if op.PushIReal? {
      ConstFits(mod, m, i, stack, Real(imm % 0x1_0000_0000), Some(TReal));
    } else if op.PushTime? {
      ConstFits(mod, m, i, stack, Time(Wrap32(imm)), Some(TTime));
    } else {
      assert false;
    }
  }

  lemma PrimFits(im: Image, mod: IrModule, m: Machine, id: nat, inst: nat, stack: AStack)
    requires Sized(m, mod) && |stack| <= |m.stack| && PlatformOk(im.platform)
    requires CallEffect(0, id, stack, m.pc + 12).Good?
    ensures StepFits(mod, m, Call(0, id, inst), stack, CallEffect(0, id, stack, m.pc + 12), StepPrim(im, m, id, inst))
  {
    var (ins, outs) := PrimArity(id).value;
    var base, n := |m.stack| - |stack|, |m.stack|;
    var p := im.platform.prim(id, inst, m.stack[n - ins..], m.prims);
    if p.Some? {
      assert (m.stack[..n - ins] + Reverse(p.value.0))[..base] == m.stack[..base];
    }
  }

  lemma StepInstrFits(im: Image, mod: IrModule, isFb: bool, m: Machine, i: Instr, stack: AStack)
    requires Sized(m, mod) && |stack| <= |m.stack| && PlatformOk(im.platform)
    requires Effect(mod, isFb, m.pc, i, stack).Good?
    ensures StepFits(mod, m, i, stack, Effect(mod, isFb, m.pc, i, stack), StepInstr(im, m, i))
  {
    hide StepSimple, StepImm, StepPrim, SimpleEffect, ImmEffect, CallEffect, PlatformOk;
    match i {
      case Simple(op, payload) => SimpleFits(im, mod, isFb, m, op, payload, stack);
      case WithImm32(op, payload, imm) => ImmFits(mod, m, op, payload, imm, stack);
      case Call(kind, id, base) =>
        if kind == 0 { PrimFits(im, mod, m, id, base, stack); } else { UserCallFits(im, mod, m, i, stack); }
    }
  }

  lemma UserCallFits(im: Image, mod: IrModule, m: Machine, i: Instr, stack: AStack)
    requires Sized(m, mod) && |stack| <= |m.stack| && IsUserCall(i)
    ensures StepFits(mod, m, i, stack, CallEffect(i.kind, i.id, stack, m.pc + 12), StepCall(im, m, i.kind, i.id, i.base))
  {}

  /** Control falls through or goes to a checked target. */
  lemma EffectNexts(mod: IrModule, isFb: bool, pc: nat, i: Instr, stack: AStack, n: nat)
    requires var e := Effect(mod, isFb, pc, i, stack); e.Good? && e.value.Flow? && n in e.value.nexts
    ensures n == pc + Size(i) || (i.Simple? && n == i.payload && CheckTarget(mod, n).Good?)
  {
    hide PushType, PopType, NumericType, LogicType, PrimOutputs, TypeOfTag, PrimArity, CheckTarget;
  }

  lemma NextAligned(mod: IrModule, isFb: bool, pc: nat, i: Instr, stack: AStack, n: nat)
    requires pc % 4 == 0
    requires var e := Effect(mod, isFb, pc, i, stack); e.Good? && e.value.Flow? && n in e.value.nexts
    ensures n % 4 == 0
  {
    EffectNexts(mod, isFb, pc, i, stack, n);
    hide Effect;
  }

  // ----- whole runs, with calls -----

  /** Which entry's code a call level runs, and the stack height it was entered with. */
  datatype Level = Level(entry: nat, base: nat)

  /** The level's part of the stack holds at least what its shape at `pc` says. */
  ghost predicate LevelOk(mod: IrModule, shapes: seq<map<nat, AStack>>, l: Level, pc: nat, height: nat)
  {
    && l.entry < |shapes| == |mod.entries|
    && pc in shapes[l.entry] && l.base + |shapes[l.entry][pc]| <= height
  }

  /** Where control and every return address are aligned, and they and every stack base fit the shapes. */
  ghost predicate Framed(mod: IrModule, shapes: seq<map<nat, AStack>>, m: Machine, levels: seq<Level>)
  {
    && |levels| == |m.frames| + 1 && Sized(m, mod)
    && LevelOk(mod, shapes, levels[|m.frames|], m.pc, |m.stack|) && m.pc % 4 == 0
    && forall k :: 0 <= k < |m.frames| ==>
         m.frames[k].returnPc % 4 == 0 && LevelOk(mod, shapes, levels[k], m.frames[k].returnPc, levels[k + 1].base)
  }

  lemma CertifiedAt(mod: IrModule, shapes: seq<map<nat, AStack>>, l: Level, pc: nat, height: nat)
    requires Certified(mod, shapes) && LevelOk(mod, shapes, l, pc, height)
    ensures var e := mod.entries[l.entry];
            var s := shapes[l.entry];
            && pc < |mod.code| && Decode(mod.code, pc).Some?
            && var i := Decode(mod.code, pc).value.0;
            && Effect(mod, e.isUserFb, pc, i, s[pc]).Good?
            && var f := Effect(mod, e.isUserFb, pc, i, s[pc]).value;
            f.Flow? ==> forall n :: n in f.nexts ==> n in s && |s[n]| == |f.stack|
  {
    hide Effect, CheckHeader, Stops;
    var e := mod.entries[l.entry];
    var s := shapes[l.entry];
    assert EntryCertified(mod, e, s);
    assert Respected(mod, e.isUserFb, s, pc);
    var f := EffectAt(mod, e.isUserFb, pc, s[pc]).value;
    if f.Flow? {
      forall n | n in f.nexts ensures n in s && |s[n]| == |f.stack| {
        var k :| 0 <= k < |f.nexts| && f.nexts[k] == n;
        assert Agrees(s, f.nexts[k], f.stack);
      }
    }
  }

  /** One step of a framed machine: no impossible trap, a bounds trap only at a typed access
      to a memory segment, so image slots are in range, and the result is framed again.
      While the frame stays the same, everything below its base is untouched. */
  lemma StepFramed(im: Image, mod: IrModule, shapes: seq<map<nat, AStack>>, m: Machine, levels: seq<Level>)
    returns (levels': seq<Level>)
    requires Certified(mod, shapes) && Loaded(im, mod) && Framed(mod, shapes, m, levels)
    ensures var r := Step(im, m);
            && (r.Trapped? ==> !Impossible(r.trap) && Decode(mod.code, m.pc).Some?)
            && (r == Trapped(Bounds) ==> TouchesSegment(Decode(mod.code, m.pc).value.0))
            && (r.Running? ==> Framed(mod, shapes, r.m, levels'))
            && (r.Running? && |r.m.frames| == |m.frames| ==>
                  var base := levels[|m.frames|].base;
                  base <= |r.m.stack| && base <= |m.stack| && r.m.stack[..base] == m.stack[..base])
            && (r.Running? ==> forall k :: 0 <= k <= |r.m.frames| && k <= |m.frames| ==> levels'[k] == levels[k])
  {
    hide Effect, StepInstr, PlatformOk, Certified;
    var d := |m.frames|;
    var l := levels[d];
    CertifiedAt(mod, shapes, l, m.pc, |m.stack|);
    var i := Decode(mod.code, m.pc).value.0;
    var stack := shapes[l.entry][m.pc];
    var isFb := mod.entries[l.entry].isUserFb;
    StepInstrFits(im, mod, isFb, m, i, stack);
    levels' := levels;
    var r := StepInstr(im, m, i);
    if r.Running? {
      var f := Effect(mod, isFb, m.pc, i, stack).value;
      if f.Terminal? {
        levels' := ReturnFramed(im, mod, shapes, m, levels, i, stack);
      } else if IsUserCall(i) {
        levels' := CallFramed(im, mod, shapes, m, levels, i, isFb, stack);
      } else {
        NextAligned(mod, isFb, m.pc, i, stack, r.m.pc);
        FlowFramed(mod, shapes, m, levels, r.m, f);
      }
    }
  }

  lemma FlowFramed(mod: IrModule, shapes: seq<map<nat, AStack>>, m: Machine, levels: seq<Level>, m': Machine, f: Succ)
    requires Framed(mod, shapes, m, levels) && Sized(m', mod) && f.Flow? && m'.pc % 4 == 0
    requires var l := levels[|m.frames|];
             var base := |m.stack| - |shapes[l.entry][m.pc]|;
             && m'.pc in f.nexts && m'.frames == m.frames && |m'.stack| == base + |f.stack| && m'.stack[..base] == m.stack[..base]
             && forall n :: n in f.nexts ==> n in shapes[l.entry] && |shapes[l.entry][n]| == |f.stack|
    ensures Framed(mod, shapes, m', levels)
    ensures var base := levels[|m.frames|].base;
            base <= |m'.stack| && base <= |m.stack| && m'.stack[..base] == m.stack[..base]
  {
    var l := levels[|m.frames|];
    var low, high := l.base, |m.stack| - |shapes[l.entry][m.pc]|;
    assert m'.stack[..low] == m'.stack[..high][..low] == m.stack[..high][..low] == m.stack[..low];
  }

  /** Deeper levels start higher. */
  lemma {:induction false} BasesRise(mod: IrModule, shapes: seq<map<nat, AStack>>, m: Machine, levels: seq<Level>, k: nat)
    requires Framed(mod, shapes, m, levels) && k <= |m.frames|
    ensures levels[k].base <= levels[|m.frames|].base
    decreases |m.frames| - k
  {
    if k < |m.frames| { BasesRise(mod, shapes, m, levels, k + 1); }
  }

  /** A step leaves the stack below the base of every level it stays above. */
  lemma StepKeepsBases(im: Image, mod: IrModule, shapes: seq<map<nat, AStack>>, m: Machine, levels: seq<Level>, d: nat)
    requires Certified(mod, shapes) && Loaded(im, mod) && Framed(mod, shapes, m, levels) && d <= |m.frames|
    requires Step(im, m).Running? && d <= |Step(im, m).m.frames|
    ensures var m' := Step(im, m).m;
            var base := levels[d].base;
            base <= |m.stack| && base <= |m'.stack| && m'.stack[..base] == m.stack[..base]
  {
    hide Certified, Loaded, Effect, StepInstr;
    BasesRise(mod, shapes, m, levels, d);
    var levels' := StepFramed(im, mod, shapes, m, levels);
    var m' := Step(im, m).m;
    var low, high := levels[d].base, levels[|m.frames|].base;
    if |m'.frames| == |m.frames| {
      assert m'.stack[..low] == m'.stack[..high][..low] == m.stack[..high][..low] == m.stack[..low];
    } else {
      FrameChange(im, mod, shapes, m, levels);
    }
  }

  /** Only calls and returns change frames, and they do not touch the stack. */
  lemma FrameChange(im: Image, mod: IrModule, shapes: seq<map<nat, AStack>>, m: Machine, levels: seq<Level>)
    requires Certified(mod, shapes) && Loaded(im, mod) && Framed(mod, shapes, m, levels)
    requires Step(im, m).Running? && Step(im, m).m.frames != m.frames
    ensures Step(im, m).m.stack == m.stack
  {
    hide Effect, PlatformOk, Certified;
    var l := levels[|m.frames|];
    CertifiedAt(mod, shapes, l, m.pc, |m.stack|);
    var i := Decode(mod.code, m.pc).value.0;
    StepInstrFits(im, mod, mod.entries[l.entry].isUserFb, m, i, shapes[l.entry][m.pc]);
    ChangeInstr(im, m, i);
    hide StepInstr;
  }

  lemma ChangeInstr(im: Image, m: Machine, i: Instr)
    requires m.Valid() && (IsUserCall(i) || (i.Simple? && i.op.Ret?)) && StepInstr(im, m, i).Running?
    ensures StepInstr(im, m, i).m.stack == m.stack
  {}

  /** No frame pops below its own base: as long as the frame a call opened has not
      returned, the caller's part of the stack stays as it was. */
  lemma {:induction false} FrameUntouched(im: Image, mod: IrModule, shapes: seq<map<nat, AStack>>, m: Machine, levels: seq<Level>, d: nat, n: nat)
    requires Certified(mod, shapes) && Loaded(im, mod) && Framed(mod, shapes, m, levels) && d <= |m.frames|
    requires Run(im, m, n).Running?
    requires forall j: nat :: j <= n && Run(im, m, j).Running? ==> |Run(im, m, j).m.frames| >= d
    ensures var m' := Run(im, m, n).m;
            var base := levels[d].base;
            base <= |m.stack| && base <= |m'.stack| && m'.stack[..base] == m.stack[..base]
    decreases n
  {
    hide Certified, Loaded, Step;
    BasesRise(mod, shapes, m, levels, d);
    if n > 0 {
      var m1 := Step(im, m).m;
      assert Run(im, m, 1) == Running(m1) by { assert Run(im, m1, 0) == Running(m1); }
      StepKeepsBases(im, mod, shapes, m, levels, d);
      var levels1 := StepFramed(im, mod, shapes, m, levels);
      forall j: nat | j <= n - 1 && Run(im, m1, j).Running? ensures |Run(im, m1, j).m.frames| >= d {
        assert Run(im, m, j + 1) == Run(im, m1, j);
      }
      FrameUntouched(im, mod, shapes, m1, levels1, d, n - 1);
    }
  }

  /** A return lands behind the call, above whatever the caller had on the stack. */
  lemma ReturnFramed(im: Image, mod: IrModule, shapes: seq<map<nat, AStack>>, m: Machine, levels: seq<Level>, i: Instr, stack: AStack)
    returns (levels': seq<Level>)
    requires Framed(mod, shapes, m, levels) && i.Simple? && i.op.Ret? && StepInstr(im, m, i).Running?
    ensures var r := StepInstr(im, m, i);
            && |r.m.frames| == |m.frames| - 1 && Framed(mod, shapes, r.m, levels')
            && forall k :: 0 <= k <= |r.m.frames| ==> levels'[k] == levels[k]
  {
    levels' := levels[..|m.frames|];
  }

  /** A call starts its own level at the present height. */
  lemma CallFramed(im: Image, mod: IrModule, shapes: seq<map<nat, AStack>>, m: Machine, levels: seq<Level>, i: Instr, isFb: bool, stack: AStack)
    returns (levels': seq<Level>)
    requires Certified(mod, shapes) && Loaded(im, mod) && Framed(mod, shapes, m, levels)
    requires IsUserCall(i) && StepInstr(im, m, i).Running? && m.pc + Size(i) == m.pc + 12
    requires var l := levels[|m.frames|]; stack == shapes[l.entry][m.pc]
    requires var f := Effect(mod, isFb, m.pc, i, stack).value;
             Effect(mod, isFb, m.pc, i, stack).Good? && f.Flow? &&
             forall n :: n in f.nexts ==> n in shapes[levels[|m.frames|].entry] && |shapes[levels[|m.frames|].entry][n]| == |f.stack|
    ensures var r := StepInstr(im, m, i);
            && |r.m.frames| == |m.frames| + 1 && Framed(mod, shapes, r.m, levels')
            && forall k :: 0 <= k <= |m.frames| ==> levels'[k] == levels[k]
  {
    hide PlatformOk, Closed, Stops, CheckHeader;
    var l := levels[|m.frames|];
    assert Effect(mod, isFb, m.pc, i, stack) == Good(Flow(stack, [m.pc + 12]));
    assert m.pc + 12 in [m.pc + 12];
    var m' := StepInstr(im, m, i).m;
    var k :| 0 <= k < |mod.entries| && mod.entries[k].isUserFb && mod.entries[k].pc == im.userFbPc[i.id];
    EntryShape(mod, shapes, k);
    levels' := levels + [Level(k, |m.stack|)];
  }

  lemma EntryShape(mod: IrModule, shapes: seq<map<nat, AStack>>, k: nat)
    requires Certified(mod, shapes) && k < |mod.entries|
    ensures mod.entries[k].pc in shapes[k] && shapes[k][mod.entries[k].pc] == [] && mod.entries[k].pc % 4 == 0
  {
    hide CheckHeader, Stops, Respected;
    assert EntryCertified(mod, mod.entries[k], shapes[k]);
  }

  /** A fresh invocation of entry `k`. */
  lemma StartFramed(mod: IrModule, shapes: seq<map<nat, AStack>>, m: Machine, k: nat)
    requires Certified(mod, shapes) && k < |mod.entries| && Sized(m, mod)
    requires m.pc == mod.entries[k].pc && m.stack == [] && m.frames == []
    ensures Framed(mod, shapes, m, [Level(k, 0)])
  {
    hide CheckHeader, Closed, Stops;
    EntryShape(mod, shapes, k);
  }

  /** A run that traps on bounds after at most `n` steps: a step of it reached a machine that
      stands at a typed access to a memory segment. */
  ghost predicate TrapsInSegment(im: Image, m: Machine, n: nat)
    requires m.Valid()
  {
    exists j: nat :: j < n && AtSegment(im, Run(im, m, j))
  }

  ghost predicate AtSegment(im: Image, r: Outcome)
  {
    && r.Running? && r.m.Valid() && Step(im, r.m) == Trapped(Bounds)
    && Decode(im.code, r.m.pc).Some? && TouchesSegment(Decode(im.code, r.m.pc).value.0)
  }

  /** A run that traps after a first step traps at the same place as the rest of it. */
  lemma TrapLater(im: Image, m: Machine, n: nat)
    requires m.Valid() && n > 0 && Step(im, m).Running? && TrapsInSegment(im, Step(im, m).m, n - 1)
    ensures TrapsInSegment(im, m, n)
  {
    hide Step, AtSegment;
    var m1 := Step(im, m).m;
    var j: nat :| j < n - 1 && AtSegment(im, Run(im, m1, j));
    assert Run(im, m, j + 1) == Run(im, m1, j);
  }

  lemma TrapNow(im: Image, m: Machine, n: nat)
    requires m.Valid() && n > 0 && AtSegment(im, Running(m))
    ensures TrapsInSegment(im, m, n)
  {
    assert Run(im, m, 0) == Running(m);
  }

  /** Runs of any length from a framed machine never trap for a missing operand or an
      undecodable position, trap on bounds only at a typed access to a memory segment, and
      stay framed. */
  lemma {:induction false} RunFramed(im: Image, mod: IrModule, shapes: seq<map<nat, AStack>>, m: Machine, levels: seq<Level>, n: nat)
    returns (levels': seq<Level>)
    requires Certified(mod, shapes) && Loaded(im, mod) && Framed(mod, shapes, m, levels)
    ensures m.Valid()
    ensures var r := Run(im, m, n);
            && (r.Trapped? ==> !Impossible(r.trap))
            && (r == Trapped(Bounds) ==> TrapsInSegment(im, m, n))
            && (r.Running? ==> Framed(mod, shapes, r.m, levels'))
    decreases n
  {
    hide Certified, Step, TrapsInSegment, PlatformOk;
    levels' := levels;
    if n > 0 {
      var mid := StepFramed(im, mod, shapes, m, levels);
      var r := Step(im, m);
      if r.Running? {
        levels' := RunFramed(im, mod, shapes, r.m, mid, n - 1);
        if Run(im, m, n) == Trapped(Bounds) { TrapLater(im, m, n); }
      } else if r == Trapped(Bounds) {
        TrapNow(im, m, n);
      }
    }
  }

  /** Verifier soundness, from every entry: an accepted module never underflows the stack,
      never leaves aligned, decodable code and never names an image slot out of range,
      whatever calls it makes. */
  lemma AcceptedRuns(im: Image, mod: IrModule, shapes: seq<map<nat, AStack>>, m: Machine, k: nat, n: nat)
    requires Certified(mod, shapes) && Loaded(im, mod) && k < |mod.entries| && Sized(m, mod)
    requires m.pc == mod.entries[k].pc && m.stack == [] && m.frames == []
    ensures var r := Run(im, m, n);
            && (r.Trapped? ==> r.trap != StackUnderflow && r.trap != DecodeError)
            && (r == Trapped(Bounds) ==> TrapsInSegment(im, m, n))
            && (r.Running? ==> r.m.pc % 4 == 0 && r.m.pc < |mod.code| && Decode(mod.code, r.m.pc).Some?)
  {
    hide Certified, Loaded, Run, TrapsInSegment;
    StartFramed(mod, shapes, m, k);
    var levels := RunFramed(im, mod, shapes, m, [Level(k, 0)], n);
    var r := Run(im, m, n);
    if r.Running? { CertifiedAt(mod, shapes, levels[|r.m.frames|], r.m.pc, |r.m.stack|); }
  }

  // ----- whole runs without user calls -----

  ghost predicate NoUserCalls(mod: IrModule, shapes: map<nat, AStack>)
  {
    forall pc :: pc in shapes ==> CallsAt(mod, pc) == 0
  }

  /** The stack is exactly as deep as the shape of the position. */
  ghost predicate Exact(mod: IrModule, shapes: map<nat, AStack>, m: Machine)
  {
    Sized(m, mod) && m.frames == [] && m.pc in shapes && |m.stack| == |shapes[m.pc]|
  }

  lemma StepExact(im: Image, mod: IrModule, shapes: seq<map<nat, AStack>>, k: nat, m: Machine)
    requires Certified(mod, shapes) && Loaded(im, mod) && k < |mod.entries| == |shapes|
    requires NoUserCalls(mod, shapes[k]) && Exact(mod, shapes[k], m)
    ensures var r := Step(im, m);
            && (r.Running? ==> Exact(mod, shapes[k], r.m))
            && (r.Trapped? ==> !Impossible(r.trap) && !r.trap.StackOverflow? && !r.trap.UnknownUserFb? && !r.trap.CallDepth?)
            && (r.Trapped? && r.trap.Bounds? ==> TouchesSegment(Decode(mod.code, m.pc).value.0))
            && Decode(mod.code, m.pc).Some?
  {
    hide Effect, StepInstr, PlatformOk, Certified;
    CertifiedAt(mod, shapes, Level(k, 0), m.pc, |m.stack|);
    var i := Decode(mod.code, m.pc).value.0;
    var stack := shapes[k][m.pc];
    assert CallsAt(mod, m.pc) == 0;
    StepInstrFits(im, mod, mod.entries[k].isUserFb, m, i, stack);
    if StepInstr(im, m, i).Running? && Effect(mod, mod.entries[k].isUserFb, m.pc, i, stack).value.Terminal? {
      RetAtTop(im, m, i);
      assert false;
    }
  }

  lemma RetAtTop(im: Image, m: Machine, i: Instr)
    requires m.Valid() && i.Simple? && i.op.Ret? && m.frames == []
    ensures StepInstr(im, m, i) == Returned(m)
  {}

  lemma {:induction false} RunExact(im: Image, mod: IrModule, shapes: seq<map<nat, AStack>>, k: nat, m: Machine, n: nat)
    requires Certified(mod, shapes) && Loaded(im, mod) && k < |mod.entries| == |shapes|
    requires NoUserCalls(mod, shapes[k]) && Exact(mod, shapes[k], m)
    ensures var r := Run(im, m, n);
            && (r.Running? ==> Exact(mod, shapes[k], r.m))
            && (r.Trapped? ==> !Impossible(r.trap) && !r.trap.StackOverflow? && !r.trap.UnknownUserFb? && !r.trap.CallDepth?)
            && (r == Trapped(Bounds) ==> TrapsInSegment(im, m, n))
    decreases n
  {
    hide Certified, Step, NoUserCalls, TrapsInSegment, PlatformOk;
    if n > 0 {
      StepExact(im, mod, shapes, k, m);
      var r := Step(im, m);
      if r.Running? {
        RunExact(im, mod, shapes, k, r.m, n - 1);
        if Run(im, m, n) == Trapped(Bounds) { TrapLater(im, m, n); }
      } else if r == Trapped(Bounds) {
        TrapNow(im, m, n);
      }
    }
  }

  /** Without user calls the depth is a function of the position and at most 256: two
      visits of one position, in any two runs of the entry, find equally deep stacks, and no
      run ever overflows. */
  lemma DepthByPosition(im: Image, mod: IrModule, shapes: seq<map<nat, AStack>>, k: nat, m1: Machine, n1: nat, m2: Machine, n2: nat)
    requires Certified(mod, shapes) && Loaded(im, mod) && k < |mod.entries| == |shapes| && NoUserCalls(mod, shapes[k])
    requires Sized(m1, mod) && m1.pc == mod.entries[k].pc && m1.stack == [] && m1.frames == []
    requires Sized(m2, mod) && m2.pc == mod.entries[k].pc && m2.stack == [] && m2.frames == []
    ensures var r1 := Run(im, m1, n1);
            var r2 := Run(im, m2, n2);
            && r1 != Trapped(StackOverflow)
            && (r1.Running? ==> |r1.m.stack| <= MAX_STACK)
            && (r1.Running? && r2.Running? && r1.m.pc == r2.m.pc ==> |r1.m.stack| == |r2.m.stack|)
  {
    hide Certified, Loaded, Run, NoUserCalls;
    EntryShape(mod, shapes, k);
    RunExact(im, mod, shapes, k, m1, n1);
    RunExact(im, mod, shapes, k, m2, n2);
  }

  // ----- modules without user blocks -----

  /** The stack is exactly as deep as the shape of the position, as far as a run goes on. */
  lemma StepPlain(im: Image, mod: IrModule, shapes: seq<map<nat, AStack>>, k: nat, m: Machine)
    requires Certified(mod, shapes) && Loaded(im, mod) && k < |mod.entries| == |shapes| && im.userFbPc == map[]
    requires Exact(mod, shapes[k], m)
    ensures Step(im, m) != Trapped(StackOverflow)
    ensures Step(im, m).Running? ==> Exact(mod, shapes[k], Step(im, m).m)
  {
    hide Effect, StepInstr, PlatformOk, Certified;
    CertifiedAt(mod, shapes, Level(k, 0), m.pc, |m.stack|);
    var i := Decode(mod.code, m.pc).value.0;
    var stack := shapes[k][m.pc];
    StepInstrFits(im, mod, mod.entries[k].isUserFb, m, i, stack);
    if IsUserCall(i) {
      UnknownCall(im, m, i);
    } else if StepInstr(im, m, i).Running? && Effect(mod, mod.entries[k].isUserFb, m.pc, i, stack).value.Terminal? {
      RetAtTop(im, m, i);
      assert false;
    }
  }

  lemma UnknownCall(im: Image, m: Machine, i: Instr)
    requires m.Valid() && IsUserCall(i) && im.userFbPc == map[]
    ensures StepInstr(im, m, i) == Trapped(UnknownUserFb)
  {}

  /** A run from an entry of an accepted module that has no user blocks never overflows the
      stack, whatever its code. */
  lemma {:induction false} PlainNeverOverflows(im: Image, mod: IrModule, shapes: seq<map<nat, AStack>>, k: nat, m: Machine, n: nat)
    requires Certified(mod, shapes) && Loaded(im, mod) && k < |mod.entries| == |shapes| && im.userFbPc == map[]
    requires Exact(mod, shapes[k], m)
    ensures Run(im, m, n) != Trapped(StackOverflow)
    decreases n
  {
    hide Certified, Loaded, Step;
    if n > 0 {
      StepPlain(im, mod, shapes, k, m);
      if Step(im, m).Running? { PlainNeverOverflows(im, mod, shapes, k, Step(im, m).m, n - 1); }
    }
  }
}
