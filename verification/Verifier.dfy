/** The IR verifier: an abstract interpretation over stack shapes with a worklist
    (crates/plc-ir/src/verify.rs). */
module Verifier {
  import opened Bytes
  import opened Ir
  import opened Vm

  const IR_MAJOR: nat := 0
  const MAX_CODE_BYTES: nat := 4 * 1024 * 1024
  const MAX_DATA_RETAIN: nat := 16 * 1024 * 1024

  /** Abstract operand stacks; None stands for a type that is not known. */
  type AStack = seq<Option<IrType>>

  datatype Verdict<+T> = Good(value: T) | Bad(rule: nat)

  /** What an instruction does to the abstract stack, and where control goes. */
  datatype Succ = Terminal | Flow(stack: AStack, nexts: seq<nat>)

  function PushType(stack: AStack, ty: Option<IrType>): Verdict<AStack>
  {
    if |stack| >= MAX_STACK then Bad(2) else Good(stack + [ty])
  }

  /** The stack without its top; the source reports an underflow on an empty stack. */
  function PopType(stack: AStack): Verdict<AStack>
  {
    if stack == [] then Bad(2) else Good(stack[..|stack| - 1])
  }

  function OrElse(a: Option<IrType>, b: Option<IrType>): Option<IrType>
  {
    if a.Some? then a else b
  }

  function NumericType(a: Option<IrType>, b: Option<IrType>): Verdict<Option<IrType>>
  {
    if a.Some? && b.Some? && a.value != b.value then Bad(3) else Good(OrElse(a, b))
  }

  function LogicType(a: Option<IrType>, b: Option<IrType>): Verdict<Option<IrType>>
  {
    if a.Some? && b.Some? then
      if a.value == b.value && IsIntegral(a.value) then Good(a) else Bad(3)
    else Good(OrElse(OrElse(a, b), Some(TBool)))
  }

  predicate OffsetOk(off: nat, size: nat) { size > 0 ==> off < size }

  function SegmentSize(mod: IrModule, op: Opcode): nat
  {
    if op.LdData? || op.StData? then mod.dataSize
    else if op.LdRetain? || op.StRetain? then mod.retainSize
    else 0
  }

  function CheckTarget(mod: IrModule, target: nat): Verdict<()>
  {
    if target % 4 != 0 then Bad(1) else if target >= |mod.code| then Bad(1) else Good(())
  }

  function Falls(v: Verdict<AStack>, next: nat): Verdict<Succ>
  {
    if v.Bad? then Bad(v.rule) else Good(Flow(v.value, [next]))
  }

  function LoadEffect(mod: IrModule, op: Opcode, payload: nat, stack: AStack, next: nat): Verdict<Succ>
  {
    if op.LdData? || op.LdRetain? then
      if !OffsetOk(payload, SegmentSize(mod, op)) then Bad(4) else Falls(PushType(stack, None), next)
    else if op.LdQ? then
      if payload >= mod.outputSlots then Bad(4) else Falls(PushType(stack, None), next)
    else
      if payload >= mod.inputSlots then Bad(4)
      else Falls(PushType(stack, if op.LdIq? then Some(TBool) else None), next)
  }

  function StoreEffect(mod: IrModule, op: Opcode, payload: nat, stack: AStack, next: nat): Verdict<Succ>
  {
    if op.StQ? then
      if payload >= mod.outputSlots then Bad(4) else Falls(PopType(stack), next)
    else
      if !OffsetOk(payload, SegmentSize(mod, op)) then Bad(4) else Falls(PopType(stack), next)
  }

  function UnaryEffect(op: Opcode, stack: AStack, next: nat): Verdict<Succ>
  {
    var p := PopType(stack);
    if p.Bad? then Bad(p.rule)
    else
      var a := stack[|stack| - 1];
      Falls(PushType(p.value, if op.Not? then OrElse(a, Some(TBool)) else a), next)
  }

  function ResultType(op: Opcode, a: Option<IrType>, b: Option<IrType>): Verdict<Option<IrType>>
  {
    match op
    case Add | Sub | Mul | Div => NumericType(a, b)
    case And | Or | Xor => LogicType(a, b)
    case _ => Good(Some(TBool))
  }

  function BinaryEffect(op: Opcode, stack: AStack, next: nat): Verdict<Succ>
  {
    if |stack| < 2 then Bad(2)
    else
      var n := |stack|;
      var r := ResultType(op, stack[n - 2], stack[n - 1]);
      if r.Bad? then Bad(r.rule) else Falls(PushType(stack[..n - 2], r.value), next)
  }

  function BranchEffect(mod: IrModule, target: nat, stack: AStack, next: nat): Verdict<Succ>
  {
    var p := PopType(stack);
    if p.Bad? then Bad(p.rule)
    else
      var c := stack[|stack| - 1];
      if c.Some? && c.value != TBool then Bad(3)
      else
        var t := CheckTarget(mod, target);
        if t.Bad? then Bad(t.rule) else Good(Flow(p.value, [target, next]))
  }

  function SimpleEffect(mod: IrModule, isFb: bool, op: Opcode, payload: nat, stack: AStack, next: nat): Verdict<Succ>
  {
    match op
    case Nop => Good(Flow(stack, [next]))
    case Halt => if isFb then Bad(6) else Good(Terminal)
    case Ret => Good(Terminal)
    case PushIBool => Falls(PushType(stack, Some(TBool)), next)
    case LdData | LdRetain | LdI | LdIq | LdQ => LoadEffect(mod, op, payload, stack, next)
    case StData | StRetain | StQ => StoreEffect(mod, op, payload, stack, next)
    case Neg | Not => UnaryEffect(op, stack, next)
    case Jmp =>
      var t := CheckTarget(mod, payload);
      if t.Bad? then Bad(t.rule) else Good(Flow(stack, [payload]))
    case JmpIf | JmpIfNot => BranchEffect(mod, payload, stack, next)
    case Conv =>
      var p := PopType(stack);
      if p.Bad? then Bad(p.rule)
      else
        var ty := TypeOfTag(payload % 256);
        if ty.None? then Bad(3) else Falls(PushType(p.value, ty), next)
    case PushIDint | PushIReal | PushTime | CallFb => Bad(7)
    case _ => BinaryEffect(op, stack, next)
  }

  function ImmEffect(op: Opcode, stack: AStack, next: nat): Verdict<Succ>
  {
    if op.PushIDint? then Falls(PushType(stack, Some(TDint)), next)
    else if op.PushIReal? then Falls(PushType(stack, Some(TReal)), next)
    else if op.PushTime? then Falls(PushType(stack, Some(TTime)), next)
    else Bad(7)
  }

  /** The outputs of a primitive as the verifier types them: BOOL, then TIME. */
  function PrimOutputs(outs: nat): (s: AStack)
    ensures |s| == outs
  {
    seq(outs, i => Some(if i == 0 then TBool else TTime))
  }

  function CallEffect(kind: nat, id: nat, stack: AStack, next: nat): Verdict<Succ>
  {
    if kind != 0 then Good(Flow(stack, [next]))
    else
      match PrimArity(id)
      case None => Bad(7)
      case Some((ins, outs)) =>
        if |stack| < ins then Bad(2)
        else if |stack| - ins + outs > MAX_STACK then Bad(2)
        else Good(Flow(stack[..|stack| - ins] + PrimOutputs(outs), [next]))
  }

  function Effect(mod: IrModule, isFb: bool, pc: nat, i: Instr, stack: AStack): Verdict<Succ>
  {
    var next := pc + Size(i);
    match i
    case Simple(op, payload) => SimpleEffect(mod, isFb, op, payload, stack, next)
    case WithImm32(op, _, _) => ImmEffect(op, stack, next)
    case Call(kind, id, _) => CallEffect(kind, id, stack, next)
  }

  predicate IsUserCall(i: Instr) { i.Call? && i.kind != 0 }

  predicate Compatible(a: AStack, b: AStack)
  {
    |a| == |b| && forall k :: 0 <= k < |a| ==> a[k].None? || b[k].None? || a[k] == b[k]
  }

  // ----- abstract runs -----

  /** Abstract control: position, stack shape, user calls made so far. */
  datatype Config = Config(pc: nat, stack: AStack, depth: nat)

  function EffectAt(mod: IrModule, isFb: bool, pc: nat, stack: AStack): Verdict<Succ>
  {
    if pc >= |mod.code| then Bad(1)
    else
      var d := Decode(mod.code, pc);
      if d.None? then Bad(7) else Effect(mod, isFb, pc, d.value.0, stack)
  }

  function CallsAt(mod: IrModule, pc: nat): nat
  {
    var d := Decode(mod.code, pc);
    if d.Some? && IsUserCall(d.value.0) then 1 else 0
  }

  predicate Follows(mod: IrModule, isFb: bool, p: Config, c: Config)
  {
    var e := EffectAt(mod, isFb, p.pc, p.stack);
    e.Good? && e.value.Flow? && c.pc in e.value.nexts && c.stack == e.value.stack && c.depth == p.depth + CallsAt(mod, p.pc)
  }

  ghost predicate Reaches(mod: IrModule, isFb: bool, entry: nat, c: Config, n: nat)
    decreases n
  {
    if n == 0 then c == Config(entry, [], 0)
    else exists p :: Reaches(mod, isFb, entry, p, n - 1) && Follows(mod, isFb, p, c)
  }

  ghost predicate Reachable(mod: IrModule, isFb: bool, entry: nat, c: Config)
  {
    exists n: nat :: Reaches(mod, isFb, entry, c, n)
  }

  lemma ReachableNext(mod: IrModule, isFb: bool, entry: nat, p: Config, c: Config)
    requires Reachable(mod, isFb, entry, p) && Follows(mod, isFb, p, c)
    ensures Reachable(mod, isFb, entry, c)
  {
    var n: nat :| Reaches(mod, isFb, entry, p, n);
    assert Reaches(mod, isFb, entry, c, n + 1);
  }

  predicate TerminalAt(mod: IrModule, isFb: bool, pc: nat, stack: AStack)
  {
    EffectAt(mod, isFb, pc, stack) == Good(Terminal)
  }

  /** One shape per position that every step respects. */
  ghost predicate Closed(mod: IrModule, isFb: bool, entry: nat, seen: map<nat, AStack>)
  {
    && entry in seen && seen[entry] == []
    && forall pc :: pc in seen ==> Respected(mod, isFb, seen, pc)
  }

  ghost predicate Respected(mod: IrModule, isFb: bool, seen: map<nat, AStack>, pc: nat)
    requires pc in seen
  {
    var e := EffectAt(mod, isFb, pc, seen[pc]);
    e.Good? && (e.value.Flow? ==> forall k :: 0 <= k < |e.value.nexts| ==> Agrees(seen, e.value.nexts[k], e.value.stack))
  }

  ghost predicate Agrees(seen: map<nat, AStack>, pc: nat, stack: AStack)
  {
    pc in seen && Compatible(seen[pc], stack)
  }

  ghost predicate Stops(mod: IrModule, isFb: bool, seen: map<nat, AStack>)
  {
    exists pc :: pc in seen && TerminalAt(mod, isFb, pc, seen[pc])
  }

  /** Why an entry is refused. */
  ghost predicate Refused(mod: IrModule, isFb: bool, entry: nat, rule: nat)
  {
    || (exists c :: Reachable(mod, isFb, entry, c) && EffectAt(mod, isFb, c.pc, c.stack) == Bad(rule))
    || (rule == 5 && exists c :: Reachable(mod, isFb, entry, c) && c.depth > MAX_CALL_DEPTH)
    || (rule == 3 && exists c, d :: Reachable(mod, isFb, entry, c) && Reachable(mod, isFb, entry, d)
                                   && c.pc == d.pc && !Compatible(c.stack, d.stack))
    || (rule == 6 && exists seen :: Closed(mod, isFb, entry, seen) && !Stops(mod, isFb, seen))
  }

  // ----- the worklist -----

  ghost predicate Pending(work: seq<Config>, pc: nat, stack: AStack)
  {
    exists k :: 0 <= k < |work| && work[k].pc == pc && work[k].stack == stack
  }

  /** Every step out of a visited position is respected or still to be looked at. */
  ghost predicate Tracked(mod: IrModule, isFb: bool, seen: map<nat, AStack>, work: seq<Config>, pc: nat)
    requires pc in seen
  {
    var e := EffectAt(mod, isFb, pc, seen[pc]);
    e.Good? && (e.value.Flow? ==>
      forall k :: 0 <= k < |e.value.nexts| ==>
        Agrees(seen, e.value.nexts[k], e.value.stack) || Pending(work, e.value.nexts[k], e.value.stack))
  }

  ghost predicate WorkOk(mod: IrModule, isFb: bool, entry: nat, seen: map<nat, AStack>, work: seq<Config>)
  {
    && (forall pc :: pc in seen ==> pc < |mod.code|)
    && (forall pc :: pc in seen ==> Tracked(mod, isFb, seen, work, pc))
    && (forall pc :: pc in seen ==> Witnessed(mod, isFb, entry, pc, seen[pc]))
    && (forall k :: 0 <= k < |work| ==> Reachable(mod, isFb, entry, work[k]))
    && ((seen == map[] && work == [Config(entry, [], 0)]) || (entry in seen && seen[entry] == []))
  }

  ghost predicate Witnessed(mod: IrModule, isFb: bool, entry: nat, pc: nat, stack: AStack)
  {
    exists c :: Reachable(mod, isFb, entry, c) && c.pc == pc && c.stack == stack
  }

  lemma StartOk(mod: IrModule, isFb: bool, entry: nat)
    ensures WorkOk(mod, isFb, entry, map[], [Config(entry, [], 0)])
  {
    assert Reaches(mod, isFb, entry, Config(entry, [], 0), 0);
  }

  /** A position seen before with a compatible shape needs no second look. */
  lemma SkipOk(mod: IrModule, isFb: bool, entry: nat, seen: map<nat, AStack>, work: seq<Config>)
    requires WorkOk(mod, isFb, entry, seen, work) && work != []
    requires var c := work[|work| - 1]; c.pc in seen && Compatible(seen[c.pc], c.stack)
    ensures WorkOk(mod, isFb, entry, seen, work[..|work| - 1])
  {
    hide EffectAt, Reachable, Compatible;
    var c, rest := work[|work| - 1], work[..|work| - 1];
    forall pc | pc in seen ensures Tracked(mod, isFb, seen, rest, pc) {
      assert Tracked(mod, isFb, seen, work, pc);
      var e := EffectAt(mod, isFb, pc, seen[pc]);
      if e.value.Flow? {
        forall k | 0 <= k < |e.value.nexts|
          ensures Agrees(seen, e.value.nexts[k], e.value.stack) || Pending(rest, e.value.nexts[k], e.value.stack)
        {
          PendingLess(seen, work, e.value.nexts[k], e.value.stack);
        }
      }
    }
  }

  lemma PendingLess(seen: map<nat, AStack>, work: seq<Config>, pc: nat, stack: AStack)
    requires work != [] && (Agrees(seen, pc, stack) || Pending(work, pc, stack))
    requires var c := work[|work| - 1]; c.pc in seen && Compatible(seen[c.pc], c.stack)
    ensures Agrees(seen, pc, stack) || Pending(work[..|work| - 1], pc, stack)
  {
    hide Compatible;
    if !Agrees(seen, pc, stack) {
      var k :| 0 <= k < |work| && work[k].pc == pc && work[k].stack == stack;
      assert k < |work| - 1;
      assert work[..|work| - 1][k] == work[k];
    }
  }

  function Successors(nexts: seq<nat>, stack: AStack, depth: nat): (s: seq<Config>)
    ensures |s| == |nexts|
  {
    seq(|nexts|, k requires 0 <= k < |nexts| => Config(nexts[k], stack, depth))
  }

  /** Visiting a new position: it is recorded and its successors are put on the list. */
  lemma VisitOk(mod: IrModule, isFb: bool, entry: nat, seen: map<nat, AStack>, work: seq<Config>, more: seq<Config>)
    requires WorkOk(mod, isFb, entry, seen, work) && work != []
    requires var c := work[|work| - 1];
             var e := EffectAt(mod, isFb, c.pc, c.stack);
             && c.pc !in seen && c.pc < |mod.code| && e.Good?
             && more == (if e.value.Flow? then Successors(e.value.nexts, e.value.stack, c.depth + CallsAt(mod, c.pc)) else [])
    ensures var c := work[|work| - 1];
            WorkOk(mod, isFb, entry, seen[c.pc := c.stack], work[..|work| - 1] + more)
  {
    hide EffectAt, Reachable, CallsAt;
    var c, rest := work[|work| - 1], work[..|work| - 1];
    var seen', work' := seen[c.pc := c.stack], rest + more;
    forall pc | pc in seen' ensures Tracked(mod, isFb, seen', work', pc) {
      var e := EffectAt(mod, isFb, pc, seen'[pc]);
      if pc != c.pc { assert Tracked(mod, isFb, seen, work, pc); }
      if e.value.Flow? {
        forall k | 0 <= k < |e.value.nexts|
          ensures Agrees(seen', e.value.nexts[k], e.value.stack) || Pending(work', e.value.nexts[k], e.value.stack)
        {
          if pc == c.pc {
            assert work'[|rest| + k] == more[k];
          } else {
            PendingMoved(seen, work, more, e.value.nexts[k], e.value.stack);
          }
        }
      }
    }
    forall k | 0 <= k < |work'| ensures Reachable(mod, isFb, entry, work'[k]) {
      if k >= |rest| {
        assert work'[k] == more[k - |rest|];
        ReachableNext(mod, isFb, entry, c, work'[k]);
      }
    }
    assert Witnessed(mod, isFb, entry, c.pc, c.stack);
  }

  lemma PendingMoved(seen: map<nat, AStack>, work: seq<Config>, more: seq<Config>, pc: nat, stack: AStack)
    requires work != [] && work[|work| - 1].pc !in seen
    requires Agrees(seen, pc, stack) || Pending(work, pc, stack)
    ensures var c := work[|work| - 1];
            Agrees(seen[c.pc := c.stack], pc, stack) || Pending(work[..|work| - 1] + more, pc, stack)
  {
    if !Agrees(seen, pc, stack) {
      var k :| 0 <= k < |work| && work[k].pc == pc && work[k].stack == stack;
      if k < |work| - 1 { assert (work[..|work| - 1] + more)[k] == work[k]; }
    }
  }

  lemma AllLookedAt(mod: IrModule, isFb: bool, entry: nat, seen: map<nat, AStack>)
    requires WorkOk(mod, isFb, entry, seen, [])
    ensures Closed(mod, isFb, entry, seen)
  {
    forall pc | pc in seen ensures Respected(mod, isFb, seen, pc) {
      assert Tracked(mod, isFb, seen, [], pc);
    }
  }

  ghost function Positions(n: nat): (s: set<nat>)
    ensures forall p: nat :: p in s <==> p < n
  {
    if n == 0 then {} else Positions(n - 1) + {n - 1}
  }

  /** Explores the code from an entry. Acceptance comes with one stack shape per position
      that every step respects; a refusal names an abstract run that breaks the rule. */
  method VerifyEntry(mod: IrModule, entry: nat, isFb: bool) returns (v: Verdict<()>, ghost shapes: map<nat, AStack>)
    ensures v.Good? ==> Closed(mod, isFb, entry, shapes) && Stops(mod, isFb, shapes)
    ensures v.Bad? ==> Refused(mod, isFb, entry, v.rule)
  {
    hide EffectAt, Reachable, Compatible, WorkOk, Closed, CallsAt;
    var seen: map<nat, AStack> := map[];
    var work: seq<Config> := [Config(entry, [], 0)];
    var ended := false;
    shapes := map[];
    StartOk(mod, isFb, entry);
    ghost var all := Positions(|mod.code|);
    while work != []
      invariant WorkOk(mod, isFb, entry, seen, work)
      invariant ended <==> Stops(mod, isFb, seen)
      decreases all - seen.Keys, |work|
    {
      var c := work[|work| - 1];
      ReachableTop(mod, isFb, entry, seen, work);
      if c.depth > MAX_CALL_DEPTH { v := Bad(5); return; }
      if c.pc in seen {
        if !Compatible(seen[c.pc], c.stack) {
          SeenReachable(mod, isFb, entry, seen, work, c.pc);
          v := Bad(3);
          return;
        }
        SkipOk(mod, isFb, entry, seen, work);
        work := work[..|work| - 1];
      } else {
        var e := EffectAt(mod, isFb, c.pc, c.stack);
        if e.Bad? { v := Bad(e.rule); return; }
        EffectInside(mod, isFb, c.pc, c.stack);
        var more := if e.value.Flow? then Successors(e.value.nexts, e.value.stack, c.depth + CallsAt(mod, c.pc)) else [];
        VisitOk(mod, isFb, entry, seen, work, more);
        StopsMore(mod, isFb, seen, c.pc, c.stack);
        assert c.pc in all - seen.Keys;
        seen := seen[c.pc := c.stack];
        work := work[..|work| - 1] + more;
        if e.value.Terminal? { ended := true; }
      }
    }
    AllLookedAt(mod, isFb, entry, seen);
    if !ended { v := Bad(6); return; }
    shapes := seen;
    v := Good(());
  }

  lemma ReachableTop(mod: IrModule, isFb: bool, entry: nat, seen: map<nat, AStack>, work: seq<Config>)
    requires WorkOk(mod, isFb, entry, seen, work) && work != []
    ensures Reachable(mod, isFb, entry, work[|work| - 1])
  {}

  lemma SeenReachable(mod: IrModule, isFb: bool, entry: nat, seen: map<nat, AStack>, work: seq<Config>, pc: nat)
    requires WorkOk(mod, isFb, entry, seen, work) && pc in seen
    ensures exists c :: Reachable(mod, isFb, entry, c) && c.pc == pc && c.stack == seen[pc]
  {
    assert Witnessed(mod, isFb, entry, pc, seen[pc]);
  }

  lemma EffectInside(mod: IrModule, isFb: bool, pc: nat, stack: AStack)
    requires EffectAt(mod, isFb, pc, stack).Good?
    ensures pc < |mod.code|
  {}

  lemma StopsMore(mod: IrModule, isFb: bool, seen: map<nat, AStack>, pc: nat, stack: AStack)
    requires pc !in seen
    ensures Stops(mod, isFb, seen[pc := stack]) <==> Stops(mod, isFb, seen) || TerminalAt(mod, isFb, pc, stack)
  {
    hide EffectAt;
    var seen' := seen[pc := stack];
    if TerminalAt(mod, isFb, pc, stack) { assert seen'[pc] == stack; }
    if Stops(mod, isFb, seen) {
      var q :| q in seen && TerminalAt(mod, isFb, q, seen[q]);
      assert q in seen' && seen'[q] == seen[q];
    }
  }

  // ----- whole modules -----

  /** The checks made once per module, in order. */
  function CheckHeader(mod: IrModule): Verdict<()>
  {
    if mod.irMajor != IR_MAJOR then Bad(7)
    else if |mod.code| % 0x1_0000_0000 > MAX_CODE_BYTES then Bad(9)
    else if mod.dataSize + mod.retainSize > MAX_DATA_RETAIN then Bad(9)
    else if |mod.code| % 4 != 0 then Bad(1)
    else if |mod.constData| % 0x1_0000_0000 != mod.constSize then Bad(4)
    else Good(())
  }

  predicate EntryPlaced(mod: IrModule, e: EntryPoint)
  {
    (mod.code != [] ==> e.pc < |mod.code|) && e.pc % 4 == 0
  }

  /** Every entry has its shapes. */
  ghost predicate Certified(mod: IrModule, shapes: seq<map<nat, AStack>>)
  {
    && CheckHeader(mod).Good? && |shapes| == |mod.entries|
    && forall k :: 0 <= k < |mod.entries| ==> EntryCertified(mod, mod.entries[k], shapes[k])
  }

  ghost predicate EntryCertified(mod: IrModule, e: EntryPoint, shapes: map<nat, AStack>)
  {
    EntryPlaced(mod, e) && Closed(mod, e.isUserFb, e.pc, shapes) && Stops(mod, e.isUserFb, shapes)
  }

  method VerifyModule(mod: IrModule) returns (v: Verdict<()>, ghost shapes: seq<map<nat, AStack>>)
    ensures v.Good? ==> Certified(mod, shapes)
    ensures v.Bad? ==>
              || CheckHeader(mod) == v
              || exists k :: 0 <= k < |mod.entries| && EntryRefused(mod, mod.entries[k], v.rule)
  {
    hide Closed, Stops, Refused, CheckHeader;
    shapes := [];
    v := CheckHeader(mod);
    if v.Bad? { return; }
    for k := 0 to |mod.entries|
      invariant |shapes| == k
      invariant forall j :: 0 <= j < k ==> EntryCertified(mod, mod.entries[j], shapes[j])
    {
      var e := mod.entries[k];
      if !EntryPlaced(mod, e) {
        v := Bad(1);
        assert EntryRefused(mod, mod.entries[k], v.rule);
        return;
      }
      ghost var s;
      v, s := VerifyEntry(mod, e.pc, e.isUserFb);
      if v.Bad? {
        assert EntryRefused(mod, mod.entries[k], v.rule);
        return;
      }
      shapes := shapes + [s];
    }
    v := Good(());
  }

  ghost predicate EntryRefused(mod: IrModule, e: EntryPoint, rule: nat)
  {
    (!EntryPlaced(mod, e) && rule == 1) || Refused(mod, e.isUserFb, e.pc, rule)
  }
}
