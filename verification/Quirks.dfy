/** Where the compiler accepts more than its code supports: it never compares the type of
    an assigned expression with the type of the target, takes NOT of a number for a BOOL, and
    cuts slot numbers to an operand. */
module Quirks {
  import opened Bytes
  import opened Ir
  import opened Vm
  import opened St
  import opened Lower
  import opened Check
  import opened Scope
  import opened Simulation
  import opened ExprCorrect
  import opened Place
  import opened StmtCorrect
  import opened Widths
  import opened Binding
  import opened Slots

  /** The cell reads the same before and after a value is stored at `off`. */
  ghost predicate CellKept(s: Segment, off: nat, v: Value, cell: nat)
    requires s.Valid() && off + Width(v) <= |s.bytes|
  {
    Load(s, cell).Some? && cell + Width(Load(s, cell).value) <= |s.bytes| ==> Load(Store(s, off, v).value, cell) == Load(s, cell)
  }

  /** Storing a value to a variable of type `ty` leaves everything behind the variable alone,
      in every memory. */
  ghost predicate KeepsNeighbours(off: nat, ty: IrType, v: Value)
  {
    forall s: Segment, cell: nat ::
      s.Valid() && off + Width(v) <= |s.bytes| && off + ByteWidth(ty) <= cell < |s.bytes| ==> CellKept(s, off, v, cell)
  }

  /** A memory full of INT cells. */
  function IntCells(n: nat): (s: Segment)
    ensures s.Valid() && |s.bytes| == n
  {
    Segment(seq(n, i => 0), seq(n, i => 1))
  }

  /** It does so exactly when the value is no wider than the variable. */
  lemma NeighboursKept(off: nat, ty: IrType, v: Value)
    ensures KeepsNeighbours(off, ty, v) <==> Width(v) <= ByteWidth(ty)
  {
    if Width(v) <= ByteWidth(ty) {
      hide Load, Store, ToBytes;
      forall s: Segment, cell: nat | s.Valid() && off + Width(v) <= |s.bytes| && off + ByteWidth(ty) <= cell < |s.bytes|
        ensures CellKept(s, off, v, cell)
      {
        if Load(s, cell).Some? && cell + Width(Load(s, cell).value) <= |s.bytes| {
          OtherCell(s, off, v, cell, Width(Load(s, cell).value));
        }
      }
    } else {
      var cell := off + ByteWidth(ty);
      var s := IntCells(off + 16);
      assert TypeAt(s, cell) == TInt && TypeOf(Load(s, cell).value) == TInt;
      var t := Store(s, off, v).value;
      assert t.tags[cell] == TAG_UNSET;
      assert !CellKept(s, off, v, cell);
    }
  }

  /** Two INT variables side by side. */
  function TwoInts(): Env { map["a" := Data(0, TInt), "b" := Data(2, TInt)] }

  /** `a := 70000` on an INT. */
  function WideAssignment(): Stmt { Assign(Name("a"), Literal(IntLit(70000))) }

  function WideCode(): seq<Instr> { [WithImm32(PushIDint, 0, 70000), Simple(StData, 0)] }

  function WideMeaning(s: State): State { s.(vars := s.vars["a" := Dint(70000)]) }

  /** It compiles, although its store does not fit. */
  lemma WideAssignmentCompiles(w: World, s: State)
    requires w.env == TwoInts()
    ensures CheckStmt(4, TwoInts(), 0, 0, WideAssignment()).Accept?
    ensures LowerStmt(4, TwoInts(), 0, 0, WideAssignment()).ins == WideCode()
    ensures !TameStmt(w, s, WideAssignment()) && !SoundStmt(TwoInts(), WideAssignment())
    ensures Exec(w, s, WideAssignment()) == Next(WideMeaning(s))
  {}

  /** Running its two instructions from any memory that holds a state, the machine reads the INT
      behind the target as TRUE, whatever it was: unless it was TRUE already, memory does not
      hold the state that the assignment means. */
  lemma WideAssignmentClobbers(w: World, im: Image, s: State, m: Machine) returns (m': Machine)
    requires w.env == TwoInts() && Holds(w, s, m) && m.stack == [] && CodeAt(im.code, m.pc, WideCode())
    ensures m.Valid() && Run(im, m, 2) == Running(m') && m'.data.Valid() && Load(m'.data, 2) == Some(Bool(true))
    ensures "b" in s.vars && (s.vars["b"] != Bool(true) ==> !Holds(w, WideMeaning(s), m'))
  {
    hide CodeAt, Load, Run, Decode, ToBytes, Holds, Store;
    CodeAtTwo(im.code, m.pc, WithImm32(PushIDint, 0, 70000), Simple(StData, 0));
    HoldsBasics(w, s, m);
    InData2(w, s, m);
    m' := WideRun(im, m);
    WideStore(m.data);
    if Holds(w, WideMeaning(s), m') { InData2(w, WideMeaning(s), m'); }
  }

  lemma WideRun(im: Image, m: Machine) returns (m': Machine)
    requires m.Valid() && m.dataBase == 0 && m.stack == [] && 4 <= |m.data.bytes| <= 0x100_0000
    requires DecodesTo(im.code, m.pc, WithImm32(PushIDint, 0, 70000)) && DecodesTo(im.code, m.pc + 8, Simple(StData, 0))
    ensures Run(im, m, 2) == Running(m') && m'.data == Store(m.data, 0, Dint(70000)).value
  {
    WidePush(im, m);
    hide StepInstr, Decode, Store, Run;
    var m1 := m.(pc := m.pc + 8, stack := [Dint(70000)]);
    OneStep(im, m, WithImm32(PushIDint, 0, 70000));
    Then(im, m, 1, m1, 1);
    OneStep(im, m1, Simple(StData, 0));
    assert m1.stack == [] + [Dint(70000)];
    StoreStep(im, m1, 0, [], Dint(70000));
    m' := Run(im, m, 2).m;
  }

  lemma WidePush(im: Image, m: Machine)
    requires m.Valid() && m.stack == []
    ensures StepInstr(im, m, WithImm32(PushIDint, 0, 70000)) == Running(m.(pc := m.pc + 8, stack := [Dint(70000)]))
  {
    assert m.stack + [Dint(70000)] == [Dint(70000)];
  }

  lemma InData2(w: World, s: State, m: Machine)
    requires w.env == TwoInts() && Holds(w, s, m)
    ensures m.Valid() && |m.data.bytes| >= 4 && "b" in s.vars && Load(m.data, 2) == Some(s.vars["b"])
  {
    hide Load;
    assert InData(w.env, "a") && InData(w.env, "b");
  }

  /** A 32-bit store of 70000 leaves its third byte where the next INT begins. */
  lemma WideStore(seg: Segment)
    requires seg.Valid() && |seg.bytes| >= 4
    ensures Load(Store(seg, 0, Dint(70000)).value, 2) == Some(Bool(true))
  {
    hide ToBytes;
    var after := Store(seg, 0, Dint(70000)).value;
    assert after.tags[2] == TAG_UNSET;
    WideBytes();
    assert after.bytes[2..3] == [1];
  }

  lemma WideBytes()
    ensures ToBytes(Dint(70000)) == [112, 17, 1, 0]
  {
    assert Bytes.Le(0, 1) == [0];
    assert Bytes.Le(1, 2) == [1] + Bytes.Le(0, 1);
    assert Bytes.Le(273, 3) == [17] + Bytes.Le(1, 2);
    assert Bytes.Le(70000, 4) == [112] + Bytes.Le(273, 3);
  }

  // ----- literal bounds that cross 2^31 -----

  function TwoDints(): Env { map["i" := Data(0, TDint), "n" := Data(4, TDint)] }

  /** `FOR i := 2147483647 TO 2147483648 DO n := 1 END_FOR`. */
  function CrossingFor(): Stmt
  {
    For("i", Literal(IntLit(0x7FFF_FFFF)), Literal(IntLit(0x8000_0000)), None, None, [Assign(Name("n"), Literal(IntLit(1)))])
  }

  /** It compiles with a cap of two iterations, every store it makes fits, and its body never
      runs: `n` stays as it was. */
  lemma CrossingForSkips(w: World, s: State)
    requires w.env == TwoDints()
    ensures CheckStmt(8, TwoDints(), 0, 0, CrossingFor()).Accept? && ForLimit(CrossingFor()) == 2
    ensures Exec(w, s, CrossingFor()) == Next(s.(vars := s.vars["i" := Dint(0x7FFF_FFFF)])) && TameStmt(w, s, CrossingFor())
  {
    hide CheckStmt, Exec, TameStmt, TameFor, ExecFor;
    CrossingForCompiles();
    ForMeaning(w, s, CrossingFor());
    var s1 := s.(vars := s.vars["i" := Dint(0x7FFF_FFFF)]);
    assert Write(w, s, "i", Dint(0x7FFF_FFFF)) == Next(s1);
    PastAtOnce(w, s1, CrossingFor().body, 2);
    CrossingForTame(w, s);
  }

  lemma PastAtOnce(w: World, s: State, body: seq<Stmt>, k: nat)
    requires "i" in s.vars && s.vars["i"] == Dint(0x7FFF_FFFF)
    ensures ExecFor(w, s, "i", Dint(-0x8000_0000), Dint(1), body, k) == Next(s)
    ensures TameFor(w, s, "i", Dint(-0x8000_0000), Dint(1), body, k)
  {
    hide ExecSeq, TameSeq;
  }

  lemma CrossingForTame(w: World, s: State)
    requires w.env == TwoDints()
    ensures TameStmt(w, s, CrossingFor())
  {
    hide TameFor, ForLimit;
    var s1 := s.(vars := s.vars["i" := Dint(0x7FFF_FFFF)]);
    PastAtOnce(w, s1, CrossingFor().body, ForLimit(CrossingFor()));
  }

  lemma CrossingForCompiles()
    ensures CheckStmt(8, TwoDints(), 0, 0, CrossingFor()).Accept?
  {
    hide LowerExpr, PlanFor;
    var st := CrossingFor();
    assert CheckTarget(TwoDints(), Name("n")).Accept?;
    PlanKeepsScope(st);
  }

  lemma PlanKeepsScope(st: Stmt)
    requires st == CrossingFor()
    ensures PlanFor(8, TwoDints(), 0, 0, st.v, st.first, st.last, st.step).env == TwoDints()
  {
    hide LowerExpr, AllocTemp;
  }

  // ----- two names for one slot -----

  function SharedSlot(): seq<Section>
  {
    [Section(SecOutput, [VarDecl("a", TBool, Some((PlaneQ, 0)), None), VarDecl("b", TDint, Some((PlaneQ, 0)), None)])]
  }

  /** Binding accepts two names, of different widths even, for one output slot. */
  lemma SharedSlotBinds()
    ensures var c := BindAll(NothingBound(), SharedSlot());
            && c.Accept? && c.value.globals == map["a" := Output(0, TBool), "b" := Output(0, TDint)]
            && c.value.outputSlots == 1 && !SlotsAgree(c.value.globals)
  {
    var vars := SharedSlot()[0].vars;
    var b1 := BindVar(NothingBound(), SecOutput, vars[0]).value;
    var b2 := BindVar(b1, SecOutput, vars[1]).value;
    assert vars[1..] == [vars[1]] && vars[1..][1..] == [] && SharedSlot()[1..] == [];
    assert BindSection(b1, SecOutput, vars[1..]) == Accept(b2);
    assert BindSection(NothingBound(), SecOutput, vars) == Accept(b2);
    assert InOutput(b2.globals, "a") && InOutput(b2.globals, "b");
  }

  // ----- slots beyond an operand -----

  /** The instruction that names a slot does so exactly when the slot fits 24 bits; the verifier
      sees the slot that is left. */
  lemma SlotNamed(op: Opcode, slot: nat)
    requires op.LdI? || op.LdQ? || op.LdIq? || op.StQ?
    ensures Decode(Encode(Simple(op, slot)), 0) == Some((Simple(op, slot), 4)) <==> slot < 0x100_0000
    ensures Decode(Encode(Simple(op, slot)), 0) == Some((Simple(op, slot % 0x100_0000), 4))
  {
    var cut := Simple(op, slot % 0x100_0000);
    CutOperand(slot);
    assert Encode(cut)[0..Size(cut)] == Encode(cut);
    DecodeOfEncode(Encode(cut), 0, cut);
    assert Encode(Simple(op, slot)) == Encode(cut);
  }
}
