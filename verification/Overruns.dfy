/** Two projects the compiler and the verifier accept and whose stores overrun their targets:
    one traps, the other spoils the counter of its own loop. */
module Overruns {
  import opened Bytes
  import opened Ir
  import opened Vm
  import opened St
  import opened Lower
  import opened Sizes
  import opened Unfold
  import opened Check
  import opened Scope
  import opened Simulation
  import opened ExprCorrect
  import opened Place
  import opened StmtCorrect
  import opened Assembly
  import opened Generator
  import opened Encodes
  import opened Binding
  import opened Halting
  import opened Compiled
  import Verifier
  import Quirks

  // ----- projects of one task -----

  function OneModule(b: Bound, gEnd: nat, name: string, body: seq<Stmt>): IrModule
  {
    var t := LowerSeq(gEnd, b.globals, 0, 0, body);
    IrModule(0, 0, Max(Max(b.data, t.cur), 16), b.retain, b.inputSlots, b.outputSlots, [EntryPoint(name, 0, false)], [],
             EncodeAll(t.ins + [Simple(Halt, 0)]))
  }

  /** What a project of one task is compiled to, and that it is compiled to nothing else. */
  lemma OneCompiled(sections: seq<Section>, b: Bound, gEnd: nat, name: string, body: seq<Stmt>)
    requires BindAll(NothingBound(), sections) == Accept(b) && IsEnd(b.globals, gEnd)
    requires CheckSeq(gEnd, b.globals, 0, 0, body).Accept?
    ensures IsCompiled(sections, [Task(name, body)], gEnd, OneModule(b, gEnd, name, body))
    ensures forall g, mod :: IsCompiled(sections, [Task(name, body)], g, mod) ==>
              g == gEnd && mod == OneModule(b, gEnd, name, body)
    ensures TaskBlock(gEnd, b.globals, [Task(name, body)], 0) == LowerSeq(gEnd, b.globals, 0, 0, body)
  {
    hide LowerSeq, CheckSeq, BindAll, EncodeAll, CodeSize, IsEnd;
    var tasks := [Task(name, body)];
    var t := LowerSeq(gEnd, b.globals, 0, 0, body);
    assert tasks[1..] == [];
    LastTask(gEnd, b.globals, t.cur, CodeSize(t.ins) + 4);
    assert t.ins + [Simple(Halt, 0)] + [] == t.ins + [Simple(Halt, 0)];
    forall g, mod | IsCompiled(sections, tasks, g, mod) ensures g == gEnd && mod == OneModule(b, gEnd, name, body) {
      OneEnd(b.globals, g, gEnd);
    }
  }

  lemma LastTask(gEnd: nat, globals: Env, cur: nat, pc: nat)
    ensures CheckTasks(gEnd, globals, cur, pc, []).Accept? && LayTasks(gEnd, globals, cur, pc, []) == Code([], cur)
    ensures EntriesOf(gEnd, globals, cur, pc, []) == []
  {}

  lemma OneEnd(globals: Env, a: nat, b: nat)
    requires IsEnd(globals, a) && IsEnd(globals, b)
    ensures a == b
  {}

  // ----- NOT of a number under AND -----

  /** Three DINTs and a BOOL fill the first 13 bytes. */
  function CrowdedSections(): seq<Section>
  {
    [Section(SecVar, [VarDecl("d", TDint, None, None), VarDecl("e", TDint, None, None), VarDecl("f", TDint, None, None),
                      VarDecl("c", TBool, None, None)])]
  }

  function Crowded(): Env
  {
    map["d" := Data(0, TDint), "e" := Data(4, TDint), "f" := Data(8, TDint), "c" := Data(12, TBool)]
  }

  function CrowdedBound(): Bound { Bound(Crowded(), 13, 0, [], 0, 0) }

  /** `c := NOT d AND c`: NOT of a number is typed as BOOL. */
  function NumberUnderAnd(): Stmt { Assign(Name("c"), Binary(AndAlso, Unary(Invert, Name("d")), Name("c"))) }

  function AndCode(): seq<Instr>
  {
    [Simple(LdData, 0), Simple(Not, 0), Simple(StData, 13), Simple(LdData, 13), Simple(JmpIfNot, 28), Simple(LdData, 12),
     Simple(Jmp, 32), Simple(PushIBool, 0), Simple(StData, 12), Simple(Halt, 0)]
  }

  lemma CrowdedBinds()
    ensures BindAll(NothingBound(), CrowdedSections()) == Accept(CrowdedBound()) && IsEnd(Crowded(), 13)
  {
    var vars := CrowdedSections()[0].vars;
    var b1 := Bound(map["d" := Data(0, TDint)], 4, 0, [], 0, 0);
    var b2 := Bound(map["d" := Data(0, TDint), "e" := Data(4, TDint)], 8, 0, [], 0, 0);
    var b3 := Bound(map["d" := Data(0, TDint), "e" := Data(4, TDint), "f" := Data(8, TDint)], 12, 0, [], 0, 0);
    assert BindVar(NothingBound(), SecVar, vars[0]) == Accept(b1);
    assert BindVar(b1, SecVar, vars[1]) == Accept(b2);
    assert BindVar(b2, SecVar, vars[2]) == Accept(b3);
    assert BindVar(b3, SecVar, vars[3]) == Accept(CrowdedBound());
    FourBound(NothingBound(), b1, b2, b3, CrowdedBound(), SecVar, vars);
    assert CrowdedSections()[1..] == [];
    assert "c" in Crowded() && DataEnd(Crowded()["c"]) == 13;
  }

  lemma FourBound(b0: Bound, b1: Bound, b2: Bound, b3: Bound, b4: Bound, kind: SectionKind, vars: seq<VarDecl>)
    requires |vars| == 4 && BindVar(b0, kind, vars[0]) == Accept(b1) && BindVar(b1, kind, vars[1]) == Accept(b2)
    requires BindVar(b2, kind, vars[2]) == Accept(b3) && BindVar(b3, kind, vars[3]) == Accept(b4)
    ensures BindSection(b0, kind, vars) == Accept(b4)
  {
    hide BindVar;
    var v1, v2, v3 := vars[1..], vars[1..][1..], vars[1..][1..][1..];
    assert v3[1..] == [] && v3[0] == vars[3] && v2[0] == vars[2] && v1[0] == vars[1];
    assert BindSection(b3, kind, v3) == Accept(b4);
    assert BindSection(b2, kind, v2) == Accept(b4);
    assert BindSection(b1, kind, v1) == Accept(b4);
  }

  /** The one statement of a body. */
  lemma OneStmt(gEnd: nat, env: Env, s: Stmt)
    ensures LowerSeq(gEnd, env, 0, 0, [s]) == LowerStmt(gEnd, env, 0, 0, s)
    ensures CheckSeq(gEnd, env, 0, 0, [s]).Accept? <==> CheckStmt(gEnd, env, 0, 0, s).Accept?
    ensures SeqSteps([s]) == StmtSteps(s)
  {
    hide LowerStmt, CheckStmt, CodeSize, StmtSteps;
    var a := LowerStmt(gEnd, env, 0, 0, s);
    assert [s][1..] == [] && a.ins + [] == a.ins;
  }

  lemma AssignUnfolds(gEnd: nat, env: Env, cur: nat, pc: nat, s: Stmt)
    requires s.Assign?
    ensures var v := LowerExpr(gEnd, env, cur, pc, s.rhs); LowerStmt(gEnd, env, cur, pc, s) == Block(v.ins + [StoreName(env, s.lhs)], v.cur, env)
    ensures CheckStmt(gEnd, env, cur, pc, s).Accept? <==> TypeExpr(env, s.rhs).Accept? && CheckTarget(env, s.lhs).Accept?
  {
    hide LowerExpr, TypeExpr;
  }

  lemma AndTyped()
    ensures TypeExpr(Crowded(), NumberUnderAnd().rhs) == Accept(TBool) && CheckTarget(Crowded(), Name("c")).Accept?
    ensures StoreName(Crowded(), Name("c")) == Simple(StData, 12)
    ensures LowerExpr(13, Crowded(), 0, 0, Name("d")) == Code([Simple(LdData, 0)], 0)
    ensures LowerExpr(13, Crowded(), 14, 20, Name("c")) == Code([Simple(LdData, 12)], 14)
  {}

  lemma AndLowered()
    ensures LowerStmt(13, Crowded(), 0, 0, NumberUnderAnd()) == Block(AndCode()[..9], 14, Crowded())
    ensures CheckStmt(13, Crowded(), 0, 0, NumberUnderAnd()).Accept?
  {
    hide LowerExpr, TypeExpr, LowerStmt, CheckStmt, Crowded, StoreName, CheckTarget;
    AssignUnfolds(13, Crowded(), 0, 0, NumberUnderAnd());
    AndTyped();
    AndExpr();
    assert AndCode()[..8] + [Simple(StData, 12)] == AndCode()[..9];
  }

  lemma AndSlot()
    ensures AllocTemp(13, 0, TBool) == (13, 14)
  {}

  lemma AndExpr()
    ensures LowerExpr(13, Crowded(), 0, 0, NumberUnderAnd().rhs) == Code(AndCode()[..8], 14)
  {
    hide LowerExpr, CodeSize, AllocTemp, Crowded, TypeExpr, StoreName, CheckTarget;
    var left, a := Unary(Invert, Name("d")), [Simple(LdData, 0), Simple(Not, 0)];
    AndTyped();
    UnaryLowered(13, Crowded(), 0, 0, left);
    AndSlot();
    LoweredShort(13, Crowded(), 0, 0, NumberUnderAnd().rhs);
    assert a == [Simple(LdData, 0)] + [Simple(Not, 0)];
    CodeSizeAppend([Simple(LdData, 0)], [Simple(Not, 0)]);
    OneSize(Simple(LdData, 0));
    OneSize(Simple(Not, 0));
    OneSize(Simple(LdData, 12));
    assert a + ShortCircuit(AndAlso, 13, 28) + [Simple(LdData, 12)] + [Simple(Jmp, 32), Simple(PushIBool, 0)] == AndCode()[..8];
  }

  function AndModule(): IrModule { OneModule(CrowdedBound(), 13, "main", [NumberUnderAnd()]) }

  lemma AndModuleIs()
    ensures AndModule() == IrModule(0, 0, 16, 0, 0, 0, [EntryPoint("main", 0, false)], [], EncodeAll(AndCode()))
    ensures IsCompiled(CrowdedSections(), [Task("main", [NumberUnderAnd()])], 13, AndModule())
    ensures forall g, mod :: IsCompiled(CrowdedSections(), [Task("main", [NumberUnderAnd()])], g, mod) ==> g == 13 && mod == AndModule()
    ensures TaskBlock(13, Crowded(), [Task("main", [NumberUnderAnd()])], 0).env == Crowded()
  {
    hide BindAll, LowerSeq, CheckSeq, LowerStmt, CheckStmt, EncodeAll, IsCompiled, TaskBlock, IsEnd, Crowded;
    CrowdedBinds();
    OneStmt(13, Crowded(), NumberUnderAnd());
    AndLowered();
    OneCompiled(CrowdedSections(), CrowdedBound(), 13, "main", [NumberUnderAnd()]);
    assert AndCode()[..9] + [Simple(Halt, 0)] == AndCode();
  }

  /** Instructions of one word each stand four bytes apart. */
  lemma {:induction false} WordsAt(code: seq<byte>, pc: nat, ins: seq<Instr>, k: nat)
    requires CodeAt(code, pc, ins) && k < |ins| && forall j :: 0 <= j <= k ==> Size(ins[j]) == 4
    ensures DecodesTo(code, pc + 4 * k, ins[k])
    decreases k
  {
    hide Decode;
    if k > 0 { WordsAt(code, pc + 4, ins[1..], k - 1); }
  }

  lemma AndFits()
    ensures Small(AndCode()) && |AndCode()| == 10 && forall j :: 0 <= j < 10 ==> Size(AndCode()[j]) == 4
  {}

  lemma AndBytes()
    ensures |AndModule().code| == 40 && CodeAt(AndModule().code, 0, AndCode())
  {
    hide EncodeAll, AndModule, CodeAt, AndCode, Small, IsCompiled, TaskBlock;
    AndModuleIs();
    AndFits();
    var code := EncodeAll(AndCode());
    EncodeAllSize(AndCode());
    WordsSize(AndCode());
    assert code[0..0 + |code|] == code;
    EncodedCodeAt(code, 0, AndCode());
  }

  lemma {:induction false} WordsSize(ins: seq<Instr>)
    requires forall j :: 0 <= j < |ins| ==> Size(ins[j]) == 4
    ensures CodeSize(ins) == 4 * |ins|
  {
    if ins != [] { WordsSize(ins[1..]); }
  }

  /** The shapes the verifier finds. */
  function AndShapes(): map<nat, Verifier.AStack>
  {
    map[0 := [], 4 := [None], 8 := [Some(TBool)], 12 := [], 16 := [None], 20 := [], 24 := [None], 28 := [], 32 := [None], 36 := []]
  }

  lemma AndVerified()
    ensures Verifier.Certified(AndModule(), [AndShapes()])
  {
    hide AndModule, CodeAt, AndCode, AndShapes, IsCompiled, TaskBlock, EncodeAll, Verifier.Closed, Verifier.Stops;
    AndModuleIs();
    AndBytes();
    AndClosed(AndModule());
  }

  lemma AndClosed(mod: IrModule)
    requires mod.dataSize == 16 && |mod.code| == 40 && CodeAt(mod.code, 0, AndCode())
    ensures Verifier.Closed(mod, false, 0, AndShapes()) && Verifier.Stops(mod, false, AndShapes())
  {
    hide CodeAt, AndCode, AndShapes, Verifier.EffectAt, Verifier.Agrees, Verifier.Respected, Verifier.TerminalAt, Decode;
    AndFits();
    AndKeys();
    forall pc | pc in AndShapes() ensures Verifier.Respected(mod, false, AndShapes(), pc) {
      WordsAt(mod.code, 0, AndCode(), pc / 4);
      AndRespected(mod, pc / 4);
    }
    WordsAt(mod.code, 0, AndCode(), 9);
    AndHalts(mod);
    assert 36 in AndShapes();
  }

  lemma AndKeys()
    ensures forall pc: nat :: pc in AndShapes() <==> pc < 40 && pc % 4 == 0
    ensures AndShapes()[0] == [] && AndShapes()[36] == [] && AndCode()[9] == Simple(Halt, 0)
  {
    forall pc: nat | pc < 40 && pc % 4 == 0 ensures pc in AndShapes() {
      var k := pc / 4;
      assert pc == 4 * k && (k == 0 || k == 1 || k == 2 || k == 3 || k == 4 || k == 5 || k == 6 || k == 7 || k == 8 || k == 9);
    }
  }

  lemma AndHalts(mod: IrModule)
    requires |mod.code| == 40 && DecodesTo(mod.code, 36, Simple(Halt, 0))
    ensures Verifier.TerminalAt(mod, false, 36, [])
  {}

  lemma AndRespected(mod: IrModule, k: nat)
    requires k < 10 && mod.dataSize == 16 && |mod.code| == 40 && DecodesTo(mod.code, 4 * k, AndCode()[k])
    ensures 4 * k in AndShapes() && Verifier.Respected(mod, false, AndShapes(), 4 * k)
  {
    AndKeys();
    AndEffect(mod, k);
    hide AndCode, AndShapes, Verifier.Effect, Decode, Verifier.Agrees;
    assert Verifier.EffectAt(mod, false, 4 * k, AndShapes()[4 * k]) == Verifier.Effect(mod, false, 4 * k, AndCode()[k], AndShapes()[4 * k]);
  }

  lemma AndEffect(mod: IrModule, k: nat)
    requires k < 10 && mod.dataSize == 16 && |mod.code| == 40 && 4 * k in AndShapes()
    ensures var e := Verifier.Effect(mod, false, 4 * k, AndCode()[k], AndShapes()[4 * k]);
            e.Good? && (e.value.Flow? ==>
              forall j :: 0 <= j < |e.value.nexts| ==> Verifier.Agrees(AndShapes(), e.value.nexts[j], e.value.stack))
  {
    if k < 4 {
      if k < 2 {} else {}
    } else if k < 7 {} else {}
  }

  /** The project compiles, and its module passes the verifier. */
  lemma NumberUnderAndCompiles() returns (gEnd: nat, mod: IrModule, shapes: seq<map<nat, Verifier.AStack>>)
    ensures IsCompiled(CrowdedSections(), [Task("main", [NumberUnderAnd()])], gEnd, mod) && Verifier.Certified(mod, shapes)
    ensures mod.dataSize == 16
  {
    hide IsCompiled, Verifier.Certified, AndModule;
    AndModuleIs();
    AndVerified();
    gEnd, mod, shapes := 13, AndModule(), [AndShapes()];
  }

  /** But running it from any memory that holds a state with a number in `d`, the machine traps:
      the four bytes of the left operand are saved in a scratch of one, at the end of the data
      segment. The task means an assignment. */
  lemma NumberUnderAndTraps(gEnd: nat, mod: IrModule, w: World, im: Image, s: State, m: Machine, d: i32)
    requires var tasks := [Task("main", [NumberUnderAnd()])];
             && IsCompiled(CrowdedSections(), tasks, gEnd, mod) && im.code == mod.code
             && w.env == TaskBlock(gEnd, BindAll(NothingBound(), CrowdedSections()).value.globals, tasks, 0).env
    requires Holds(w, s, m) && m.stack == [] && |m.data.bytes| == mod.dataSize && |mod.entries| == 1 && m.pc == mod.entries[0].pc
    requires "d" in s.vars && s.vars["d"] == Dint(d)
    ensures m.Valid() && Run(im, m, 3) == Trapped(Bounds)
    ensures ExecSeq(w, s, [NumberUnderAnd()]).Next? && !TameSeq(w, s, [NumberUnderAnd()])
  {
    hide Holds, Run, Decode, CodeAt, IsCompiled, TaskBlock, BindAll, AndModule, Load, AndCode, Exec, TameStmt;
    CrowdedBinds();
    AndModuleIs();
    AndBytes();
    HoldsBasics(w, s, m);
    assert Load(m.data, 0) == Some(Dint(d)) && "c" in s.vars by { NumberHeld(w, s, m, d); }
    AndStart(im.code);
    AndRun(im, m, d);
    NumberUnderAndMeans(w, s, d);
    OneMeans(w, s, NumberUnderAnd());
  }

  lemma OneMeans(w: World, s: State, st: Stmt)
    ensures ExecSeq(w, s, [st]) == Exec(w, s, st) && (TameSeq(w, s, [st]) <==> TameStmt(w, s, st))
  {
    hide Exec, TameStmt;
    assert [st][1..] == [];
  }

  lemma AndStart(code: seq<byte>)
    requires CodeAt(code, 0, AndCode())
    ensures DecodesTo(code, 0, Simple(LdData, 0)) && DecodesTo(code, 4, Simple(Not, 0)) && DecodesTo(code, 8, Simple(StData, 13))
  {
    hide CodeAt, Decode;
    WordsAt(code, 0, AndCode(), 0);
    WordsAt(code, 0, AndCode(), 1);
    WordsAt(code, 0, AndCode(), 2);
  }

  /** It means an assignment, whatever the number, but not all of its stores fit. */
  lemma NumberUnderAndMeans(w: World, s: State, d: i32)
    requires w.env == Crowded() && "d" in s.vars && s.vars["d"] == Dint(d) && "c" in s.vars
    ensures Exec(w, s, NumberUnderAnd()).Next? && !TameStmt(w, s, NumberUnderAnd())
  {
    var left := Unary(Invert, Name("d"));
    assert Eval(w, s, left) == Ok(Dint(-1 - d));
    assert Eval(w, s, Name("c")) == Ok(s.vars["c"]);
    hide Unop, ToBytes;
    var e := Binary(AndAlso, left, Name("c"));
    assert Eval(w, s, e).Ok? && !TameExpr(w, s, e);
  }

  lemma NumberHeld(w: World, s: State, m: Machine, d: i32)
    requires w.env == Crowded() && Holds(w, s, m) && "d" in s.vars && s.vars["d"] == Dint(d)
    ensures m.Valid() && Load(m.data, 0) == Some(Dint(d)) && "c" in s.vars
  {
    hide Load;
    assert InData(w.env, "d") && InData(w.env, "c");
  }

  lemma AndRun(im: Image, m: Machine, d: i32)
    requires m.Valid() && m.dataBase == 0 && m.stack == [] && |m.data.bytes| == 16 && Load(m.data, 0) == Some(Dint(d)) && m.pc == 0
    requires DecodesTo(im.code, 0, Simple(LdData, 0)) && DecodesTo(im.code, 4, Simple(Not, 0)) && DecodesTo(im.code, 8, Simple(StData, 13))
    ensures Run(im, m, 3) == Trapped(Bounds)
  {
    hide Load, Run, Decode, StepInstr;
    var m1 := m.(pc := 4, stack := [Dint(d)]);
    var m2 := m.(pc := 8, stack := [Dint(-1 - d)]);
    NumberLoaded(im, m, d);
    OneStep(im, m, Simple(LdData, 0));
    assert m1.stack == [] + [Dint(d)];
    UnaryStep(im, m1, Invert, [], Dint(d));
    OneStep(im, m1, Simple(Not, 0));
    Then(im, m, 1, m1, 2);
    Then(im, m1, 1, m2, 1);
    OneStep(im, m2, Simple(StData, 13));
    NoSpace(im, m2, Dint(-1 - d));
  }

  lemma NumberLoaded(im: Image, m: Machine, d: i32)
    requires m.Valid() && m.stack == [] && m.dataBase == 0 && Load(m.data, 0) == Some(Dint(d))
    ensures StepInstr(im, m, Simple(LdData, 0)) == Running(m.(pc := m.pc + 4, stack := [Dint(d)]))
  {
    hide Load;
    assert m.stack + [Dint(d)] == [Dint(d)];
  }

  lemma NoSpace(im: Image, m: Machine, v: Value)
    requires m.Valid() && m.dataBase == 0 && m.stack == [v] && |m.data.bytes| == 16 && Width(v) == 4
    ensures StepInstr(im, m, Simple(StData, 13)) == Trapped(Bounds)
  {}

  // ----- a loop that spoils its counter -----

  function PairSections(): seq<Section>
  {
    [Section(SecVar, [VarDecl("a", TInt, None, None), VarDecl("b", TInt, None, None)])]
  }

  function Pair(): Env { map["a" := Data(0, TInt), "b" := Data(2, TInt)] }

  function PairBound(): Bound { Bound(Pair(), 4, 0, [], 0, 0) }

  function WideStore(): Stmt { Assign(Name("b"), Literal(IntLit(70000))) }

  /** `WHILE TRUE DO b := 70000; END_WHILE`, at most three times. */
  function Spoiler(): Stmt { While(Literal(BoolLit(true)), Some(3), [WideStore()]) }

  function SpoilTasks(): seq<Task> { [Task("main", [Spoiler()])] }

  /** Its code, four instructions at a time. */
  function Spoil0(): seq<Instr> { [PushDint(3), Simple(StData, 4), Simple(LdData, 4), PushDint(0)] }

  function Spoil1(): seq<Instr> { [Simple(Eq, 0), Simple(JmpIf, 76), Simple(PushIBool, 1), Simple(JmpIfNot, 76)] }

  function Spoil2(): seq<Instr> { [PushDint(70000), Simple(StData, 2), Simple(LdData, 4), PushDint(1)] }

  function Spoil3(): seq<Instr> { [Simple(Sub, 0), Simple(StData, 4), Simple(Jmp, 12), Simple(Halt, 0)] }

  function SpoilCode(): seq<Instr> { Spoil0() + Spoil1() + Spoil2() + Spoil3() }

  lemma PairBinds()
    ensures BindAll(NothingBound(), PairSections()) == Accept(PairBound()) && IsEnd(Pair(), 4)
  {
    var vars := PairSections()[0].vars;
    var b1 := Bound(map["a" := Data(0, TInt)], 2, 0, [], 0, 0);
    assert BindVar(NothingBound(), SecVar, vars[0]) == Accept(b1);
    assert BindVar(b1, SecVar, vars[1]) == Accept(PairBound());
    assert vars[1..] == [vars[1]] && vars[1..][1..] == [] && PairSections()[1..] == [];
    assert BindSection(b1, SecVar, vars[1..]) == Accept(PairBound());
    assert BindSection(NothingBound(), SecVar, vars) == Accept(PairBound());
    assert "b" in Pair() && DataEnd(Pair()["b"]) == 4;
  }

  lemma SpoilBody()
    ensures LowerSeq(4, Pair(), 8, 40, [WideStore()]) == Block([PushDint(70000), Simple(StData, 2)], 8, Pair())
    ensures CheckSeq(4, Pair(), 8, 40, [WideStore()]).Accept?
    ensures LowerExpr(4, Pair(), 8, 32, Literal(BoolLit(true))) == Code([Simple(PushIBool, 1)], 8)
    ensures AllocTemp(4, 0, TDint) == (4, 8) && TypeExpr(Pair(), Literal(BoolLit(true))) == Accept(TBool)
  {
    assert LowerStmt(4, Pair(), 8, 40, WideStore()) == Block([PushDint(70000), Simple(StData, 2)], 8, Pair());
    assert CheckStmt(4, Pair(), 8, 40, WideStore()).Accept?;
    hide LowerStmt, CheckStmt;
    assert [WideStore()][1..] == [];
    assert [PushDint(70000), Simple(StData, 2)] + [] == [PushDint(70000), Simple(StData, 2)];
  }

  lemma SpoilLowered()
    ensures var b := LowerStmt(4, Pair(), 0, 0, Spoiler()); b.cur == 8 && b.env == Pair() && b.ins + [Simple(Halt, 0)] == SpoilCode()
    ensures CheckStmt(4, Pair(), 0, 0, Spoiler()).Accept?
  {
    hide LowerSeq, CheckSeq, LowerExpr, LowerStmt, CheckStmt, AllocTemp, TypeExpr, CodeSize, Pair;
    WhileUnfolds(4, Pair(), 0, 0, Spoiler());
    SpoilBody();
    OneSize(Simple(PushIBool, 1));
    assert [PushDint(70000), Simple(StData, 2)] == [PushDint(70000)] + [Simple(StData, 2)];
    CodeSizeAppend([PushDint(70000)], [Simple(StData, 2)]);
    OneSize(PushDint(70000));
    OneSize(Simple(StData, 2));
    assert LowerStmt(4, Pair(), 0, 0, Spoiler()).ins + [Simple(Halt, 0)]
        == StartCounter(3, 4) + CounterTest(4, 76) + [Simple(PushIBool, 1)] + [Simple(JmpIfNot, 76)]
           + [PushDint(70000), Simple(StData, 2)] + CountDown(4, 12) + [Simple(Halt, 0)];
  }

  function SpoilModule(): IrModule { OneModule(PairBound(), 4, "main", [Spoiler()]) }

  lemma SpoilModuleIs()
    ensures SpoilModule() == IrModule(0, 0, 16, 0, 0, 0, [EntryPoint("main", 0, false)], [], EncodeAll(SpoilCode()))
    ensures IsCompiled(PairSections(), SpoilTasks(), 4, SpoilModule())
    ensures forall g, mod :: IsCompiled(PairSections(), SpoilTasks(), g, mod) ==> g == 4 && mod == SpoilModule()
    ensures TaskBlock(4, Pair(), SpoilTasks(), 0).env == Pair()
  {
    hide BindAll, LowerSeq, CheckSeq, LowerStmt, CheckStmt, EncodeAll, IsCompiled, TaskBlock, IsEnd, Pair, SpoilCode;
    PairBinds();
    OneStmt(4, Pair(), Spoiler());
    SpoilLowered();
    OneCompiled(PairSections(), PairBound(), 4, "main", [Spoiler()]);
  }

  lemma SpoilFits()
    ensures Small(Spoil0()) && Small(Spoil1()) && Small(Spoil2()) && Small(Spoil3())
    ensures CodeSize(Spoil0()) == 24 && CodeSize(Spoil1()) == 16 && CodeSize(Spoil2()) == 24 && CodeSize(Spoil3()) == 16
  {
    assert Small(Spoil0()) && Small(Spoil1()) && Small(Spoil2()) && Small(Spoil3());
    hide Small, CodeSize;
    FourSize(Spoil0()[0], Spoil0()[1], Spoil0()[2], Spoil0()[3]);
    FourSize(Spoil1()[0], Spoil1()[1], Spoil1()[2], Spoil1()[3]);
    FourSize(Spoil2()[0], Spoil2()[1], Spoil2()[2], Spoil2()[3]);
    FourSize(Spoil3()[0], Spoil3()[1], Spoil3()[2], Spoil3()[3]);
  }

  lemma SpoilBytes()
    ensures |SpoilModule().code| == 80
    ensures var code := SpoilModule().code;
            CodeAt(code, 0, Spoil0()) && CodeAt(code, 24, Spoil1()) && CodeAt(code, 40, Spoil2()) && CodeAt(code, 64, Spoil3())
  {
    hide EncodeAll, SpoilModule, CodeAt, CodeSize, Small, IsCompiled, TaskBlock, Spoil0, Spoil1, Spoil2, Spoil3;
    SpoilModuleIs();
    SpoilFits();
    var code := EncodeAll(SpoilCode());
    SmallJoin(Spoil0(), Spoil1(), Spoil2());
    SmallAppend(Spoil0() + Spoil1() + Spoil2(), Spoil3());
    JoinSize(Spoil0(), Spoil1(), Spoil2());
    CodeSizeAppend(Spoil0() + Spoil1() + Spoil2(), Spoil3());
    EncodeAllSize(SpoilCode());
    assert code[0..0 + |code|] == code;
    EncodedCodeAt(code, 0, SpoilCode());
    CodeAtSplit(code, 0, Spoil0() + Spoil1() + Spoil2(), Spoil3());
    CodeAtSplit3(code, 0, Spoil0(), Spoil1(), Spoil2());
  }

  /** Four steps along a list of machines. */
  lemma FourRun(im: Image, m0: Machine, i0: Instr, m1: Machine, i1: Instr, m2: Machine, i2: Instr, m3: Machine, i3: Instr, m4: Machine)
    requires m0.Valid() && DecodesTo(im.code, m0.pc, i0) && StepInstr(im, m0, i0) == Running(m1)
    requires m1.Valid() && DecodesTo(im.code, m1.pc, i1) && StepInstr(im, m1, i1) == Running(m2)
    requires m2.Valid() && DecodesTo(im.code, m2.pc, i2) && StepInstr(im, m2, i2) == Running(m3)
    requires m3.Valid() && DecodesTo(im.code, m3.pc, i3) && StepInstr(im, m3, i3) == Running(m4)
    ensures Run(im, m0, 4) == Running(m4)
  {
    hide Run, StepInstr, Decode;
    OneStep(im, m0, i0);
    OneStep(im, m1, i1);
    OneStep(im, m2, i2);
    OneStep(im, m3, i3);
    Then(im, m0, 1, m1, 1);
    Then(im, m0, 2, m2, 1);
    Then(im, m0, 3, m3, 1);
  }

  /** The machine at `pc` with these two values, or fewer, on its stack. */
  function MachineAt(m: Machine, pc: nat, stack: seq<Value>, data: Segment): Machine { m.(pc := pc, stack := stack, data := data) }

  lemma SpoilRun0(im: Image, m: Machine)
    requires InTask(m) && m.stack == [] && m.pc == 0 && |m.data.bytes| == 16 && CodeAt(im.code, 0, Spoil0())
    ensures Run(im, m, 4) == Running(MachineAt(m, 24, [Dint(3), Dint(0)], Store(m.data, 4, Dint(3)).value))
  {
    hide CodeAt, Decode, Load, Store, Run, StepInstr;
    CodeAtFour(im.code, 0, Spoil0()[0], Spoil0()[1], Spoil0()[2], Spoil0()[3]);
    var d := Store(m.data, 4, Dint(3)).value;
    var m1, m2, m3 := MachineAt(m, 8, [Dint(3)], m.data), MachineAt(m, 12, [], d), MachineAt(m, 16, [Dint(3)], d);
    LiteralPush(im, m, IntLit(3));
    assert m.stack + [Dint(3)] == [Dint(3)] == [] + [Dint(3)];
    StoreStep(im, m1, 4, [], Dint(3));
    LoadAfterStore(m.data, 4, Dint(3));
    SlotPush(im, m2, 4, Dint(3));
    assert m2.stack + [Dint(3)] == [Dint(3)];
    LiteralPush(im, m3, IntLit(0));
    assert m3.stack + [Dint(0)] == [Dint(3), Dint(0)];
    FourRun(im, m, PushDint(3), m1, Simple(StData, 4), m2, Simple(LdData, 4), m3, PushDint(0), MachineAt(m, 24, [Dint(3), Dint(0)], d));
  }

  lemma BranchStep(im: Image, m: Machine, op: Opcode, target: nat, rest: seq<Value>, v: Value)
    requires m.Valid() && m.stack == rest + [v] && (op.JmpIf? || op.JmpIfNot?)
    ensures StepInstr(im, m, Simple(op, target)) == Running(m.(stack := rest, pc := if AsBool(v) == op.JmpIf? then target else m.pc + 4))
  {
    assert Drop(m, 1).stack == rest;
  }

  lemma SpoilRun1(im: Image, m: Machine)
    requires InTask(m) && m.stack == [Dint(3), Dint(0)] && m.pc == 24 && CodeAt(im.code, 24, Spoil1())
    ensures Run(im, m, 4) == Running(MachineAt(m, 40, [], m.data))
  {
    hide CodeAt, Decode, Load, Store, Run, StepInstr;
    CodeAtFour(im.code, 24, Spoil1()[0], Spoil1()[1], Spoil1()[2], Spoil1()[3]);
    var m1, m2, m3 := MachineAt(m, 28, [Bool(false)], m.data), MachineAt(m, 32, [], m.data), MachineAt(m, 36, [Bool(true)], m.data);
    assert m.stack == [] + [Dint(3), Dint(0)] && [] + [Bool(false)] == [Bool(false)] && [] + [Bool(true)] == [Bool(true)];
    OperatorStep(im, m, Eq, [], Dint(3), Dint(0));
    BranchStep(im, m1, JmpIf, 76, [], Bool(false));
    LiteralPush(im, m2, BoolLit(true));
    BranchStep(im, m3, JmpIfNot, 76, [], Bool(true));
    FourRun(im, m, Simple(Eq, 0), m1, Simple(JmpIf, 76), m2, Simple(PushIBool, 1), m3, Simple(JmpIfNot, 76), MachineAt(m, 40, [], m.data));
  }

  /** The third byte of 70000 falls on the counter's first, and takes its tag. */
  lemma Spoils(s: Segment)
    requires s.Valid() && |s.bytes| == 16
    ensures Load(Store(s, 2, Dint(70000)).value, 4) == Some(Bool(true))
  {
    hide ToBytes;
    var after := Store(s, 2, Dint(70000)).value;
    assert after.tags[4] == TAG_UNSET;
    Quirks.WideBytes();
    assert after.bytes[4..5] == [1];
  }

  lemma SpoilRun2(im: Image, m: Machine)
    requires InTask(m) && m.stack == [] && m.pc == 40 && |m.data.bytes| == 16 && CodeAt(im.code, 40, Spoil2())
    ensures Run(im, m, 4) == Running(MachineAt(m, 64, [Bool(true), Dint(1)], Store(m.data, 2, Dint(70000)).value))
  {
    hide CodeAt, Decode, Load, Store, Run, StepInstr;
    CodeAtFour(im.code, 40, Spoil2()[0], Spoil2()[1], Spoil2()[2], Spoil2()[3]);
    var d := Store(m.data, 2, Dint(70000)).value;
    var m1, m2, m3 := MachineAt(m, 48, [Dint(70000)], m.data), MachineAt(m, 52, [], d), MachineAt(m, 56, [Bool(true)], d);
    SpoilStore(im, m, m1, m2);
    Spoils(m.data);
    SpoilLoad(im, m2, m3, MachineAt(m, 64, [Bool(true), Dint(1)], d));
    FourRun(im, m, PushDint(70000), m1, Simple(StData, 2), m2, Simple(LdData, 4), m3, PushDint(1), MachineAt(m, 64, [Bool(true), Dint(1)], d));
  }

  lemma SpoilStore(im: Image, m: Machine, m1: Machine, m2: Machine)
    requires InTask(m) && m.stack == [] && m.pc == 40 && |m.data.bytes| == 16
    requires m1 == MachineAt(m, 48, [Dint(70000)], m.data) && m2 == MachineAt(m, 52, [], Store(m.data, 2, Dint(70000)).value)
    ensures StepInstr(im, m, PushDint(70000)) == Running(m1) && StepInstr(im, m1, Simple(StData, 2)) == Running(m2)
  {
    hide Store, StepInstr;
    LiteralPush(im, m, IntLit(70000));
    assert m.stack + [Dint(70000)] == [Dint(70000)] == [] + [Dint(70000)];
    StoreStep(im, m1, 2, [], Dint(70000));
  }

  lemma SpoilLoad(im: Image, m: Machine, m1: Machine, m2: Machine)
    requires InTask(m) && m.stack == [] && m.pc == 52 && Load(m.data, 4) == Some(Bool(true))
    requires m1 == MachineAt(m, 56, [Bool(true)], m.data) && m2 == MachineAt(m, 64, [Bool(true), Dint(1)], m.data)
    ensures StepInstr(im, m, Simple(LdData, 4)) == Running(m1) && StepInstr(im, m1, PushDint(1)) == Running(m2)
  {
    hide Load, StepInstr;
    SlotPush(im, m, 4, Bool(true));
    assert m.stack + [Bool(true)] == [Bool(true)];
    LiteralPush(im, m1, IntLit(1));
    assert m1.stack + [Dint(1)] == [Bool(true), Dint(1)];
  }

  lemma SpoilRun3(im: Image, m: Machine)
    requires InTask(m) && m.stack == [Bool(true), Dint(1)] && m.pc == 64 && CodeAt(im.code, 64, Spoil3())
    ensures Run(im, m, 1) == Trapped(TypeError)
  {
    hide CodeAt, Decode, Run, StepInstr;
    CodeAtFour(im.code, 64, Spoil3()[0], Spoil3()[1], Spoil3()[2], Spoil3()[3]);
    assert m.stack == [] + [Bool(true), Dint(1)];
    OperatorStep(im, m, Sub, [], Bool(true), Dint(1));
    OneStep(im, m, Simple(Sub, 0));
  }

  /** From any memory the machine traps in the first lap, at the subtraction from a counter that
      now reads as a BOOL. */
  lemma SpoilerTraps(gEnd: nat, mod: IrModule, im: Image, m: Machine)
    requires IsCompiled(PairSections(), SpoilTasks(), gEnd, mod) && im.code == mod.code
    requires InTask(m) && m.stack == [] && |m.data.bytes| == mod.dataSize && |mod.entries| == 1 && m.pc == mod.entries[0].pc
    ensures Run(im, m, 13) == Trapped(TypeError)
  {
    hide CodeAt, Decode, Run, IsCompiled, TaskBlock, Store, SpoilModule, SpoilCode, Spoil0, Spoil1, Spoil2, Spoil3;
    SpoilModuleIs();
    SpoilBytes();
    SpoilRun0(im, m);
    var m0 := Run(im, m, 4).m;
    SpoilRun1(im, m0);
    var m1 := Run(im, m0, 4).m;
    SpoilRun2(im, m1);
    var m2 := Run(im, m1, 4).m;
    SpoilRun3(im, m2);
    Then(im, m, 4, m0, 4);
    Then(im, m, 8, m1, 4);
    Then(im, m, 12, m2, 1);
  }

  /** The task means three assignments. */
  lemma SpoilerMeans(w: World, s: State)
    requires w.env == Pair()
    ensures ExecSeq(w, s, [Spoiler()]) == Next(s.(vars := s.vars["b" := Dint(70000)]))
  {
    var t := s.(vars := s.vars["b" := Dint(70000)]);
    assert t.vars["b" := Dint(70000)] == t.vars;
    forall u: State | u == s || u == t ensures ExecSeq(w, u, [WideStore()]) == Next(t) { OneMeans(w, u, WideStore()); }
    assert Eval(w, s, Literal(BoolLit(true))) == Ok(Bool(true)) == Eval(w, t, Literal(BoolLit(true)));
    hide ExecSeq, Eval;
    var cond, body := Literal(BoolLit(true)), [WideStore()];
    assert ExecWhile(w, t, cond, body, 0) == Next(t);
    assert ExecWhile(w, t, cond, body, 1) == Next(t);
    assert ExecWhile(w, t, cond, body, 2) == Next(t);
    assert ExecWhile(w, s, cond, body, 3) == Next(t);
    OneMeans(w, s, Spoiler());
  }

  // ----- the verifier accepts it -----

  function SpoilShapes(): map<nat, Verifier.AStack>
  {
    map[0 := [], 8 := [Some(TDint)], 12 := [], 16 := [None], 24 := [None, Some(TDint)], 28 := [Some(TBool)], 32 := [],
        36 := [Some(TBool)], 40 := [], 48 := [Some(TDint)], 52 := [], 56 := [None], 64 := [None, Some(TDint)], 68 := [Some(TDint)],
        72 := [], 76 := []]
  }

  /** Where an instruction stands. */
  predicate StandsAt(pc: nat, i: Instr)
  {
    || (pc == 0 && i == PushDint(3)) || (pc == 8 && i == Simple(StData, 4)) || (pc == 12 && i == Simple(LdData, 4))
    || (pc == 16 && i == PushDint(0)) || (pc == 24 && i == Simple(Eq, 0)) || (pc == 28 && i == Simple(JmpIf, 76))
    || (pc == 32 && i == Simple(PushIBool, 1)) || (pc == 36 && i == Simple(JmpIfNot, 76)) || (pc == 40 && i == PushDint(70000))
    || (pc == 48 && i == Simple(StData, 2)) || (pc == 52 && i == Simple(LdData, 4)) || (pc == 56 && i == PushDint(1))
    || (pc == 64 && i == Simple(Sub, 0)) || (pc == 68 && i == Simple(StData, 4)) || (pc == 72 && i == Simple(Jmp, 12))
    || (pc == 76 && i == Simple(Halt, 0))
  }

  lemma SpoilStands(code: seq<byte>, pc: nat) returns (i: Instr)
    requires CodeAt(code, 0, Spoil0()) && CodeAt(code, 24, Spoil1()) && CodeAt(code, 40, Spoil2()) && CodeAt(code, 64, Spoil3())
    requires pc in SpoilShapes()
    ensures StandsAt(pc, i) && DecodesTo(code, pc, i)
  {
    hide CodeAt, Decode;
    CodeAtFour(code, 0, Spoil0()[0], Spoil0()[1], Spoil0()[2], Spoil0()[3]);
    CodeAtFour(code, 24, Spoil1()[0], Spoil1()[1], Spoil1()[2], Spoil1()[3]);
    CodeAtFour(code, 40, Spoil2()[0], Spoil2()[1], Spoil2()[2], Spoil2()[3]);
    CodeAtFour(code, 64, Spoil3()[0], Spoil3()[1], Spoil3()[2], Spoil3()[3]);
    i := if pc == 0 then PushDint(3) else if pc == 8 then Simple(StData, 4) else if pc == 12 then Simple(LdData, 4)
         else if pc == 16 then PushDint(0) else if pc == 24 then Simple(Eq, 0) else if pc == 28 then Simple(JmpIf, 76)
         else if pc == 32 then Simple(PushIBool, 1) else if pc == 36 then Simple(JmpIfNot, 76) else if pc == 40 then PushDint(70000)
         else if pc == 48 then Simple(StData, 2) else if pc == 52 then Simple(LdData, 4) else if pc == 56 then PushDint(1)
         else if pc == 64 then Simple(Sub, 0) else if pc == 68 then Simple(StData, 4) else if pc == 72 then Simple(Jmp, 12)
         else Simple(Halt, 0);
  }

  ghost predicate Allowed(mod: IrModule, pc: nat, i: Instr)
    requires pc in SpoilShapes()
  {
    var e := Verifier.Effect(mod, false, pc, i, SpoilShapes()[pc]);
    e.Good? && (e.value.Flow? ==>
      forall j :: 0 <= j < |e.value.nexts| ==> Verifier.Agrees(SpoilShapes(), e.value.nexts[j], e.value.stack))
  }

  lemma SpoilAllowed(mod: IrModule, pc: nat, i: Instr)
    requires mod.dataSize == 16 && |mod.code| == 80 && pc in SpoilShapes() && StandsAt(pc, i)
    ensures Allowed(mod, pc, i)
  {
    if pc < 16 {
      SpoilFirst(mod, pc, i);
    } else if pc < 28 {
      SpoilEarly(mod, pc, i);
    } else if pc < 40 {
      SpoilMiddle(mod, pc, i);
    } else if pc < 56 {
      SpoilLater(mod, pc, i);
    } else {
      SpoilLate(mod, pc, i);
    }
  }

  lemma SpoilEarly(mod: IrModule, pc: nat, i: Instr)
    requires mod.dataSize == 16 && |mod.code| == 80 && pc in SpoilShapes() && StandsAt(pc, i) && 16 <= pc < 28
    ensures Allowed(mod, pc, i)
  {}

  lemma SpoilFirst(mod: IrModule, pc: nat, i: Instr)
    requires mod.dataSize == 16 && |mod.code| == 80 && pc in SpoilShapes() && StandsAt(pc, i) && pc < 16
    ensures Allowed(mod, pc, i)
  {}

  lemma SpoilMiddle(mod: IrModule, pc: nat, i: Instr)
    requires mod.dataSize == 16 && |mod.code| == 80 && pc in SpoilShapes() && StandsAt(pc, i) && 28 <= pc < 40
    ensures Allowed(mod, pc, i)
  {}

  lemma SpoilLater(mod: IrModule, pc: nat, i: Instr)
    requires mod.dataSize == 16 && |mod.code| == 80 && pc in SpoilShapes() && StandsAt(pc, i) && 40 <= pc < 56
    ensures Allowed(mod, pc, i)
  {}

  lemma SpoilLate(mod: IrModule, pc: nat, i: Instr)
    requires mod.dataSize == 16 && |mod.code| == 80 && pc in SpoilShapes() && StandsAt(pc, i) && 56 <= pc
    ensures Allowed(mod, pc, i)
  {}

  lemma SpoilClosed(mod: IrModule)
    requires mod.dataSize == 16 && |mod.code| == 80
    requires var code := mod.code;
             CodeAt(code, 0, Spoil0()) && CodeAt(code, 24, Spoil1()) && CodeAt(code, 40, Spoil2()) && CodeAt(code, 64, Spoil3())
    ensures Verifier.Closed(mod, false, 0, SpoilShapes()) && Verifier.Stops(mod, false, SpoilShapes())
  {
    hide CodeAt, Spoil0, Spoil1, Spoil2, Spoil3, SpoilShapes, StandsAt, Verifier.Respected, Verifier.TerminalAt, Decode;
    SpoilKeys();
    forall pc | pc in SpoilShapes() ensures Verifier.Respected(mod, false, SpoilShapes(), pc) {
      var i := SpoilStands(mod.code, pc);
      SpoilRespected(mod, pc, i);
    }
    var halt := SpoilStands(mod.code, 76);
    LastStands(halt);
    HaltEnds(mod, SpoilShapes()[76]);
  }

  lemma SpoilKeys()
    ensures 0 in SpoilShapes() && SpoilShapes()[0] == [] && 76 in SpoilShapes() && forall pc :: pc in SpoilShapes() ==> pc < 80
  {}

  lemma SpoilRespected(mod: IrModule, pc: nat, i: Instr)
    requires mod.dataSize == 16 && |mod.code| == 80 && pc in SpoilShapes() && pc < 80 && StandsAt(pc, i) && DecodesTo(mod.code, pc, i)
    ensures Verifier.Respected(mod, false, SpoilShapes(), pc)
  {
    hide SpoilShapes, StandsAt, Verifier.Effect, Verifier.Agrees, Decode;
    SpoilAllowed(mod, pc, i);
    assert Verifier.EffectAt(mod, false, pc, SpoilShapes()[pc]) == Verifier.Effect(mod, false, pc, i, SpoilShapes()[pc]);
  }

  lemma LastStands(i: Instr)
    requires StandsAt(76, i)
    ensures i == Simple(Halt, 0)
  {}

  lemma HaltEnds(mod: IrModule, stack: Verifier.AStack)
    requires |mod.code| == 80 && DecodesTo(mod.code, 76, Simple(Halt, 0))
    ensures Verifier.TerminalAt(mod, false, 76, stack)
  {}

  /** The project compiles, and its module passes the verifier. */
  lemma SpoilerCompiles() returns (gEnd: nat, mod: IrModule, shapes: seq<map<nat, Verifier.AStack>>)
    ensures IsCompiled(PairSections(), SpoilTasks(), gEnd, mod) && Verifier.Certified(mod, shapes) && mod.dataSize == 16
  {
    hide IsCompiled, SpoilModule, SpoilShapes, Verifier.Closed, Verifier.Stops, CodeAt, EncodeAll, SpoilCode, TaskBlock, Spoil0, Spoil1, Spoil2, Spoil3;
    SpoilModuleIs();
    SpoilBytes();
    SpoilClosed(SpoilModule());
    gEnd, mod, shapes := 4, SpoilModule(), [SpoilShapes()];
  }
}
