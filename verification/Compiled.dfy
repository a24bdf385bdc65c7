/** From declarations and task bodies to a module, and what running the module means. */
module Compiled {
  import opened Bytes
  import opened Ir
  import opened Vm
  import opened St
  import opened Lower
  import opened Sizes
  import opened Check
  import opened Scope
  import opened Simulation
  import opened ExprCorrect
  import opened Place
  import opened StmtCorrect
  import opened Loops
  import opened Assembly
  import opened Generator
  import opened Encodes
  import opened Binding
  import opened Slots
  import opened Halting
  import opened Widths
  import Verifier
  import VerifierSound

  lemma {:induction false} EndExists(globals: Env) returns (e: nat)
    ensures IsEnd(globals, e)
    decreases |globals|
  {
    if globals == map[] {
      e := 0;
    } else {
      var x :| x in globals;
      var rest := globals - {x};
      assert rest.Keys == globals.Keys - {x};
      var d := EndExists(rest);
      var mine := if globals[x].Data? then DataEnd(globals[x]) else 0;
      e := Max(d, mine);
      forall y | y in globals && globals[y].Data? ensures DataEnd(globals[y]) <= e {
        assert y == x || y in rest;
      }
      if e != 0 {
        if e == mine {
          assert globals[x].Data? && DataEnd(globals[x]) == e;
        } else {
          var y :| y in rest && rest[y].Data? && rest[y].offset + ByteWidth(rest[y].ty) == d;
          assert globals[y].Data? && DataEnd(globals[y]) == e;
        }
      }
    }
  }

  /** The module is what the reference compiler makes of the declarations and the tasks. */
  ghost predicate IsCompiled(sections: seq<Section>, tasks: seq<Task>, gEnd: nat, mod: IrModule)
  {
    var b := BindAll(NothingBound(), sections);
    && b.Accept? && IsEnd(b.value.globals, gEnd)
    && CheckTasks(gEnd, b.value.globals, 0, 0, tasks).Accept?
    && var all := LayTasks(gEnd, b.value.globals, 0, 0, tasks);
      mod == IrModule(0, 0, Max(Max(b.value.data, all.cur), 16), b.value.retain, b.value.inputSlots, b.value.outputSlots,
                      EntriesOf(gEnd, b.value.globals, 0, 0, tasks), [], EncodeAll(all.ins))
  }

  /** Why the verifier refuses a module. */
  ghost predicate Unverified(mod: IrModule)
  {
    || Verifier.CheckHeader(mod).Bad?
    || exists k, rule :: 0 <= k < |mod.entries| && Verifier.EntryRefused(mod, mod.entries[k], rule)
  }

  /** Why the compiler refuses a project: the first complaint of binding, of the checks made
      while emitting, or else of the verifier about the module that was made. */
  ghost predicate Complaint(sections: seq<Section>, tasks: seq<Task>, gEnd: nat, code: ErrorCode)
  {
    var b := BindAll(NothingBound(), sections);
    if b.Reject? then code == b.code
    else
      && IsEnd(b.value.globals, gEnd)
      && var c := CheckTasks(gEnd, b.value.globals, 0, 0, tasks);
         if c.Reject? then code == c.code
         else code == ECodegen && exists mod :: IsCompiled(sections, tasks, gEnd, mod) && Unverified(mod)
  }

  /** The whole compiler: binding, one-pass code generation, patching, and the verification of
      what came out. */
  method Compile(sections: seq<Section>, tasks: seq<Task>)
    returns (r: Checked<IrModule>, ghost gEnd: nat, ghost shapes: seq<map<nat, Verifier.AStack>>)
    ensures r.Accept? ==> IsCompiled(sections, tasks, gEnd, r.value) && Verifier.Certified(r.value, shapes)
    ensures r.Reject? ==> Complaint(sections, tasks, gEnd, r.code)
  {
    hide IsEnd, CheckTasks, LayTasks, EntriesOf, EncodeAll, Unverified, Verifier.Certified, Verifier.CheckHeader, Verifier.EntryRefused;
    gEnd, shapes := 0, [];
    var binder := new Binder();
    var err := binder.BindSections(sections);
    if err.Some? { r := Reject(err.value); return; }
    gEnd := EndExists(binder.globals);
    r := CompileTasks(binder.globals, tasks, binder.alloc.data, binder.alloc.retain, binder.inputSlots, binder.outputSlots, gEnd);
    if r.Accept? {
      var v;
      v, shapes := Verifier.VerifyModule(r.value);
      if v.Bad? {
        RefusedWhy(r.value, v);
        r := Reject(ECodegen);
      }
    }
  }

  lemma RefusedWhy(mod: IrModule, v: Verifier.Verdict<()>)
    requires v.Bad?
    requires Verifier.CheckHeader(mod) == v || exists k :: 0 <= k < |mod.entries| && Verifier.EntryRefused(mod, mod.entries[k], v.rule)
    ensures Unverified(mod)
  {
    hide Verifier.EntryRefused, Verifier.CheckHeader;
  }

  // ----- where each task stands -----

  /** Cursor and code position at the start of task `i`. */
  function TaskStart(gEnd: nat, globals: Env, cur: nat, pc: nat, tasks: seq<Task>, i: nat): (nat, nat)
    requires i < |tasks|
    decreases i
  {
    if i == 0 then (cur, pc)
    else
      var b := LowerSeq(gEnd, globals, cur, pc, tasks[0].body);
      TaskStart(gEnd, globals, b.cur, pc + CodeSize(b.ins) + 4, tasks[1..], i - 1)
  }

  /** Code, cursor and scope of task `i`. */
  function TaskBlock(gEnd: nat, globals: Env, tasks: seq<Task>, i: nat): Block
    requires i < |tasks|
  {
    var (cur, pc) := TaskStart(gEnd, globals, 0, 0, tasks, i);
    LowerSeq(gEnd, globals, cur, pc, tasks[i].body)
  }

  lemma {:induction false} TaskPlaced(gEnd: nat, globals: Env, cur: nat, pc: nat, tasks: seq<Task>, i: nat)
    returns (pre: seq<Instr>, post: seq<Instr>)
    requires i < |tasks| && CheckTasks(gEnd, globals, cur, pc, tasks).Accept?
    ensures var (c, p) := TaskStart(gEnd, globals, cur, pc, tasks, i);
            var b := LowerSeq(gEnd, globals, c, p, tasks[i].body);
            var all := LayTasks(gEnd, globals, cur, pc, tasks);
            && all.ins == pre + (b.ins + [Simple(Halt, 0)]) + post
            && p == pc + CodeSize(pre) && b.cur <= all.cur
            && CheckSeq(gEnd, globals, c, p, tasks[i].body).Accept?
            && i < |EntriesOf(gEnd, globals, cur, pc, tasks)|
            && EntriesOf(gEnd, globals, cur, pc, tasks)[i] == EntryPoint(tasks[i].name, p, false)
    decreases i
  {
    hide LowerSeq, CheckSeq, CodeSize, LayTasks, CheckTasks, EntriesOf;
    TasksUnfold(gEnd, globals, cur, pc, tasks);
    var b := LowerSeq(gEnd, globals, cur, pc, tasks[0].body);
    var next := pc + CodeSize(b.ins) + 4;
    var piece := b.ins + [Simple(Halt, 0)];
    CodeSizeAppend(b.ins, [Simple(Halt, 0)]);
    OneSize(Simple(Halt, 0));
    if i == 0 {
      pre, post := [], LayTasks(gEnd, globals, b.cur, next, tasks[1..]).ins;
      EmptySize();
      TasksGrow(gEnd, globals, b.cur, next, tasks[1..]);
      assert pre + piece + post == piece + post;
    } else {
      pre, post := TaskPlaced(gEnd, globals, b.cur, next, tasks[1..], i - 1);
      var (c, p) := TaskStart(gEnd, globals, cur, pc, tasks, i);
      var mid := LowerSeq(gEnd, globals, c, p, tasks[i].body).ins + [Simple(Halt, 0)];
      CodeSizeAppend(piece, pre);
      assert piece + (pre + mid + post) == (piece + pre) + mid + post;
      pre := piece + pre;
    }
  }

  lemma EmptySize()
    ensures CodeSize([]) == 0
  {}

  lemma {:induction false} TasksGrow(gEnd: nat, globals: Env, cur: nat, pc: nat, tasks: seq<Task>)
    ensures cur <= LayTasks(gEnd, globals, cur, pc, tasks).cur
    decreases |tasks|
  {
    hide LowerSeq, CodeSize, Extends;
    if tasks != [] {
      var b := LowerSeq(gEnd, globals, cur, pc, tasks[0].body);
      SeqExtends(gEnd, globals, cur, pc, tasks[0].body);
      CursorOf(gEnd, globals, cur, b.env, b.cur);
      TasksGrow(gEnd, globals, b.cur, pc + CodeSize(b.ins) + 4, tasks[1..]);
    }
  }

  // ----- the layout a compiled module needs -----

  lemma GlobalsScoped(b: Bound, gEnd: nat, cur: nat)
    requires BoundOk(b) && IsEnd(b.globals, gEnd)
    ensures Scoped(gEnd, b.globals, cur)
  {}

  /** Scratch and implicit loop variables of a task never reach into a declared variable
      or beyond the module's data size. */
  lemma TaskLayout(sections: seq<Section>, tasks: seq<Task>, gEnd: nat, mod: IrModule, i: nat)
    requires IsCompiled(sections, tasks, gEnd, mod) && i < |tasks|
    ensures LayoutOk(TaskBlock(gEnd, BindAll(NothingBound(), sections).value.globals, tasks, i).env, mod.dataSize, mod.retainSize)
  {
    hide BindAll, LayTasks, EntriesOf, LowerSeq, CheckSeq, EncodeAll, CheckTasks, CodeSize, IsEnd, SymbolsOk, SlotsOk;
    var b := BindAll(NothingBound(), sections).value;
    NothingBoundOk();
    BindAllKeeps(NothingBound(), sections);
    var (cur, pc) := TaskStart(gEnd, b.globals, 0, 0, tasks, i);
    var t := LowerSeq(gEnd, b.globals, cur, pc, tasks[i].body);
    var pre, post := TaskPlaced(gEnd, b.globals, 0, 0, tasks, i);
    GlobalsScoped(b, gEnd, cur);
    SeqExtends(gEnd, b.globals, cur, pc, tasks[i].body);
    forall x, y | InRetain(t.env, x) && InRetain(t.env, y) && x != y
      ensures t.env[x].offset + ByteWidth(t.env[x].ty) <= t.env[y].offset
              || t.env[y].offset + ByteWidth(t.env[y].ty) <= t.env[x].offset
    {
      RetainDisjoint(b, x, y);
    }
    LayoutGrown(b, gEnd, cur, t, mod.dataSize);
  }

  lemma LayoutGrown(b: Bound, gEnd: nat, cur: nat, t: Block, len: nat)
    requires BoundOk(b) && Grows(gEnd, b.globals, cur, t.env, t.cur) && t.cur <= len && b.data <= len
    ensures forall x :: InData(t.env, x) ==> DataEnd(t.env[x]) <= len
    ensures forall x :: InRetain(t.env, x) ==> t.env[x].offset + ByteWidth(t.env[x].ty) <= b.retain
  {
    forall x | InRetain(t.env, x) ensures t.env[x].offset + ByteWidth(t.env[x].ty) <= b.retain {
      assert InRetain(b.globals, x) && Listed(b, x);
    }
    hide SymbolsOk;
    forall x | InData(t.env, x) ensures DataEnd(t.env[x]) <= len {
      if x in b.globals { assert InData(b.globals, x); }
    }
  }

  /** Slot numbers apart, everything declared is within the reach of an operand. */
  lemma BoundSmall(b: Bound, dataSize: nat, retainSize: nat)
    requires BoundOk(b) && b.data <= dataSize <= LIMIT && b.retain <= retainSize <= LIMIT
    ensures SmallEnv(CutEnv(b.globals))
    ensures b.inputSlots <= LIMIT && b.outputSlots <= LIMIT ==> CutEnv(b.globals) == b.globals
  {
    forall x | x in b.globals && b.globals[x].Retain? ensures b.globals[x].offset < LIMIT {
      assert InRetain(b.globals, x) && Listed(b, x);
    }
    forall x | x in b.globals && b.globals[x].Data? ensures b.globals[x].offset < LIMIT { assert InData(b.globals, x); }
    if b.inputSlots <= LIMIT && b.outputSlots <= LIMIT {
      forall x | x in b.globals ensures CutStorage(b.globals[x]) == b.globals[x] {
        if b.globals[x].Output? { assert InOutput(b.globals, x); }
      }
    }
  }

  // ----- the theorem -----

  /** The bytes of the module at a task's entry are the task's reference code, with slot numbers
      cut to 24 bits. */
  lemma TaskCutAt(sections: seq<Section>, tasks: seq<Task>, gEnd: nat, mod: IrModule, i: nat)
    requires IsCompiled(sections, tasks, gEnd, mod) && i < |tasks|
    requires |mod.code| <= LIMIT && mod.dataSize <= LIMIT && mod.retainSize <= LIMIT
    ensures var b := BindAll(NothingBound(), sections).value;
            var (cur, pc) := TaskStart(gEnd, b.globals, 0, 0, tasks, i);
            var t := LowerSeq(gEnd, CutEnv(b.globals), cur, pc, tasks[i].body);
            && Scoped(gEnd, CutEnv(b.globals), cur) && t.cur <= mod.dataSize
            && CheckSeq(gEnd, CutEnv(b.globals), cur, pc, tasks[i].body).Accept?
            && i < |mod.entries| && mod.entries[i] == EntryPoint(tasks[i].name, pc, false)
            && CodeAt(mod.code, pc, t.ins + [Simple(Halt, 0)])
  {
    hide BindAll, LayTasks, EntriesOf, LowerSeq, CheckSeq, EncodeAll, CheckTasks, CodeAt, CodeSize, SmallEnv, Scoped, BoundOk, IsEnd, Small, CutAll, CutEnv;
    var b := BindAll(NothingBound(), sections).value;
    NothingBoundOk();
    BindAllKeeps(NothingBound(), sections);
    BoundSmall(b, mod.dataSize, mod.retainSize);
    var (cur, pc) := TaskStart(gEnd, b.globals, 0, 0, tasks, i);
    var u := LowerSeq(gEnd, b.globals, cur, pc, tasks[i].body);
    var halt := Simple(Halt, 0);
    GlobalsScoped(b, gEnd, cur);
    CutScoped(gEnd, b.globals, cur);
    var pre, post := TaskPlaced(gEnd, b.globals, 0, 0, tasks, i);
    EncodedMiddle(mod.code, pre, u.ins + [halt], post);
    CutSeq(gEnd, b.globals, cur, pc, tasks[i].body);
    SameBytes(u.ins + [halt]);
    CutAppend(u.ins, [halt]);
    CutNone([halt]);
    var mid := CutAll(u.ins) + [halt];
    EncodeAllSize(mid);
    CodeSizeAppend(CutAll(u.ins), [halt]);
    OneSize(halt);
    SeqSmall(gEnd, CutEnv(b.globals), cur, pc, tasks[i].body);
    OneSmall(halt);
    SmallAppend(CutAll(u.ins), [halt]);
    EncodedCodeAt(mod.code, pc, mid);
  }

  /** The bytes of the module at a task's entry are the task's reference code. */
  lemma TaskCodeAt(sections: seq<Section>, tasks: seq<Task>, gEnd: nat, mod: IrModule, i: nat)
    requires IsCompiled(sections, tasks, gEnd, mod) && i < |tasks|
    requires |mod.code| <= LIMIT && mod.dataSize <= LIMIT && mod.retainSize <= LIMIT
    requires mod.inputSlots <= LIMIT && mod.outputSlots <= LIMIT
    ensures var b := BindAll(NothingBound(), sections).value;
            var (cur, pc) := TaskStart(gEnd, b.globals, 0, 0, tasks, i);
            var t := LowerSeq(gEnd, b.globals, cur, pc, tasks[i].body);
            && Scoped(gEnd, b.globals, cur) && t.cur <= mod.dataSize
            && CheckSeq(gEnd, b.globals, cur, pc, tasks[i].body).Accept?
            && i < |mod.entries| && mod.entries[i] == EntryPoint(tasks[i].name, pc, false)
            && CodeAt(mod.code, pc, t.ins + [Simple(Halt, 0)])
  {
    hide BindAll, LayTasks, EntriesOf, LowerSeq, CheckSeq, EncodeAll, CheckTasks, CodeAt, CodeSize, SmallEnv, Scoped, BoundOk, IsEnd, CutEnv;
    NothingBoundOk();
    BindAllKeeps(NothingBound(), sections);
    TasksGrow(gEnd, BindAll(NothingBound(), sections).value.globals, 0, 0, tasks);
    BoundSmall(BindAll(NothingBound(), sections).value, mod.dataSize, mod.retainSize);
    TaskCutAt(sections, tasks, gEnd, mod, i);
  }

  lemma EncodedMiddle(code: seq<byte>, pre: seq<Instr>, mid: seq<Instr>, post: seq<Instr>)
    requires code == EncodeAll(pre + mid + post)
    ensures var p, n := CodeSize(pre), |EncodeAll(mid)|;
            p + n <= |code| && code[p..p + n] == EncodeAll(mid)
  {
    hide EncodeAll;
    EncodeAllAppend(pre + mid, post);
    EncodeAllAppend(pre, mid);
    EncodeAllSize(pre);
    assert code == EncodeAll(pre) + EncodeAll(mid) + EncodeAll(post);
  }

  // ----- what acceptance adds -----

  /** A verified module's code and segments are within the reach of an operand; the code's
      length is a 32-bit number. */
  lemma VerifiedSmall(mod: IrModule, shapes: seq<map<nat, Verifier.AStack>>)
    requires Verifier.Certified(mod, shapes) && |mod.code| < 0x1_0000_0000
    ensures |mod.code| <= LIMIT && mod.dataSize <= LIMIT && mod.retainSize <= LIMIT
  {}

  lemma {:induction false} NoUserEntries(gEnd: nat, globals: Env, cur: nat, pc: nat, tasks: seq<Task>)
    ensures forall k :: 0 <= k < |EntriesOf(gEnd, globals, cur, pc, tasks)| ==> !EntriesOf(gEnd, globals, cur, pc, tasks)[k].isUserFb
    decreases |tasks|
  {
    hide LowerSeq, CodeSize;
    if tasks != [] {
      var b := LowerSeq(gEnd, globals, cur, pc, tasks[0].body);
      NoUserEntries(gEnd, globals, b.cur, pc + CodeSize(b.ins) + 4, tasks[1..]);
    }
  }

  /** An invocation of a task of an accepted module never overflows the operand stack, however
      deep its expressions are. */
  lemma TaskNeverOverflows(sections: seq<Section>, tasks: seq<Task>, gEnd: nat, mod: IrModule,
                           shapes: seq<map<nat, Verifier.AStack>>, i: nat, im: Image, m: Machine)
    requires IsCompiled(sections, tasks, gEnd, mod) && Verifier.Certified(mod, shapes) && i < |mod.entries|
    requires VerifierSound.Loaded(im, mod) && VerifierSound.Sized(m, mod)
    requires m.pc == mod.entries[i].pc && m.stack == [] && m.frames == []
    ensures NeverOverflows(im, m)
  {
    hide BindAll, LayTasks, CheckTasks, EntriesOf, EncodeAll, Verifier.Certified, VerifierSound.PlatformOk, Run, IsEnd;
    NoUserEntries(gEnd, BindAll(NothingBound(), sections).value.globals, 0, 0, tasks);
    VerifierSound.EntryShape(mod, shapes, i);
    ShapesMatch(mod, shapes);
    assert im.userFbPc == map[];
    forall n: nat ensures Run(im, m, n) != Trapped(StackOverflow) {
      VerifierSound.PlainNeverOverflows(im, mod, shapes, i, m, n);
    }
  }

  lemma ShapesMatch(mod: IrModule, shapes: seq<map<nat, Verifier.AStack>>)
    requires Verifier.Certified(mod, shapes)
    ensures |shapes| == |mod.entries|
  {}

  /** Running a task of a module the compiler accepted, from any memory that holds a state, does
      exactly what the task's body means on that state, and stops within a bound read off the
      body, as long as every store the body makes fits its target. */
  lemma CompiledTask(sections: seq<Section>, tasks: seq<Task>, gEnd: nat, mod: IrModule, shapes: seq<map<nat, Verifier.AStack>>,
                     i: nat, w: World, im: Image, s: State, m: Machine) returns (n: nat, m': Machine)
    requires IsCompiled(sections, tasks, gEnd, mod) && Verifier.Certified(mod, shapes) && i < |tasks|
    requires |mod.code| < 0x1_0000_0000 && mod.inputSlots <= LIMIT && mod.outputSlots <= LIMIT
    requires VerifierSound.Loaded(im, mod) && im.platform == w.platform && VerifierSound.Sized(m, mod)
    requires w.env == TaskBlock(gEnd, BindAll(NothingBound(), sections).value.globals, tasks, i).env
    requires Holds(w, s, m) && m.stack == [] && |m.data.bytes| >= mod.dataSize
    requires i < |mod.entries| && m.pc == mod.entries[i].pc
    requires TameSeq(w, s, tasks[i].body)
    ensures mod.entries[i].name == tasks[i].name
    ensures n <= SeqSteps(tasks[i].body) + 1
    ensures Ends(w, im, m, ExecSeq(w, s, tasks[i].body), n, m')
  {
    hide BindAll, LowerSeq, CheckSeq, CodeAt, Scoped, TameSeq, SeqSteps, ExecSeq, Ends, Holds, LayTasks, CheckTasks, EntriesOf, EncodeAll,
         NeverOverflows, Verifier.Certified, VerifierSound.PlatformOk;
    VerifiedSmall(mod, shapes);
    HoldsBasics(w, s, m);
    TaskNeverOverflows(sections, tasks, gEnd, mod, shapes, i, im, m);
    TaskCodeAt(sections, tasks, gEnd, mod, i);
    var b := BindAll(NothingBound(), sections).value;
    var (cur, pc) := TaskStart(gEnd, b.globals, 0, 0, tasks, i);
    n, m' := TaskRuns(w, im, gEnd, b.globals, cur, s, m, tasks[i].body);
  }

  // ----- whatever memory holds -----

  /** Every task of an accepted module halts, from any machine at its entry: no matter what
      memory holds, how its stores fit, and which slots its names are bound to, it stops within
      a bound read off its body. */
  lemma TaskHalts(sections: seq<Section>, tasks: seq<Task>, gEnd: nat, mod: IrModule, shapes: seq<map<nat, Verifier.AStack>>,
                  i: nat, im: Image, m: Machine) returns (n: nat)
    requires IsCompiled(sections, tasks, gEnd, mod) && Verifier.Certified(mod, shapes) && i < |tasks|
    requires |mod.code| < 0x1_0000_0000 && im.code == mod.code
    requires m.Valid() && m.frames == [] && m.dataBase == 0 && i < |mod.entries| && m.pc == mod.entries[i].pc
    ensures n <= SeqSteps(tasks[i].body) + 1 && !Run(im, m, n).Running?
  {
    hide BindAll, LowerSeq, CheckSeq, CodeAt, Scoped, SeqSteps, LayTasks, CheckTasks, EntriesOf, EncodeAll, Verifier.Certified, Run, CutEnv, IsEnd;
    VerifiedSmall(mod, shapes);
    TaskCutAt(sections, tasks, gEnd, mod, i);
    var b := BindAll(NothingBound(), sections).value;
    var (cur, pc) := TaskStart(gEnd, b.globals, 0, 0, tasks, i);
    n := BodyHalts(im, gEnd, CutEnv(b.globals), cur, m, tasks[i].body);
  }

  // ----- conditions that can be checked before the run -----

  /** Running a well-typed task of an accepted module, from any memory that holds a state of
      typed values. */
  lemma CompiledTyped(sections: seq<Section>, tasks: seq<Task>, gEnd: nat, mod: IrModule, shapes: seq<map<nat, Verifier.AStack>>,
                      i: nat, w: World, im: Image, s: State, m: Machine) returns (n: nat, m': Machine)
    requires IsCompiled(sections, tasks, gEnd, mod) && Verifier.Certified(mod, shapes) && i < |tasks|
    requires |mod.code| < 0x1_0000_0000 && mod.inputSlots <= LIMIT && mod.outputSlots <= LIMIT
    requires VerifierSound.Loaded(im, mod) && im.platform == w.platform && VerifierSound.Sized(m, mod)
    requires w.env == TaskBlock(gEnd, BindAll(NothingBound(), sections).value.globals, tasks, i).env
    requires SoundSeq(w.env, tasks[i].body) && SlotsAgree(w.env)
    requires Holds(w, s, m) && AllTyped(w, s) && m.stack == [] && |m.data.bytes| >= mod.dataSize
    requires i < |mod.entries| && m.pc == mod.entries[i].pc
    ensures n <= SeqSteps(tasks[i].body) + 1
    ensures var f := ExecSeq(w, s, tasks[i].body); Ends(w, im, m, f, n, m') && FlowTyped(w, f)
  {
    hide BindAll, TaskBlock, SeqSteps, ExecSeq, Ends, Holds, TameSeq, SoundSeq, SlotsAgree, AllTyped, FlowTyped, IsCompiled, Verifier.Certified,
         VerifierSound.PlatformOk;
    SoundSeqTame(w, s, tasks[i].body);
    n, m' := CompiledTask(sections, tasks, gEnd, mod, shapes, i, w, im, s, m);
  }

  /** Images no wider than the types of the names they are read by. */
  ghost predicate ImagesTyped(env: Env, inputs: seq<Value>, outputs: seq<Value>)
  {
    && (forall x :: x in env && env[x].Input? && env[x].slot < |inputs| ==> Width(inputs[env[x].slot]) <= ByteWidth(env[x].ty))
    && (forall x :: InOutput(env, x) && env[x].slot < |outputs| ==> Width(outputs[env[x].slot]) <= ByteWidth(env[x].ty))
  }

  /** The first run of a well-typed task: over cleared memory it does what its body means on the
      state in which every variable reads FALSE. */
  lemma CompiledFresh(sections: seq<Section>, tasks: seq<Task>, gEnd: nat, mod: IrModule, shapes: seq<map<nat, Verifier.AStack>>,
                      i: nat, w: World, im: Image, m: Machine) returns (s: State, n: nat, m': Machine)
    requires IsCompiled(sections, tasks, gEnd, mod) && Verifier.Certified(mod, shapes) && i < |tasks|
    requires |mod.code| < 0x1_0000_0000 && mod.inputSlots <= LIMIT && mod.outputSlots <= LIMIT
    requires VerifierSound.Loaded(im, mod) && im.platform == w.platform && VerifierSound.Sized(m, mod)
    requires w.env == TaskBlock(gEnd, BindAll(NothingBound(), sections).value.globals, tasks, i).env
    requires SoundSeq(w.env, tasks[i].body) && SlotsAgree(w.env) && ImagesTyped(w.env, w.inputs, m.outputs)
    requires m.Valid() && m.stack == [] && m.frames == [] && m.dataBase == 0 && m.inputs == w.inputs && m.quality == w.quality
    requires m.data == ZeroSegment(mod.dataSize) && m.retain == ZeroSegment(mod.retainSize)
    requires i < |mod.entries| && m.pc == mod.entries[i].pc
    ensures s.outputs == m.outputs && s.written == m.written && s.dirty == m.retainDirty
    ensures forall x :: InData(w.env, x) || InRetain(w.env, x) ==> x in s.vars && s.vars[x] == Bool(false)
    ensures n <= SeqSteps(tasks[i].body) + 1
    ensures var f := ExecSeq(w, s, tasks[i].body); Ends(w, im, m, f, n, m') && FlowTyped(w, f)
  {
    hide BindAll, TaskBlock, SeqSteps, ExecSeq, Ends, Holds, SoundSeq, SlotsAgree, FlowTyped, IsCompiled, Verifier.Certified, LayoutOk,
         VerifierSound.PlatformOk, ZeroSegment;
    VerifiedSmall(mod, shapes);
    TaskLayout(sections, tasks, gEnd, mod, i);
    FreshHolds(w, m, mod.dataSize, mod.retainSize);
    s := State(VarsOf(w.env, m), m.outputs, m.written, m.retainDirty);
    n, m' := CompiledTyped(sections, tasks, gEnd, mod, shapes, i, w, im, s, m);
  }
}
