/** The code generator as it runs: one pass over the statements, appending bytes,
    handing out labels, and patching jumps at the end
    (crates/plc-compiler/src/bind.rs, Codegen). */
module Generator {
  import opened Bytes
  import opened Ir
  import opened Vm
  import opened St
  import opened Lower
  import opened Sizes
  import opened Check
  import opened Unfold
  import opened Scope
  import opened Assembly

  /** The end of the data that the globals occupy. */
  ghost predicate IsEnd(globals: Env, gEnd: nat)
  {
    && (forall x :: x in globals && globals[x].Data? ==> globals[x].offset + ByteWidth(globals[x].ty) <= gEnd)
    && (gEnd == 0 || exists x :: x in globals && globals[x].Data? && globals[x].offset + ByteWidth(globals[x].ty) == gEnd)
  }

  class Codegen {
    var globals: Env
    var locals: Env
    var code: seq<byte>
    var entries: seq<EntryPoint>
    var labels: map<nat, nat>
    var fixups: seq<(nat, nat)>
    var labelId: nat
    var extraData: nat
    var dataCursor: nat
    ghost var listing: seq<Sym>

    ghost predicate Valid()
      reads this
    {
      && code == Assemble(listing) && fixups == FixupsOf(listing)
      && (forall l :: l in labels ==> l < labelId)
      && extraData == dataCursor
      && (forall x :: x in locals ==> x !in globals)
    }

    ghost function Snap(): Asm
      reads this
    {
      Asm(listing, labels, labelId, |code|)
    }

    /** Names in scope; locals are consulted first. */
    function InScope(): Env
      reads `globals, `locals
    {
      globals + locals
    }

    constructor (globals: Env)
      ensures Valid() && Snap() == Asm([], map[], 0, 0)
      ensures this.globals == globals && locals == map[] && dataCursor == 0 && entries == []
    {
      this.globals, locals := globals, map[];
      code, entries, labels, fixups, labelId := [], [], map[], [], 0;
      extraData, dataCursor := 0, 0;
      listing := [];
    }

    method FreshLabel() returns (l: nat)
      requires Valid()
      modifies `labelId
      ensures Valid() && l == old(labelId) && l !in labels && Snap() == TakeLabel(old(Snap()))
    {
      l := labelId;
      labelId := labelId + 1;
    }

    method PlaceLabel(l: nat)
      requires Valid() && l < labelId
      modifies `labels
      ensures Valid() && Snap() == SetLabel(old(Snap()), l)
    {
      labels := labels[l := |code|];
    }

    method Emit(i: Instr)
      requires Valid()
      modifies `code, `listing
      ensures Valid() && Snap() == AddSym(old(Snap()), Plain(i))
    {
      code := code + Encode(i);
      listing := listing + [Plain(i)];
      assert listing[..|listing| - 1] == old(listing);
    }

    method EmitSimple(op: Opcode, payload: nat)
      requires Valid()
      modifies `code, `listing
      ensures Valid() && Snap() == AddSym(old(Snap()), Plain(Simple(op, payload)))
    {
      Emit(Simple(op, payload));
    }

    method EmitJmp(op: Opcode, l: nat)
      requires Valid()
      modifies `code, `listing, `fixups
      ensures Valid() && Snap() == AddSym(old(Snap()), Jump(op, l))
    {
      var off := |code|;
      code := code + Encode(Simple(op, 0));
      fixups := fixups + [(off, l)];
      listing := listing + [Jump(op, l)];
      assert listing[..|listing| - 1] == old(listing);
    }

    /** The largest end of a global data variable, 0 when there is none. */
    method GlobalsEnd(ghost gEnd: nat) returns (base: nat)
      requires IsEnd(globals, gEnd)
      ensures base == gEnd
    {
      base := 0;
      var names := globals.Keys;
      while names != {}
        invariant names <= globals.Keys
        invariant forall x :: x in globals.Keys - names && globals[x].Data? ==> globals[x].offset + ByteWidth(globals[x].ty) <= base
        invariant base == 0 || exists x :: x in globals && globals[x].Data? && globals[x].offset + ByteWidth(globals[x].ty) == base
        decreases |names|
      {
        var x :| x in names;
        if globals[x].Data? && globals[x].offset + ByteWidth(globals[x].ty) > base {
          base := globals[x].offset + ByteWidth(globals[x].ty);
        }
        names := names - {x};
      }
    }

    /** A scratch slot above all globals and all earlier slots. */
    method AllocTemp(ghost gEnd: nat, ty: IrType) returns (off: nat)
      requires Valid() && IsEnd(globals, gEnd)
      modifies `dataCursor, `extraData
      ensures Valid() && (off, dataCursor) == Lower.AllocTemp(gEnd, old(dataCursor), ty)
      ensures off % Align(ty) == 0 && off >= old(dataCursor) && off >= gEnd && dataCursor == off + ByteWidth(ty)
    {
      hide Assemble, FixupsOf, IsEnd;
      AlignCursor(Align(ty));
      var base := GlobalsEnd(gEnd);
      dataCursor := Max(Max(base, extraData), dataCursor);
      AlignCursor(Align(ty));
      off := dataCursor;
      dataCursor := dataCursor + ByteWidth(ty);
      extraData := dataCursor;
    }

    method AlignCursor(a: nat)
      requires a > 0
      modifies `dataCursor
      ensures dataCursor == AlignUp(old(dataCursor), a)
    {
      var mis := dataCursor % a;
      if mis != 0 { dataCursor := dataCursor + (a - mis); }
    }

    method EmitLiteral(l: Literal)
      requires Valid()
      modifies `code, `listing
      ensures Valid() && Snap() == AddSym(old(Snap()), Plain(PushLiteral(l)))
    {
      match l {
        case BoolLit(b) => EmitSimple(PushIBool, if b then 1 else 0);
        case IntLit(n) => Emit(WithImm32(PushIDint, 0, n % 0x1_0000_0000));
        case RealLit(bits) => Emit(WithImm32(PushIReal, 0, bits));
        case TimeLit(ms) => Emit(WithImm32(PushTime, 0, ms % 0x1_0000_0000));
      }
    }

    method Lookup(x: string) returns (r: Option<Storage>)
      requires Valid()
      ensures r == if x in InScope() then Some(InScope()[x]) else None
    {
      if x in locals { return Some(locals[x]); }
      if x in globals { return Some(globals[x]); }
      return None;
    }

    method EmitLoad(x: string) returns (r: Checked<IrType>)
      requires Valid()
      modifies `code, `listing
      ensures Valid() && r == NameType(InScope(), x)
      ensures Snap() == if r.Accept? then AddSym(old(Snap()), Plain(LoadName(InScope(), x))) else old(Snap())
    {
      hide Valid, InScope, PushLiteral;
      var st := Lookup(x);
      if st.None? { return Reject(EUndefined); }
      match st.value {
        case Input(slot, ty) => EmitSimple(LdI, slot); return Accept(ty);
        case Output(slot, ty) => EmitSimple(LdQ, slot); return Accept(ty);
        case Data(offset, ty) => EmitSimple(LdData, offset); return Accept(ty);
        case Retain(offset, ty) => EmitSimple(LdRetain, offset); return Accept(ty);
        case Const(l) => EmitLiteral(l); return Accept(LiteralType(l));
      }
    }

    method EmitStore(lhs: Expr) returns (r: Checked<()>)
      requires Valid()
      modifies `code, `listing
      ensures Valid()
      ensures r == (var c := CheckTarget(InScope(), lhs); if c.Accept? then Accept(()) else Reject(c.code))
      ensures r.Accept? ==> Snap() == AddSym(old(Snap()), Plain(StoreName(InScope(), lhs)))
    {
      if !lhs.Name? { return Reject(EType); }
      var st := Lookup(lhs.name);
      if st.None? { return Reject(EUndefined); }
      var op, payload := StQ, 0;
      match st.value {
        case Output(slot, _) => payload := slot;
        case Data(offset, _) => op, payload := StData, offset;
        case Retain(offset, _) => op, payload := StRetain, offset;
        case _ => return Reject(EType);
      }
      EmitSimple(op, payload);
      return Accept(());
    }

    /** What expression code must have become. */
    ghost predicate BecameCode(a: Asm, c: Code)
      reads this
    {
      Emits(a, Snap(), map[], c.ins) && dataCursor == c.cur
    }

    /** Emits an expression: the verdict of the type checker, and on acceptance code that
        stands for its reference code. */
    method EmitExpr(ghost gEnd: nat, e: Expr) returns (r: Checked<IrType>)
      requires Valid() && IsEnd(globals, gEnd)
      modifies `code, `listing, `fixups, `labelId, `labels, `dataCursor, `extraData
      ensures Valid() && r == TypeExpr(InScope(), e)
      ensures r.Accept? ==> BecameCode(old(Snap()), LowerExpr(gEnd, InScope(), old(dataCursor), old(|code|), e))
      decreases e, 2
    {
      hide Valid, InScope, IsEnd, Emits, PushLiteral;
      ghost var a0 := Snap();
      match e {
        case Literal(l) =>
          EmitLiteral(l);
          EmitsOne(a0, Plain(PushLiteral(l)), map[], PushLiteral(l));
          return Accept(LiteralType(l));
        case Name(x) =>
          r := EmitLoad(x);
          EmitsOne(a0, Plain(LoadName(InScope(), x)), map[], LoadName(InScope(), x));
        case QGood(of) =>
          if !of.Name? { return Reject(EType); }
          var st := Lookup(of.name);
          if st.None? { return Reject(EUndefined); }
          if !st.value.Input? { return Reject(EType); }
          EmitSimple(LdIq, st.value.slot);
          EmitsOne(a0, Plain(LoadQuality(InScope(), of)), map[], LoadQuality(InScope(), of));
          return Accept(TBool);
        case Unary(op, arg) =>
          r := EmitExpr(gEnd, arg);
          if r.Reject? { return; }
          ghost var a1 := Snap();
          var i := Simple(if op.Invert? then Not else Neg, 0);
          EmitSimple(i.op, 0);
          EmitsAdd(a0, a1, Plain(i), map[], LowerExpr(gEnd, InScope(), old(dataCursor), old(|code|), arg).ins, i);
          if op.Invert? { r := Accept(TBool); }
        case Binary(op, left, right) =>
          if op.AndAlso? || op.OrElse? {
            r := EmitShort(gEnd, e);
          } else {
            r := EmitPlain(gEnd, e);
          }
      }
    }

    method EmitPlain(ghost gEnd: nat, e: Expr) returns (r: Checked<IrType>)
      requires Valid() && IsEnd(globals, gEnd)
      requires e.Binary? && !e.bop.AndAlso? && !e.bop.OrElse?
      modifies `code, `listing, `fixups, `labelId, `labels, `dataCursor, `extraData
      ensures Valid() && r == TypeExpr(InScope(), e)
      ensures r.Accept? ==> BecameCode(old(Snap()), LowerExpr(gEnd, InScope(), old(dataCursor), old(|code|), e))
      decreases e, 0
    {
      hide Emits, LowerExpr, TypeExpr, Valid, InScope, IsEnd;
      TypedPlain(InScope(), e);
      LoweredPlain(gEnd, InScope(), dataCursor, |code|, e);
      ghost var a0 := Snap();
      var lt := EmitExpr(gEnd, e.left);
      if lt.Reject? { return lt; }
      ghost var a1 := Snap();
      ghost var a := LowerExpr(gEnd, InScope(), old(dataCursor), old(|code|), e.left);
      var rt := EmitExpr(gEnd, e.right);
      if rt.Reject? { return rt; }
      ghost var a2 := Snap();
      ghost var b := LowerExpr(gEnd, InScope(), a.cur, a1.size, e.right);
      EmitsSize(a0, a1, map[], a.ins);
      EmitsThen(a0, a1, a2, map[], a.ins, b.ins);
      if e.bop.Modulo? { return Reject(EExcluded); }
      if !e.bop.ExclOr? && lt.value != rt.value { return Reject(EType); }
      var i := Simple(OpcodeOf(e.bop), 0);
      EmitSimple(i.op, 0);
      EmitsAdd(a0, a2, Plain(i), map[], a.ins + b.ins, i);
      return if IsComparison(e.bop) then Accept(TBool) else lt;
    }

    method EmitShort(ghost gEnd: nat, e: Expr) returns (r: Checked<IrType>)
      requires Valid() && IsEnd(globals, gEnd)
      requires e.Binary? && (e.bop.AndAlso? || e.bop.OrElse?)
      modifies `code, `listing, `fixups, `labelId, `labels, `dataCursor, `extraData
      ensures Valid() && r == TypeExpr(InScope(), e)
      ensures r.Accept? ==> BecameCode(old(Snap()), LowerExpr(gEnd, InScope(), old(dataCursor), old(|code|), e))
      decreases e, 1
    {
      hide Emits, LowerExpr, TypeExpr, Valid, InScope, IsEnd, Lower.AllocTemp;
      TypedShort(InScope(), e);
      ghost var a0 := Snap();
      var end := FreshLabel();
      EmitsNothing(a0, map[]);
      EmitsFresh(a0, a0, map[], []);
      ghost var a1 := Snap();
      var lt := EmitExpr(gEnd, e.left);
      if lt.Reject? { return lt; }
      if lt.value != TBool { return Reject(EType); }
      ghost var a := LowerExpr(gEnd, InScope(), old(dataCursor), old(|code|), e.left);
      ghost var a2 := Snap();
      EmitsSize(a1, a2, map[], a.ins);
      EmitsThen(a0, a1, a2, map[], [], a.ins);
      LabelsStayNew(a1, a2, end);
      var skip := FreshLabel();
      EmitsFresh(a0, a2, map[], [] + a.ins);
      var tmp := AllocTemp(gEnd, TBool);
      r := EmitShortTail(gEnd, e, a0, [] + a.ins, end, skip, tmp);
      if r.Accept? {
        LoweredShort(gEnd, InScope(), old(dataCursor), old(|code|), e);
        assert [] + a.ins == a.ins;
      }
    }

    /** Saves the left operand, loads it back and tests it. */
    method EmitDup(op: BinaryOp, tmp: nat, skip: nat, ghost skipPc: nat, ghost a0: Asm, ghost pend: map<nat, nat>, ghost ins: seq<Instr>)
      requires Valid() && Emits(a0, Snap(), pend, ins) && skip in pend && pend[skip] == skipPc
      modifies `code, `listing, `fixups
      ensures Valid() && |code| == old(|code|) + 12 && Emits(a0, Snap(), pend, ins + ShortCircuit(op, tmp, skipPc))
    {
      hide Valid, Emits;
      ghost var b := Snap();
      EmitSimple(StData, tmp);
      EmitSimple(LdData, tmp);
      EmitJmp(if op.OrElse? then JmpIf else JmpIfNot, skip);
      ghost var head := DupEmitted(a0, b, pend, ins, op, tmp, skip, skipPc);
    }

    /** From the test of the left operand to the end of a short-circuit expression. */
    method EmitShortTail(ghost gEnd: nat, e: Expr, ghost a0: Asm, ghost ins: seq<Instr>, end: nat, skip: nat, tmp: nat)
      returns (r: Checked<IrType>)
      requires Valid() && IsEnd(globals, gEnd)
      requires e.Binary? && (e.bop.AndAlso? || e.bop.OrElse?)
      requires Emits(a0, Snap(), map[], ins)
      requires a0.labelId <= end < skip < labelId && end !in labels && skip !in labels
      modifies `code, `listing, `fixups, `labelId, `labels, `dataCursor, `extraData
      ensures Valid() && r == (var rt := TypeExpr(InScope(), e.right); if rt.Reject? then rt else Accept(TBool))
      ensures r.Accept? ==>
                var rightPc := old(|code|) + 12;
                var b := LowerExpr(gEnd, InScope(), old(dataCursor), rightPc, e.right);
                var skipPc := rightPc + CodeSize(b.ins) + 4;
                BecameCode(a0, Code(ins + ShortCircuit(e.bop, tmp, skipPc) + b.ins
                                    + [Simple(Jmp, skipPc + 4), Simple(PushIBool, if e.bop.OrElse? then 1 else 0)], b.cur))
      decreases e, 0
    {
      hide Emits, LowerExpr, TypeExpr, StandsFor, ShortCircuit, Valid, InScope, IsEnd;
      var orElse := e.bop.OrElse?;
      ghost var rightPc := |code| + 12;
      ghost var b := LowerExpr(gEnd, InScope(), dataCursor, rightPc, e.right);
      ghost var skipPc := rightPc + CodeSize(b.ins) + 4;
      ghost var pend := map[end := skipPc + 4, skip := skipPc];
      EmitsWeaken(a0, Snap(), map[], pend, ins);
      EmitDup(e.bop, tmp, skip, skipPc, a0, pend, ins);
      ghost var head := ins + ShortCircuit(e.bop, tmp, skipPc);
      ghost var a4 := Snap();
      var rt := EmitExpr(gEnd, e.right);
      if rt.Reject? { return rt; }
      ghost var a5 := Snap();
      EmitsSize(a4, a5, map[], b.ins);
      EmitJmp(Jmp, end);
      PlaceLabel(skip);
      EmitSimple(PushIBool, if orElse then 1 else 0);
      PlaceLabel(end);
      TailEmitted(a0, a4, a5, end, skip, skipPc, head, b.ins, Simple(PushIBool, if orElse then 1 else 0));
      assert head + b.ins + [Simple(Jmp, skipPc + 4)] + [Simple(PushIBool, if orElse then 1 else 0)]
          == ins + ShortCircuit(e.bop, tmp, skipPc) + b.ins
             + [Simple(Jmp, skipPc + 4), Simple(PushIBool, if orElse then 1 else 0)];
      return Accept(TBool);
    }

    // ----- statements -----

    /** What statement code must have become; `pend` tells where labels of the enclosing
        statement will be placed. */
    ghost predicate Became(a: Asm, pend: map<nat, nat>, b: Block)
      reads this
    {
      Emits(a, Snap(), pend, b.ins) && dataCursor == b.cur && InScope() == b.env
    }

    /** Emits a statement: the verdict of the reference checker, and on acceptance code
        that stands for the reference code, cursor and scope included. */
    method EmitStmt(ghost gEnd: nat, s: Stmt) returns (r: Checked<()>)
      requires Valid() && IsEnd(globals, gEnd)
      modifies this
      ensures Valid() && globals == old(globals) && entries == old(entries)
      ensures r == CheckStmt(gEnd, old(InScope()), old(dataCursor), old(|code|), s)
      ensures r.Accept? ==>
                Became(old(Snap()), map[], LowerStmt(gEnd, old(InScope()), old(dataCursor), old(|code|), s))
      decreases s, 2
    {
      hide Valid, InScope, IsEnd, Emits, LowerExpr, TypeExpr;
      ghost var a0 := Snap();
      ghost var env0 := InScope();
      match s {
        case Empty =>
          EmitsNothing(a0, map[]);
          return Accept(());
        case Return =>
          EmitSimple(Ret, 0);
          EmitsOne(a0, Plain(Simple(Ret, 0)), map[], Simple(Ret, 0));
          return Accept(());
        case Assign(lhs, rhs) =>
          var t := EmitExpr(gEnd, rhs);
          if t.Reject? { return Reject(t.code); }
          ghost var a1 := Snap();
          r := EmitStore(lhs);
          if r.Accept? {
            EmitsAdd(a0, a1, Plain(StoreName(env0, lhs)), map[],
                     LowerExpr(gEnd, env0, old(dataCursor), a0.size, rhs).ins, StoreName(env0, lhs));
          }
        case If(branches, els) => r := EmitIf(gEnd, branches, els);
        case Case(_, _, _) => r := EmitCase(gEnd, s);
        case While(_, _, _) => r := EmitWhile(gEnd, s);
        case For(_, _, _, _, _, _) => r := EmitFor(gEnd, s);
      }
    }

    ghost predicate SeqSoFar(gEnd: nat, a: Asm, env: Env, cur: nat, ss: seq<Stmt>, rest: seq<Stmt>, ins: seq<Instr>)
      reads this
    {
      && Emits(a, Snap(), map[], ins)
      && CheckSeq(gEnd, env, cur, a.size, ss) == CheckSeq(gEnd, InScope(), dataCursor, |code|, rest)
      && var b := LowerSeq(gEnd, InScope(), dataCursor, |code|, rest);
      && LowerSeq(gEnd, env, cur, a.size, ss) == Block(ins + b.ins, b.cur, b.env)
    }

    method EmitSeq(ghost gEnd: nat, ss: seq<Stmt>) returns (r: Checked<()>)
      requires Valid() && IsEnd(globals, gEnd)
      modifies this
      ensures Valid() && globals == old(globals) && entries == old(entries)
      ensures r == CheckSeq(gEnd, old(InScope()), old(dataCursor), old(|code|), ss)
      ensures r.Accept? ==>
                Became(old(Snap()), map[], LowerSeq(gEnd, old(InScope()), old(dataCursor), old(|code|), ss))
      decreases ss, 1
    {
      hide Valid, InScope, IsEnd, Emits, LowerStmt, CheckStmt, LowerSeq, CheckSeq;
      ghost var a0, env0, cur0 := Snap(), InScope(), dataCursor;
      ghost var ins: seq<Instr> := [];
      EmitsNothing(a0, map[]);
      NoneEmitted(LowerSeq(gEnd, env0, cur0, a0.size, ss));
      assert ss[0..] == ss;
      for i := 0 to |ss|
        invariant Valid() && globals == old(globals) && entries == old(entries)
        invariant SeqSoFar(gEnd, a0, env0, cur0, ss, ss[i..], ins)
      {
        ghost var a1 := Snap();
        SeqUnfolds(gEnd, InScope(), dataCursor, a1.size, ss[i..]);
        assert ss[i..][0] == ss[i] && ss[i..][1..] == ss[i + 1..];
        ghost var piece := LowerStmt(gEnd, InScope(), dataCursor, a1.size, ss[i]);
        var c := EmitStmt(gEnd, ss[i]);
        if c.Reject? { return c; }
        EmitsSize(a1, Snap(), map[], piece.ins);
        EmitsThen(a0, a1, Snap(), map[], ins, piece.ins);
        ghost var b := LowerSeq(gEnd, InScope(), dataCursor, |code|, ss[i + 1..]);
        assert ins + (piece.ins + b.ins) == (ins + piece.ins) + b.ins;
        ins := ins + piece.ins;
      }
      SeqEnds(gEnd, InScope(), dataCursor, |code|, ss[|ss|..]);
      assert ins + [] == ins;
      return Accept(());
    }

    // ----- IF -----

    /** One branch of an IF. */
    method EmitBranch(ghost gEnd: nat, br: Branch, leave: bool, end: nat, ghost endPc: nat) returns (r: Checked<()>)
      requires Valid() && IsEnd(globals, gEnd) && end < labelId && end !in labels
      modifies this
      ensures Valid() && globals == old(globals) && entries == old(entries)
      ensures r == CheckBranch(gEnd, old(InScope()), old(dataCursor), old(|code|), br)
      ensures r.Accept? ==>
                && end < labelId && end !in labels
                && Became(old(Snap()), map[end := endPc],
                          LowerBranch(gEnd, old(InScope()), old(dataCursor), old(|code|), br, leave, endPc))
      decreases br, 0
    {
      hide Valid, InScope, IsEnd, Emits, LowerExpr, TypeExpr, LowerSeq, CheckSeq, Leave;
      ghost var a0, env0, cur0 := Snap(), InScope(), dataCursor;
      var next := FreshLabel();
      var t := EmitExpr(gEnd, br.cond);
      if t.Reject? { return Reject(t.code); }
      if t.value != TBool { return Reject(EType); }
      ghost var a2 := Snap();
      ghost var c := LowerExpr(gEnd, env0, cur0, a0.size, br.cond);
      EmitsSize(TakeLabel(a0), a2, map[], c.ins);
      EmitJmp(JmpIfNot, next);
      ghost var b := LowerSeq(gEnd, env0, c.cur, a2.size + 4, br.body);
      r := EmitSeq(gEnd, br.body);
      if r.Reject? { return; }
      ghost var a4 := Snap();
      BranchEmitted(a0, a2, a4, end, endPc, c.ins, b.ins, leave);
      if leave { EmitJmp(Jmp, end); }
      PlaceLabel(next);
    }

    ghost predicate BranchesSoFar(gEnd: nat, a: Asm, env: Env, cur: nat, bs: seq<Branch>, rest: seq<Branch>, more: bool,
                                  end: nat, endPc: nat, ins: seq<Instr>)
      reads this
    {
      && Emits(a, Snap(), map[end := endPc], ins)
      && CheckBranches(gEnd, env, cur, a.size, bs, more) == CheckBranches(gEnd, InScope(), dataCursor, |code|, rest, more)
      && var b := LowerBranches(gEnd, InScope(), dataCursor, |code|, rest, more, endPc);
      && LowerBranches(gEnd, env, cur, a.size, bs, more, endPc) == Block(ins + b.ins, b.cur, b.env)
    }

    method EmitBranches(ghost gEnd: nat, bs: seq<Branch>, more: bool, end: nat, ghost endPc: nat) returns (r: Checked<()>)
      requires Valid() && IsEnd(globals, gEnd) && end < labelId && end !in labels
      modifies this
      ensures Valid() && globals == old(globals) && entries == old(entries)
      ensures r == CheckBranches(gEnd, old(InScope()), old(dataCursor), old(|code|), bs, more)
      ensures r.Accept? ==>
                && end < labelId && end !in labels
                && Became(old(Snap()), map[end := endPc],
                          LowerBranches(gEnd, old(InScope()), old(dataCursor), old(|code|), bs, more, endPc))
      decreases bs, 1
    {
      hide Valid, InScope, IsEnd, Emits, LowerBranches, CheckBranches, LowerBranch, CheckBranch;
      ghost var a0, env0, cur0 := Snap(), InScope(), dataCursor;
      ghost var ins: seq<Instr> := [];
      ghost var pend := map[end := endPc];
      EmitsNothing(a0, pend);
      NoneEmitted(LowerBranches(gEnd, env0, cur0, a0.size, bs, more, endPc));
      assert bs[0..] == bs;
      for i := 0 to |bs|
        invariant Valid() && globals == old(globals) && entries == old(entries) && end < labelId && end !in labels
        invariant BranchesSoFar(gEnd, a0, env0, cur0, bs, bs[i..], more, end, endPc, ins)
      {
        ghost var a1 := Snap();
        ghost var leave := i + 1 < |bs| || more;
        BranchesUnfold(gEnd, InScope(), dataCursor, a1.size, bs[i..], more, endPc);
        assert bs[i..][0] == bs[i] && bs[i..][1..] == bs[i + 1..];
        ghost var piece := LowerBranch(gEnd, InScope(), dataCursor, a1.size, bs[i], leave, endPc);
        var c := EmitBranch(gEnd, bs[i], i + 1 < |bs| || more, end, endPc);
        if c.Reject? { return c; }
        EmitsSize(a1, Snap(), pend, piece.ins);
        EmitsThen(a0, a1, Snap(), pend, ins, piece.ins);
        ghost var b := LowerBranches(gEnd, InScope(), dataCursor, |code|, bs[i + 1..], more, endPc);
        assert ins + (piece.ins + b.ins) == (ins + piece.ins) + b.ins;
        ins := ins + piece.ins;
      }
      BranchesEnd(gEnd, InScope(), dataCursor, |code|, bs[|bs|..], more, endPc);
      assert ins + [] == ins;
      return Accept(());
    }

    /** The ELSE part and the label behind it. */
    method EmitElse(ghost gEnd: nat, els: Else, end: nat, ghost endPc: nat, ghost a0: Asm, ghost ins: seq<Instr>) returns (r: Checked<()>)
      requires Valid() && IsEnd(globals, gEnd) && a0.labelId <= end < labelId && end !in labels
      requires Emits(a0, Snap(), map[end := endPc], ins)
      requires endPc == |code| + CodeSize(LowerElse(gEnd, InScope(), dataCursor, |code|, els).ins)
      modifies this
      ensures Valid() && globals == old(globals) && entries == old(entries)
      ensures r == CheckElse(gEnd, old(InScope()), old(dataCursor), old(|code|), els)
      ensures r.Accept? ==>
                var b := LowerElse(gEnd, old(InScope()), old(dataCursor), old(|code|), els);
                Became(a0, map[], Block(ins + b.ins, b.cur, b.env))
      decreases els, 1
    {
      hide Valid, InScope, IsEnd, Emits, LowerSeq, CheckSeq;
      ghost var a1 := Snap();
      ghost var b := LowerElse(gEnd, InScope(), dataCursor, |code|, els);
      EmitsNothing(a1, map[]);
      r := Accept(());
      if els.Else? {
        r := EmitSeq(gEnd, els.body);
        if r.Reject? { return; }
      }
      EmitsSize(a1, Snap(), map[], b.ins);
      EmitsSub(a0, a1, Snap(), map[end := endPc], ins, b.ins);
      EmitsPlace(a0, Snap(), end, map[end := endPc], map[], ins + b.ins);
      PlaceLabel(end);
    }

    method EmitIf(ghost gEnd: nat, branches: seq<Branch>, els: Else) returns (r: Checked<()>)
      requires Valid() && IsEnd(globals, gEnd)
      modifies this
      ensures Valid() && globals == old(globals) && entries == old(entries)
      ensures r == CheckStmt(gEnd, old(InScope()), old(dataCursor), old(|code|), If(branches, els))
      ensures r.Accept? ==>
                Became(old(Snap()), map[], LowerStmt(gEnd, old(InScope()), old(dataCursor), old(|code|), If(branches, els)))
      decreases If(branches, els), 1
    {
      hide Valid, InScope, IsEnd, Emits, LowerBranches, CheckBranches, LowerElse, CheckElse, LowerStmt, CheckStmt, CodeSize;
      ghost var a0, env0, cur0 := Snap(), InScope(), dataCursor;
      IfUnfolds(gEnd, env0, cur0, a0.size, If(branches, els));
      ghost var bs := LowerBranches(gEnd, env0, cur0, a0.size, branches, els.Else?, 0);
      ghost var elsePc := a0.size + CodeSize(bs.ins);
      ghost var eb := LowerElse(gEnd, bs.env, bs.cur, elsePc, els);
      ghost var endPc := elsePc + CodeSize(eb.ins);
      BranchesSameShape(gEnd, env0, cur0, a0.size, branches, els.Else?, 0, endPc);
      ghost var final := LowerBranches(gEnd, env0, cur0, a0.size, branches, els.Else?, endPc);
      var end := FreshLabel();
      ghost var a1 := Snap();
      r := EmitBranches(gEnd, branches, els.Else?, end, endPc);
      if r.Reject? { return; }
      EmitsSize(a1, Snap(), map[end := endPc], final.ins);
      FreshBefore(a0, Snap(), map[end := endPc], final.ins);
      r := EmitElse(gEnd, els, end, endPc, a0, final.ins);
    }

    // ----- CASE -----

    /** The comparisons of one arm. */
    method EmitTests(tmp: nat, values: seq<int>, body: nat, next: nat, ghost a0: Asm, ghost pend: map<nat, nat>, ghost ins: seq<Instr>)
      requires Valid() && Emits(a0, Snap(), pend, ins) && body in pend && next in pend
      modifies `code, `listing, `fixups
      ensures Valid() && Emits(a0, Snap(), pend, ins + LabelTests(tmp, values, pend[body], pend[next]))
    {
      hide Valid, Emits, LabelTests;
      ghost var tests: seq<Instr> := [];
      assert ins + tests == ins && values[0..] == values;
      assert tests + LabelTests(tmp, values[0..], pend[body], pend[next]) == LabelTests(tmp, values, pend[body], pend[next]);
      for i := 0 to |values|
        invariant Valid() && labels == old(labels) && labelId == old(labelId)
        invariant Emits(a0, Snap(), pend, ins + tests)
        invariant tests + LabelTests(tmp, values[i..], pend[body], pend[next]) == LabelTests(tmp, values, pend[body], pend[next])
      {
        ghost var b := Snap();
        var imm := values[i] % 0x1_0000_0000;
        EmitSimple(LdData, tmp);
        Emit(WithImm32(PushIDint, 0, imm));
        EmitSimple(Eq, 0);
        var last := i + 1 == |values|;
        if last { EmitJmp(JmpIfNot, next); } else { EmitJmp(JmpIf, body); }
        TestEmitted(a0, b, pend, ins + tests, tmp, imm, if last then JmpIfNot else JmpIf, if last then next else body);
        TestsUnfold(tmp, values[i..], pend[body], pend[next]);
        assert values[i..][0] == values[i] && values[i..][1..] == values[i + 1..];
        ghost var one := [Simple(LdData, tmp), WithImm32(PushIDint, 0, imm), Simple(Eq, 0),
                          if last then Simple(JmpIfNot, pend[next]) else Simple(JmpIf, pend[body])];
        assert (tests + one) + LabelTests(tmp, values[i + 1..], pend[body], pend[next])
            == tests + (one + LabelTests(tmp, values[i + 1..], pend[body], pend[next]));
        assert ins + tests + one == ins + (tests + one);
        tests := tests + one;
      }
      TestsEnd(tmp, values[|values|..], pend[body], pend[next]);
      assert tests + [] == tests;
    }

    /** The labels of an arm and its comparisons, up to the start of its body. */
    method EmitArmHead(tmp: nat, values: seq<int>, end: nat, ghost endPc: nat, ghost nextPc: nat) returns (next: nat)
      requires Valid() && end < labelId && end !in labels
      modifies `code, `listing, `fixups, `labelId, `labels
      ensures Valid() && old(labelId) <= next < labelId && end !in labels && next !in labels
      ensures |code| == old(|code|) + 20 * |values|
      ensures Emits(old(Snap()), Snap(), map[end := endPc, next := nextPc], LabelTests(tmp, values, |code|, nextPc))
    {
      hide Valid, Emits, LabelTests;
      ghost var a0 := Snap();
      ghost var bodyPc := a0.size + 20 * |values|;
      var body := FreshLabel();
      next := FreshLabel();
      ghost var pend := map[end := endPc, body := bodyPc, next := nextPc];
      TwoTaken(a0, pend);
      EmitTests(tmp, values, body, next, a0, pend, []);
      ghost var tests := LabelTests(tmp, values, bodyPc, nextPc);
      assert [] + tests == tests;
      EmitsSize(a0, Snap(), pend, tests);
      TestsSize(tmp, values, bodyPc, nextPc);
      EmitsPlace(a0, Snap(), body, pend, map[end := endPc, next := nextPc], tests);
      PlaceLabel(body);
    }

    /** One arm of a CASE. */
    method EmitArm(ghost gEnd: nat, tmp: nat, arm: Arm, end: nat, ghost endPc: nat) returns (r: Checked<()>)
      requires Valid() && IsEnd(globals, gEnd) && end < labelId && end !in labels
      modifies this
      ensures Valid() && globals == old(globals) && entries == old(entries)
      ensures r == CheckSeq(gEnd, old(InScope()), old(dataCursor), old(|code|) + 20 * |arm.labels|, arm.body)
      ensures r.Accept? ==>
                && end < labelId && end !in labels
                && Became(old(Snap()), map[end := endPc],
                          LowerArm(gEnd, old(InScope()), old(dataCursor), old(|code|), tmp, arm, endPc))
      decreases arm, 0
    {
      hide Valid, InScope, IsEnd, Emits, LowerSeq, CheckSeq, LabelTests, CodeSize;
      ghost var a0, env0, cur0 := Snap(), InScope(), dataCursor;
      ghost var bodyPc := a0.size + 20 * |arm.labels|;
      ghost var b := LowerSeq(gEnd, env0, cur0, bodyPc, arm.body);
      ghost var nextPc := bodyPc + CodeSize(b.ins) + 4;
      var next := EmitArmHead(tmp, arm.labels, end, endPc, nextPc);
      ghost var tests := LabelTests(tmp, arm.labels, bodyPc, nextPc);
      ghost var a2 := Snap();
      r := EmitSeq(gEnd, arm.body);
      if r.Reject? { return; }
      ghost var a3 := Snap();
      EmitsSize(a2, a3, map[], b.ins);
      EmitJmp(Jmp, end);
      PlaceLabel(next);
      ArmEmitted(a0, a2, a3, end, endPc, next, nextPc, tests, b.ins);
    }

    ghost predicate ArmsSoFar(gEnd: nat, a: Asm, env: Env, cur: nat, tmp: nat, arms: seq<Arm>, rest: seq<Arm>,
                              end: nat, endPc: nat, ins: seq<Instr>)
      reads this
    {
      && Emits(a, Snap(), map[end := endPc], ins)
      && CheckArms(gEnd, env, cur, a.size, tmp, arms) == CheckArms(gEnd, InScope(), dataCursor, |code|, tmp, rest)
      && var b := LowerArms(gEnd, InScope(), dataCursor, |code|, tmp, rest, endPc);
      && LowerArms(gEnd, env, cur, a.size, tmp, arms, endPc) == Block(ins + b.ins, b.cur, b.env)
    }

    method EmitArms(ghost gEnd: nat, tmp: nat, arms: seq<Arm>, end: nat, ghost endPc: nat) returns (r: Checked<()>)
      requires Valid() && IsEnd(globals, gEnd) && end < labelId && end !in labels
      modifies this
      ensures Valid() && globals == old(globals) && entries == old(entries)
      ensures r == CheckArms(gEnd, old(InScope()), old(dataCursor), old(|code|), tmp, arms)
      ensures r.Accept? ==>
                && end < labelId && end !in labels
                && Became(old(Snap()), map[end := endPc],
                          LowerArms(gEnd, old(InScope()), old(dataCursor), old(|code|), tmp, arms, endPc))
      decreases arms, 1
    {
      hide Valid, InScope, IsEnd, Emits, LowerArms, CheckArms, LowerArm, CheckSeq;
      ghost var a0, env0, cur0 := Snap(), InScope(), dataCursor;
      ghost var ins: seq<Instr> := [];
      ghost var pend := map[end := endPc];
      EmitsNothing(a0, pend);
      NoneEmitted(LowerArms(gEnd, env0, cur0, a0.size, tmp, arms, endPc));
      assert arms[0..] == arms;
      for i := 0 to |arms|
        invariant Valid() && globals == old(globals) && entries == old(entries) && end < labelId && end !in labels
        invariant ArmsSoFar(gEnd, a0, env0, cur0, tmp, arms, arms[i..], end, endPc, ins)
      {
        ghost var a1 := Snap();
        ArmsUnfold(gEnd, InScope(), dataCursor, a1.size, tmp, arms[i..], endPc);
        assert arms[i..][0] == arms[i] && arms[i..][1..] == arms[i + 1..];
        ghost var piece := LowerArm(gEnd, InScope(), dataCursor, a1.size, tmp, arms[i], endPc);
        var c := EmitArm(gEnd, tmp, arms[i], end, endPc);
        if c.Reject? { return c; }
        EmitsSize(a1, Snap(), pend, piece.ins);
        EmitsThen(a0, a1, Snap(), pend, ins, piece.ins);
        ghost var b := LowerArms(gEnd, InScope(), dataCursor, |code|, tmp, arms[i + 1..], endPc);
        assert ins + (piece.ins + b.ins) == (ins + piece.ins) + b.ins;
        ins := ins + piece.ins;
      }
      ArmsEnd(gEnd, InScope(), dataCursor, |code|, tmp, arms[|arms|..], endPc);
      assert ins + [] == ins;
      return Accept(());
    }

    method EmitCase(ghost gEnd: nat, s: Stmt) returns (r: Checked<()>)
      requires Valid() && IsEnd(globals, gEnd) && s.Case?
      modifies this
      ensures Valid() && globals == old(globals) && entries == old(entries)
      ensures r == CheckStmt(gEnd, old(InScope()), old(dataCursor), old(|code|), s)
      ensures r.Accept? ==>
                Became(old(Snap()), map[], LowerStmt(gEnd, old(InScope()), old(dataCursor), old(|code|), s))
      decreases s, 1
    {
      hide Valid, InScope, IsEnd, Emits, LowerExpr, TypeExpr, LowerArms, CheckArms, LowerElse, CheckElse, CodeSize, Lower.AllocTemp,
           LowerStmt, CheckStmt;
      ghost var a0, env0, cur0 := Snap(), InScope(), dataCursor;
      CaseUnfolds(gEnd, env0, cur0, a0.size, s);
      var t := EmitExpr(gEnd, s.selector);
      if t.Reject? { return Reject(t.code); }
      if !t.value.TInt? && !t.value.TDint? { return Reject(EType); }
      ghost var a1 := Snap();
      ghost var v := LowerExpr(gEnd, env0, cur0, a0.size, s.selector);
      EmitsSize(a0, a1, map[], v.ins);
      var tmp := AllocTemp(gEnd, t.value);
      EmitSimple(StData, tmp);
      EmitsAdd(a0, a1, Plain(Simple(StData, tmp)), map[], v.ins, Simple(StData, tmp));
      r := EmitCaseArms(gEnd, s, tmp, a0, v.ins + [Simple(StData, tmp)]);
    }

    /** The arms and the ELSE part of a CASE whose selector is saved in `tmp`. */
    method EmitCaseArms(ghost gEnd: nat, s: Stmt, tmp: nat, ghost a0: Asm, ghost ins: seq<Instr>) returns (r: Checked<()>)
      requires Valid() && IsEnd(globals, gEnd) && s.Case? && Emits(a0, Snap(), map[], ins)
      modifies this
      ensures Valid() && globals == old(globals) && entries == old(entries)
      ensures var c := CheckArms(gEnd, old(InScope()), old(dataCursor), old(|code|), tmp, s.arms);
              var bs := LowerArms(gEnd, old(InScope()), old(dataCursor), old(|code|), tmp, s.arms, 0);
              r == if c.Reject? then c else CheckElse(gEnd, bs.env, bs.cur, old(|code|) + CodeSize(bs.ins), s.elseBody)
      ensures r.Accept? ==>
                var bs := LowerArms(gEnd, old(InScope()), old(dataCursor), old(|code|), tmp, s.arms, 0);
                var elsePc := old(|code|) + CodeSize(bs.ins);
                var eb := LowerElse(gEnd, bs.env, bs.cur, elsePc, s.elseBody);
                var final := LowerArms(gEnd, old(InScope()), old(dataCursor), old(|code|), tmp, s.arms, elsePc + CodeSize(eb.ins));
                Became(a0, map[], Block(ins + final.ins + eb.ins, eb.cur, eb.env))
      decreases s, 0
    {
      hide Valid, InScope, IsEnd, Emits, LowerArms, CheckArms, LowerElse, CheckElse, CodeSize;
      ghost var env0 := InScope();
      ghost var a2 := Snap();
      EmitsSize(a0, a2, map[], ins);
      ghost var tmpCur := dataCursor;
      ghost var bs := LowerArms(gEnd, env0, tmpCur, a2.size, tmp, s.arms, 0);
      ghost var elsePc := a2.size + CodeSize(bs.ins);
      ghost var eb := LowerElse(gEnd, bs.env, bs.cur, elsePc, s.elseBody);
      ghost var endPc := elsePc + CodeSize(eb.ins);
      ArmsSameShape(gEnd, env0, tmpCur, a2.size, tmp, s.arms, 0, endPc);
      ghost var final := LowerArms(gEnd, env0, tmpCur, a2.size, tmp, s.arms, endPc);
      var end := FreshLabel();
      ghost var a3 := Snap();
      r := EmitArms(gEnd, tmp, s.arms, end, endPc);
      if r.Reject? { return; }
      EmitsSize(a3, Snap(), map[end := endPc], final.ins);
      FreshThen(a0, a2, Snap(), map[end := endPc], ins, final.ins);
      r := EmitElse(gEnd, s.elseBody, end, endPc, a0, ins + final.ins);
    }

    // ----- loops -----

    method EmitStartCounter(cap: nat, counter: nat, ghost a0: Asm, ghost ins: seq<Instr>)
      requires Valid() && Emits(a0, Snap(), map[], ins)
      modifies `code, `listing
      ensures Valid() && Emits(a0, Snap(), map[], ins + StartCounter(cap, counter))
    {
      hide Valid, Emits;
      ghost var b := Snap();
      Emit(PushDint(cap));
      EmitsAdd(a0, b, Plain(PushDint(cap)), map[], ins, PushDint(cap));
      b := Snap();
      EmitSimple(StData, counter);
      EmitsAdd(a0, b, Plain(Simple(StData, counter)), map[], ins + [PushDint(cap)], Simple(StData, counter));
      assert ins + [PushDint(cap)] + [Simple(StData, counter)] == ins + StartCounter(cap, counter);
    }

    method EmitCounterTest(counter: nat, end: nat, ghost a0: Asm, ghost pend: map<nat, nat>, ghost ins: seq<Instr>)
      requires Valid() && Emits(a0, Snap(), pend, ins) && end in pend
      modifies `code, `listing, `fixups
      ensures Valid() && Emits(a0, Snap(), pend, ins + CounterTest(counter, pend[end]))
    {
      hide Valid, Emits;
      ghost var b := Snap();
      EmitSimple(LdData, counter);
      Emit(PushDint(0));
      EmitSimple(Eq, 0);
      EmitJmp(JmpIf, end);
      TestEmitted(a0, b, pend, ins, counter, 0, JmpIf, end);
    }

    method EmitCountDown(counter: nat, head: nat, ghost a0: Asm, ghost pend: map<nat, nat>, ghost ins: seq<Instr>)
      requires Valid() && Emits(a0, Snap(), pend, ins) && head in labels && head !in pend
      modifies `code, `listing, `fixups
      ensures Valid() && Emits(a0, Snap(), pend, ins + CountDown(counter, labels[head]))
    {
      hide Valid, Emits;
      ghost var b := Snap();
      EmitSimple(LdData, counter);
      Emit(PushDint(1));
      EmitSimple(Sub, 0);
      EmitSimple(StData, counter);
      EmitJmp(Jmp, head);
      DownEmitted(a0, b, pend, ins, counter, head);
    }

    method EmitLimitTest(varOff: nat, limit: nat, end: nat, ghost a0: Asm, ghost pend: map<nat, nat>, ghost ins: seq<Instr>)
      requires Valid() && Emits(a0, Snap(), pend, ins) && end in pend
      modifies `code, `listing, `fixups
      ensures Valid() && Emits(a0, Snap(), pend, ins + LimitTest(varOff, limit, pend[end]))
    {
      hide Valid, Emits;
      ghost var b := Snap();
      EmitSimple(LdData, varOff);
      EmitSimple(LdData, limit);
      EmitSimple(Gt, 0);
      EmitJmp(JmpIf, end);
      FourEmitted(a0, b, pend, ins, Simple(LdData, varOff), Simple(LdData, limit), Simple(Gt, 0), Jump(JmpIf, end), Simple(JmpIf, pend[end]));
    }

    method EmitAdvance(varOff: nat, inc: nat, ghost a0: Asm, ghost pend: map<nat, nat>, ghost ins: seq<Instr>)
      requires Valid() && Emits(a0, Snap(), pend, ins)
      modifies `code, `listing
      ensures Valid() && Emits(a0, Snap(), pend, ins + Advance(varOff, inc))
    {
      hide Valid, Emits;
      ghost var b := Snap();
      EmitSimple(LdData, varOff);
      EmitSimple(LdData, inc);
      EmitSimple(Opcode.Add, 0);
      EmitSimple(StData, varOff);
      FourEmitted(a0, b, pend, ins, Simple(LdData, varOff), Simple(LdData, inc), Simple(Opcode.Add, 0),
                  Plain(Simple(StData, varOff)), Simple(StData, varOff));
    }

    /** The counter, the labels and the counter test of a WHILE. */
    method EmitLoopHead(cap: nat, counter: nat, ghost endPc: nat) returns (head: nat, end: nat)
      requires Valid()
      modifies `code, `listing, `fixups, `labels, `labelId
      ensures Valid() && old(labelId) <= head < end < labelId && end !in labels
      ensures head in labels && labels[head] == old(|code|) + 12 && |code| == old(|code|) + 32
      ensures Emits(old(Snap()), Snap(), map[end := endPc], StartCounter(cap, counter) + CounterTest(counter, endPc))
    {
      hide Valid, Emits, StartCounter, CounterTest, CodeSize;
      ghost var a0 := Snap();
      ghost var start := StartCounter(cap, counter);
      EmitsNothing(a0, map[]);
      EmitStartCounter(cap, counter, a0, []);
      assert [] + start == start;
      GroupSizes(cap, counter, a0.size + 12, endPc);
      EmitsSize(a0, Snap(), map[], start);
      head, end := PlaceHead(a0, start, endPc);
      EmitCounterTest(counter, end, a0, map[end := endPc], start);
      EmitsSize(a0, Snap(), map[end := endPc], start + CounterTest(counter, endPc));
      CodeSizeAppend(start, CounterTest(counter, endPc));
    }

    method EmitWhile(ghost gEnd: nat, s: Stmt) returns (r: Checked<()>)
      requires Valid() && IsEnd(globals, gEnd) && s.While?
      modifies this
      ensures Valid() && globals == old(globals) && entries == old(entries)
      ensures r == CheckStmt(gEnd, old(InScope()), old(dataCursor), old(|code|), s)
      ensures r.Accept? ==>
                Became(old(Snap()), map[], LowerStmt(gEnd, old(InScope()), old(dataCursor), old(|code|), s))
      decreases s, 1
    {
      hide Valid, InScope, IsEnd, Emits, LowerExpr, TypeExpr, LowerSeq, CheckSeq, CodeSize, Lower.AllocTemp, StartCounter, CounterTest, CountDown,
           LowerStmt, CheckStmt;
      ghost var a0, env0, cur0 := Snap(), InScope(), dataCursor;
      WhileUnfolds(gEnd, env0, cur0, a0.size, s);
      if s.maxIter.None? { return Reject(EUnboundedLoop); }
      var cap := s.maxIter.value;
      var counter := AllocTemp(gEnd, TDint);
      ghost var c := LowerExpr(gEnd, env0, dataCursor, a0.size + 32, s.cond);
      ghost var bodyPc := a0.size + 36 + CodeSize(c.ins);
      ghost var b := LowerSeq(gEnd, env0, c.cur, bodyPc, s.body);
      ghost var endPc := bodyPc + CodeSize(b.ins) + 24;
      var head, end := EmitLoopHead(cap, counter, endPc);
      ghost var pend := map[end := endPc];
      ghost var ins := StartCounter(cap, counter) + CounterTest(counter, endPc);
      ghost var a1 := Snap();
      var t := EmitExpr(gEnd, s.cond);
      if t.Reject? { return Reject(t.code); }
      if t.value != TBool { return Reject(EType); }
      ghost var a2 := Snap();
      EmitsSize(a1, a2, map[], c.ins);
      EmitsSub(a0, a1, a2, pend, ins, c.ins);
      r := EmitLoopBody(gEnd, s.body, counter, head, end, endPc, a0, ins + c.ins);
    }

    /** The exit on a false condition, the body, and the way back. */
    method EmitLoopBody(ghost gEnd: nat, body: seq<Stmt>, counter: nat, head: nat, end: nat, ghost endPc: nat, ghost a0: Asm, ghost ins: seq<Instr>)
      returns (r: Checked<()>)
      requires Valid() && IsEnd(globals, gEnd) && head in labels && a0.labelId <= head < end < labelId && end !in labels
      requires Emits(a0, Snap(), map[end := endPc], ins)
      requires endPc == |code| + 28 + CodeSize(LowerSeq(gEnd, InScope(), dataCursor, |code| + 4, body).ins)
      modifies this
      ensures Valid() && globals == old(globals) && entries == old(entries)
      ensures r == CheckSeq(gEnd, old(InScope()), old(dataCursor), old(|code|) + 4, body)
      ensures r.Accept? ==>
                var b := LowerSeq(gEnd, old(InScope()), old(dataCursor), old(|code|) + 4, body);
                Became(a0, map[], Block(ins + [Simple(JmpIfNot, endPc)] + b.ins + CountDown(counter, old(labels[head])), b.cur, b.env))
      decreases body, 2
    {
      hide Valid, InScope, IsEnd, Emits, LowerSeq, CheckSeq, CodeSize, CountDown;
      ghost var pend := map[end := endPc];
      ghost var b := LowerSeq(gEnd, InScope(), dataCursor, |code| + 4, body);
      ghost var a2 := Snap();
      EmitJmp(JmpIfNot, end);
      EmitsAdd(a0, a2, Jump(JmpIfNot, end), pend, ins, Simple(JmpIfNot, endPc));
      ghost var a3 := Snap();
      r := EmitSeq(gEnd, body);
      if r.Reject? { return; }
      ghost var a4 := Snap();
      EmitsSize(a3, a4, map[], b.ins);
      EmitsSub(a0, a3, a4, pend, ins + [Simple(JmpIfNot, endPc)], b.ins);
      LoopEnd(counter, head, end, endPc, a0, ins + [Simple(JmpIfNot, endPc)] + b.ins);
    }

    /** The two labels of a loop; the head stands here. */
    method PlaceHead(ghost a0: Asm, ghost ins: seq<Instr>, ghost endPc: nat) returns (head: nat, end: nat)
      requires Valid() && Emits(a0, Snap(), map[], ins)
      modifies `labels, `labelId
      ensures Valid() && a0.labelId <= head < end < labelId && end !in labels && head in labels && labels[head] == |code|
      ensures Snap().listing == old(Snap().listing)
      ensures Emits(a0, Snap(), map[end := endPc], ins)
    {
      hide Valid, Emits;
      EmitsSize(a0, Snap(), map[], ins);
      ghost var b := Snap();
      head := FreshLabel();
      end := FreshLabel();
      PlaceLabel(head);
      EmitsFresh(a0, b, map[], ins);
      EmitsFresh(a0, TakeLabel(b), map[], ins);
      ghost var c := TakeLabel(TakeLabel(b));
      EmitsWeaken(a0, c, map[], map[end := endPc], ins);
      EmitsPlace(a0, c, head, map[end := endPc], map[end := endPc], ins);
    }

    /** Count down, jump back, and the label behind the loop. */
    method LoopEnd(counter: nat, head: nat, end: nat, ghost endPc: nat, ghost a0: Asm, ghost ins: seq<Instr>)
      requires Valid() && head in labels && a0.labelId <= head < end < labelId && end !in labels
      requires Emits(a0, Snap(), map[end := endPc], ins) && endPc == |code| + 24
      modifies `code, `listing, `fixups, `labels
      ensures Valid() && head in labels && labels[head] == old(labels[head])
      ensures Emits(a0, Snap(), map[], ins + CountDown(counter, labels[head]))
    {
      hide Valid, Emits, CountDown;
      EmitsSize(a0, Snap(), map[end := endPc], ins);
      EmitCountDown(counter, head, a0, map[end := endPc], ins);
      ghost var all := ins + CountDown(counter, labels[head]);
      EmitsSize(a0, Snap(), map[end := endPc], all);
      CodeSizeAppend(ins, CountDown(counter, labels[head]));
      GroupSizes(0, counter, labels[head], endPc);
      EmitsPlace(a0, Snap(), end, map[end := endPc], map[], all);
      PlaceLabel(end);
    }

    /** The loop variable: a data variable in scope, or a new scratch slot. */
    method BindLoopVar(ghost gEnd: nat, x: string) returns (r: Checked<nat>)
      requires Valid() && IsEnd(globals, gEnd)
      modifies `dataCursor, `extraData, `locals
      ensures Valid()
      ensures r.Reject? <==> x in old(InScope()) && !old(InScope())[x].Data?
      ensures r.Reject? ==> r.code == EType
      ensures r.Accept? ==>
                && (dataCursor, InScope()) == DeclareLoopVar(gEnd, old(InScope()), old(dataCursor), x)
                && r.value == LoopVarOffset(InScope(), x)
    {
      hide IsEnd, Lower.AllocTemp, Assemble, FixupsOf;
      var st := Lookup(x);
      if st.Some? && st.value.Data? { return Accept(st.value.offset); }
      if st.Some? { return Reject(EType); }
      var off := AllocTemp(gEnd, TDint);
      locals := locals[x := Data(off, TDint)];
      assert globals + locals == old(InScope())[x := Data(off, TDint)];
      return Accept(off);
    }

    /** Start value, limit and step, each into its place. */
    method EmitBounds(ghost gEnd: nat, s: Stmt, varOff: nat, ghost p: ForPlan, ghost pc: nat, ghost env: Env, ghost cur: nat)
      returns (r: Checked<()>, limit: nat, inc: nat, counter: nat)
      requires Valid() && IsEnd(globals, gEnd) && s.For? && pc == |code|
      requires p == PlanFor(gEnd, env, cur, pc, s.v, s.first, s.last, s.step)
      requires (dataCursor, InScope()) == DeclareLoopVar(gEnd, env, cur, s.v) && varOff == p.varOff
      modifies `code, `listing, `fixups, `labelId, `labels, `dataCursor, `extraData
      ensures Valid()
      ensures var a, b := TypeExpr(InScope(), s.first), TypeExpr(InScope(), s.last);
              var c := if s.step.Some? then TypeExpr(InScope(), s.step.value) else Accept(TDint);
              r == if a.Reject? then Reject(a.code) else if b.Reject? then Reject(b.code)
                   else if c.Reject? then Reject(c.code) else Accept(())
      ensures r.Accept? ==>
                && Emits(old(Snap()), Snap(), map[], p.Setup())
                && |code| == pc + CodeSize(p.Setup()) && p.head == |code| + 12
                && limit == p.limit && inc == p.inc && counter == p.counter && dataCursor == p.cur
    {
      hide Valid, InScope, IsEnd, Emits, LowerExpr, TypeExpr, CodeSize, Lower.AllocTemp, DeclareLoopVar, LoopVarOffset;
      limit, inc, counter := 0, 0, 0;
      ghost var a0 := Snap();
      EmitsNothing(a0, map[]);
      r := EmitInto(gEnd, s.first, varOff, a0, []);
      if r.Reject? { return; }
      ghost var ins := p.first.ins + [Simple(StData, varOff)];
      assert [] + p.first.ins + [Simple(StData, varOff)] == ins;
      limit := AllocTemp(gEnd, TDint);
      r := EmitInto(gEnd, s.last, limit, a0, ins);
      if r.Reject? { return; }
      ins := ins + p.last.ins + [Simple(StData, limit)];
      inc := AllocTemp(gEnd, TDint);
      OmittedStep(gEnd, InScope(), dataCursor, |code|, s.step);
      r := EmitInto(gEnd, if s.step.Some? then s.step.value else Literal(IntLit(1)), inc, a0, ins);
      if r.Reject? { return; }
      ins := ins + p.step.ins + [Simple(StData, inc)];
      counter := AllocTemp(gEnd, TDint);
      EmitsSize(a0, Snap(), map[], ins);
      assert ins == p.Setup();
    }

    /** An expression and the store of its value. */
    method EmitInto(ghost gEnd: nat, e: Expr, off: nat, ghost a0: Asm, ghost ins: seq<Instr>) returns (r: Checked<()>)
      requires Valid() && IsEnd(globals, gEnd) && Emits(a0, Snap(), map[], ins)
      modifies `code, `listing, `fixups, `labelId, `labels, `dataCursor, `extraData
      ensures Valid()
      ensures var t := TypeExpr(InScope(), e); r == if t.Reject? then Reject(t.code) else Accept(())
      ensures r.Accept? ==>
                var c := LowerExpr(gEnd, InScope(), old(dataCursor), old(|code|), e);
                && BecameCode(a0, Code(ins + c.ins + [Simple(StData, off)], c.cur))
                && |code| == old(|code|) + CodeSize(c.ins) + 4
    {
      hide Valid, InScope, IsEnd, Emits, LowerExpr, TypeExpr, CodeSize;
      ghost var a1 := Snap();
      ghost var c := LowerExpr(gEnd, InScope(), dataCursor, |code|, e);
      var t := EmitExpr(gEnd, e);
      if t.Reject? { return Reject(t.code); }
      ghost var a2 := Snap();
      EmitsSize(a1, a2, map[], c.ins);
      EmitsThen(a0, a1, a2, map[], ins, c.ins);
      EmitSimple(StData, off);
      EmitsAdd(a0, a2, Plain(Simple(StData, off)), map[], ins + c.ins, Simple(StData, off));
      return Accept(());
    }

    method EmitFor(ghost gEnd: nat, s: Stmt) returns (r: Checked<()>)
      requires Valid() && IsEnd(globals, gEnd) && s.For?
      modifies this
      ensures Valid() && globals == old(globals) && entries == old(entries)
      ensures r == CheckStmt(gEnd, old(InScope()), old(dataCursor), old(|code|), s)
      ensures r.Accept? ==>
                Became(old(Snap()), map[], LowerStmt(gEnd, old(InScope()), old(dataCursor), old(|code|), s))
      decreases s, 1
    {
      hide Valid, InScope, IsEnd, Emits, TypeExpr, LowerSeq, CheckSeq, CodeSize, StartCounter, CounterTest, CountDown, LimitTest, Advance,
           PlanFor, DeclareLoopVar, ForPlan.Setup, LowerStmt, CheckStmt, ForCap;
      ghost var a0, env0, cur0 := Snap(), InScope(), dataCursor;
      ForUnfolds(gEnd, env0, cur0, a0.size, s);
      ghost var p := PlanFor(gEnd, env0, cur0, a0.size, s.v, s.first, s.last, s.step);
      PlanScope(gEnd, env0, cur0, a0.size, s);
      var cap := ForCap(s.first, s.last, s.step, s.maxIter);
      if cap.Reject? { return Reject(cap.code); }
      var v := BindLoopVar(gEnd, s.v);
      if v.Reject? { return Reject(v.code); }
      var limit, inc, counter;
      r, limit, inc, counter := EmitBounds(gEnd, s, v.value, p, a0.size, env0, cur0);
      if r.Reject? { return; }
      r := EmitForLoop(gEnd, s, p, v.value, limit, inc, counter, cap.value, a0);
    }

    /** The loop of a FOR, with its bounds in their slots. */
    method EmitForLoop(ghost gEnd: nat, s: Stmt, ghost p: ForPlan, varOff: nat, limit: nat, inc: nat, counter: nat, cap: nat, ghost a0: Asm)
      returns (r: Checked<()>)
      requires Valid() && IsEnd(globals, gEnd) && s.For?
      requires Emits(a0, Snap(), map[], p.Setup()) && p.head == |code| + 12 && dataCursor == p.cur && InScope() == p.env
      requires varOff == p.varOff && limit == p.limit && inc == p.inc && counter == p.counter
      modifies this
      ensures Valid() && globals == old(globals) && entries == old(entries)
      ensures r == CheckSeq(gEnd, p.env, p.cur, p.head + 36, s.body)
      ensures r.Accept? ==>
                var b := LowerSeq(gEnd, p.env, p.cur, p.head + 36, s.body);
                Became(a0, map[], Block(ForCodeOf(p, cap, b, p.head + 36 + CodeSize(b.ins) + 40), b.cur, b.env))
      decreases s, 0
    {
      hide Valid, InScope, IsEnd, Emits, LowerSeq, CheckSeq, CodeSize, StartCounter, CounterTest, CountDown, LimitTest, Advance, ForPlan.Setup;
      ghost var b := LowerSeq(gEnd, p.env, p.cur, p.head + 36, s.body);
      ghost var endPc := p.head + 36 + CodeSize(b.ins) + 40;
      ghost var start := p.Setup() + StartCounter(cap, counter);
      EmitsSize(a0, Snap(), map[], p.Setup());
      EmitStartCounter(cap, counter, a0, p.Setup());
      EmitsSize(a0, Snap(), map[], start);
      CodeSizeAppend(p.Setup(), StartCounter(cap, counter));
      GroupSizes(cap, counter, p.head, endPc);
      ForGroupSizes(varOff, limit, inc, endPc);
      var head, end := PlaceHead(a0, start, endPc);
      ghost var pend := map[end := endPc];
      EmitCounterTest(counter, end, a0, pend, start);
      EmitLimitTest(varOff, limit, end, a0, pend, start + CounterTest(counter, endPc));
      ghost var ins := start + CounterTest(counter, endPc) + LimitTest(varOff, limit, endPc);
      ghost var a1 := Snap();
      EmitsSize(a0, a1, pend, ins);
      CodeSizeAppend(start, CounterTest(counter, endPc));
      CodeSizeAppend(start + CounterTest(counter, endPc), LimitTest(varOff, limit, endPc));
      r := EmitSeq(gEnd, s.body);
      if r.Reject? { return; }
      ghost var a2 := Snap();
      EmitsSize(a1, a2, map[], b.ins);
      EmitsSub(a0, a1, a2, pend, ins, b.ins);
      EmitAdvance(varOff, inc, a0, pend, ins + b.ins);
      EmitsSize(a0, Snap(), pend, ins + b.ins + Advance(varOff, inc));
      EmitsSize(a0, a2, pend, ins + b.ins);
      CodeSizeAppend(ins + b.ins, Advance(varOff, inc));
      LoopEnd(counter, head, end, endPc, a0, ins + b.ins + Advance(varOff, inc));
    }

    // ----- tasks and the finished module -----

    method BeginEntry(name: string, isUserFb: bool)
      requires Valid()
      modifies `entries
      ensures Valid() && entries == old(entries) + [EntryPoint(name, |code|, isUserFb)]
    {
      entries := entries + [EntryPoint(name, |code|, isUserFb)];
    }

    /** One task: its entry point, its body in a scope of its own, and HALT. */
    method EmitTask(ghost gEnd: nat, task: Task) returns (r: Checked<()>)
      requires Valid() && IsEnd(globals, gEnd) && locals == map[]
      modifies this
      ensures Valid() && globals == old(globals) && locals == map[]
      ensures entries == old(entries) + [EntryPoint(task.name, old(|code|), false)]
      ensures r == CheckSeq(gEnd, globals, old(dataCursor), old(|code|), task.body)
      ensures r.Accept? ==>
                var b := LowerSeq(gEnd, globals, old(dataCursor), old(|code|), task.body);
                BecameCode(old(Snap()), Code(b.ins + [Simple(Halt, 0)], b.cur))
    {
      hide Valid, IsEnd, Emits, LowerSeq, CheckSeq;
      BeginEntry(task.name, false);
      ghost var a0 := Snap();
      assert InScope() == globals;
      r := EmitSeq(gEnd, task.body);
      if r.Accept? {
        EmitsAdd(a0, Snap(), Plain(Simple(Halt, 0)), map[],
                 LowerSeq(gEnd, globals, old(dataCursor), old(|code|), task.body).ins, Simple(Halt, 0));
        EmitSimple(Halt, 0);
      }
      ForgetLocals();
    }

    ghost predicate TasksSoFar(gEnd: nat, a: Asm, cur: nat, had: seq<EntryPoint>, tasks: seq<Task>, rest: seq<Task>, ins: seq<Instr>)
      reads this
    {
      && Emits(a, Snap(), map[], ins)
      && CheckTasks(gEnd, globals, cur, a.size, tasks) == CheckTasks(gEnd, globals, dataCursor, |code|, rest)
      && (var c := LayTasks(gEnd, globals, dataCursor, |code|, rest);
          LayTasks(gEnd, globals, cur, a.size, tasks) == Code(ins + c.ins, c.cur))
      && had + EntriesOf(gEnd, globals, cur, a.size, tasks) == entries + EntriesOf(gEnd, globals, dataCursor, |code|, rest)
    }

    method EmitTasks(ghost gEnd: nat, tasks: seq<Task>) returns (r: Checked<()>)
      requires Valid() && IsEnd(globals, gEnd) && locals == map[]
      modifies this
      ensures Valid() && globals == old(globals)
      ensures r == CheckTasks(gEnd, globals, old(dataCursor), old(|code|), tasks)
      ensures r.Accept? ==>
                && BecameCode(old(Snap()), LayTasks(gEnd, globals, old(dataCursor), old(|code|), tasks))
                && entries == old(entries) + EntriesOf(gEnd, globals, old(dataCursor), old(|code|), tasks)
    {
      hide Valid, Emits, LayTasks, CheckTasks, EntriesOf, LowerSeq, CheckSeq, IsEnd, CodeSize;
      ghost var a0, cur0 := Snap(), dataCursor;
      ghost var ins: seq<Instr> := [];
      EmitsNothing(a0, map[]);
      NoTasksYet(gEnd, globals, cur0, a0.size, tasks);
      for i := 0 to |tasks|
        invariant Valid() && globals == old(globals) && locals == map[]
        invariant TasksSoFar(gEnd, a0, cur0, old(entries), tasks, tasks[i..], ins)
      {
        ghost var a1, cur := Snap(), dataCursor;
        TasksUnfold(gEnd, globals, cur, a1.size, tasks[i..]);
        assert tasks[i..][0] == tasks[i] && tasks[i..][1..] == tasks[i + 1..];
        var c := EmitTask(gEnd, tasks[i]);
        if c.Reject? { return c; }
        ghost var b := LowerSeq(gEnd, globals, cur, a1.size, tasks[i].body);
        ghost var piece := b.ins + [Simple(Halt, 0)];
        EmitsSize(a1, Snap(), map[], piece);
        CodeSizeAppend(b.ins, [Simple(Halt, 0)]);
        OneSize(Simple(Halt, 0));
        EmitsThen(a0, a1, Snap(), map[], ins, piece);
        ghost var rest := LayTasks(gEnd, globals, dataCursor, |code|, tasks[i + 1..]);
        assert ins + (piece + rest.ins) == (ins + piece) + rest.ins;
        ins := ins + piece;
      }
      TasksEnd(gEnd, globals, dataCursor, |code|, tasks[|tasks|..]);
      assert ins + [] == ins && entries + [] == entries;
      return Accept(());
    }

    method ForgetLocals()
      requires Valid()
      modifies `locals
      ensures Valid() && locals == map[]
    {
      locals := map[];
    }

    /** Patches every recorded jump and builds the module. */
    method Finish(dataSize: nat, retainSize: nat, inputSlots: nat, outputSlots: nat) returns (r: Checked<IrModule>)
      requires Valid()
      modifies `code
      ensures r.Accept? <==> forall k :: 0 <= k < |fixups| ==> fixups[k].1 in labels
      ensures r.Reject? ==> r.code == ECodegen
      ensures r.Accept? ==>
                && Patchable(old(code), fixups, labels)
                && r.value == IrModule(0, 0, Max(Max(dataSize, extraData), 16), retainSize, inputSlots, outputSlots,
                                       entries, [], PatchAll(old(code), fixups, labels))
    {
      FixupsInside(listing);
      for i := 0 to |fixups|
        invariant forall k :: 0 <= k < i ==> fixups[k].1 in labels
        invariant Patchable(old(code), fixups[..i], labels)
        invariant code == PatchAll(old(code), fixups[..i], labels)
      {
        var off, l := fixups[i].0, fixups[i].1;
        if l !in labels { return Reject(ECodegen); }
        assert fixups[..i + 1][..i] == fixups[..i];
        code := code[..off] + Bytes.Le(labels[l], 3) + code[off + 3..];
      }
      assert fixups[..|fixups|] == fixups;
      return Accept(IrModule(0, 0, Max(Max(dataSize, extraData), 16), retainSize, inputSlots, outputSlots, entries, [], code));
    }
  }

  datatype Task = Task(name: string, body: seq<Stmt>)

  // ----- all tasks, one behind the other -----

  function LayTasks(gEnd: nat, globals: Env, cur: nat, pc: nat, tasks: seq<Task>): Code
    decreases |tasks|
  {
    if tasks == [] then Code([], cur)
    else
      var b := LowerSeq(gEnd, globals, cur, pc, tasks[0].body);
      var rest := LayTasks(gEnd, globals, b.cur, pc + CodeSize(b.ins) + 4, tasks[1..]);
      Code(b.ins + [Simple(Halt, 0)] + rest.ins, rest.cur)
  }

  function CheckTasks(gEnd: nat, globals: Env, cur: nat, pc: nat, tasks: seq<Task>): Checked<()>
    decreases |tasks|
  {
    if tasks == [] then Accept(())
    else
      var c := CheckSeq(gEnd, globals, cur, pc, tasks[0].body);
      if c.Reject? then c
      else
        var b := LowerSeq(gEnd, globals, cur, pc, tasks[0].body);
        CheckTasks(gEnd, globals, b.cur, pc + CodeSize(b.ins) + 4, tasks[1..])
  }

  function EntriesOf(gEnd: nat, globals: Env, cur: nat, pc: nat, tasks: seq<Task>): seq<EntryPoint>
    decreases |tasks|
  {
    if tasks == [] then []
    else
      var b := LowerSeq(gEnd, globals, cur, pc, tasks[0].body);
      [EntryPoint(tasks[0].name, pc, false)] + EntriesOf(gEnd, globals, b.cur, pc + CodeSize(b.ins) + 4, tasks[1..])
  }

  /** Compiles all tasks over one set of globals: the first complaint of the reference
      checker, or a module whose bytes encode the reference code of every task. */
  method CompileTasks(globals: Env, tasks: seq<Task>, dataSize: nat, retainSize: nat, inputSlots: nat, outputSlots: nat, ghost gEnd: nat)
    returns (r: Checked<IrModule>)
    requires IsEnd(globals, gEnd)
    ensures r.Accept? <==> CheckTasks(gEnd, globals, 0, 0, tasks).Accept?
    ensures r.Reject? ==> CheckTasks(gEnd, globals, 0, 0, tasks) == Reject(r.code)
    ensures r.Accept? ==>
              var all := LayTasks(gEnd, globals, 0, 0, tasks);
              r.value == IrModule(0, 0, Max(Max(dataSize, all.cur), 16), retainSize, inputSlots, outputSlots,
                                  EntriesOf(gEnd, globals, 0, 0, tasks), [], EncodeAll(all.ins))
  {
    hide Emits, LayTasks, CheckTasks, EntriesOf, IsEnd;
    var cg := new Codegen(globals);
    ghost var a0 := cg.Snap();
    var c := cg.EmitTasks(gEnd, tasks);
    if c.Reject? { return Reject(c.code); }
    EmittedPatched(a0, cg.Snap(), LayTasks(gEnd, globals, 0, 0, tasks).ins);
    FixupsPlaced(cg.listing, cg.labels);
    r := cg.Finish(dataSize, retainSize, inputSlots, outputSlots);
  }

  lemma NoTasksYet(gEnd: nat, globals: Env, cur: nat, pc: nat, tasks: seq<Task>)
    ensures tasks[0..] == tasks
    ensures var c := LayTasks(gEnd, globals, cur, pc, tasks); Code([] + c.ins, c.cur) == c
  {
    hide LayTasks;
    var c := LayTasks(gEnd, globals, cur, pc, tasks);
    assert [] + c.ins == c.ins;
  }

  lemma TasksUnfold(gEnd: nat, globals: Env, cur: nat, pc: nat, tasks: seq<Task>)
    requires tasks != []
    ensures var b := LowerSeq(gEnd, globals, cur, pc, tasks[0].body);
            var next := pc + CodeSize(b.ins) + 4;
            && var rest := LayTasks(gEnd, globals, b.cur, next, tasks[1..]);
            && LayTasks(gEnd, globals, cur, pc, tasks) == Code(b.ins + [Simple(Halt, 0)] + rest.ins, rest.cur)
            && EntriesOf(gEnd, globals, cur, pc, tasks)
               == [EntryPoint(tasks[0].name, pc, false)] + EntriesOf(gEnd, globals, b.cur, next, tasks[1..])
            && var c := CheckSeq(gEnd, globals, cur, pc, tasks[0].body);
            CheckTasks(gEnd, globals, cur, pc, tasks) == if c.Reject? then c else CheckTasks(gEnd, globals, b.cur, next, tasks[1..])
  {
    hide LowerSeq, CheckSeq, CodeSize;
  }

  lemma TasksEnd(gEnd: nat, globals: Env, cur: nat, pc: nat, tasks: seq<Task>)
    requires tasks == []
    ensures LayTasks(gEnd, globals, cur, pc, tasks) == Code([], cur) && EntriesOf(gEnd, globals, cur, pc, tasks) == []
    ensures CheckTasks(gEnd, globals, cur, pc, tasks) == Accept(())
  {}

  lemma EmittedPatched(a: Asm, b: Asm, ins: seq<Instr>)
    requires Emits(a, b, map[], ins) && a.listing == []
    ensures Patchable(Assemble(b.listing), FixupsOf(b.listing), b.labels)
    ensures PatchAll(Assemble(b.listing), FixupsOf(b.listing), b.labels) == EncodeAll(ins)
  {
    assert b.labels + map[] == b.labels && b.listing[0..] == b.listing;
    PatchedListing(b.listing, b.labels, ins);
  }

  /** Every recorded position lies inside the code. */
  lemma {:induction false} FixupsInside(listing: seq<Sym>)
    ensures forall k :: 0 <= k < |FixupsOf(listing)| ==> FixupsOf(listing)[k].0 + 4 <= |Assemble(listing)|
  {
    if listing != [] { FixupsInside(listing[..|listing| - 1]); }
  }

  lemma FixupsPlaced(listing: seq<Sym>, labels: map<nat, nat>)
    requires Patchable(Assemble(listing), FixupsOf(listing), labels)
    ensures forall k :: 0 <= k < |FixupsOf(listing)| ==> FixupsOf(listing)[k].1 in labels
  {}

  lemma NoneEmitted(b: Block)
    ensures Block([] + b.ins, b.cur, b.env) == b
  {
    assert [] + b.ins == b.ins;
  }

  // ----- emission of the pieces -----

  lemma FreshBefore(a: Asm, b: Asm, pend: map<nat, nat>, ins: seq<Instr>)
    requires Emits(TakeLabel(a), b, pend, ins)
    ensures Emits(a, b, pend, ins)
  {}

  lemma FreshThen(a: Asm, b: Asm, c: Asm, pend: map<nat, nat>, x: seq<Instr>, y: seq<Instr>)
    requires Emits(a, b, map[], x) && Emits(TakeLabel(b), c, pend, y)
    requires forall k :: k in pend ==> k !in b.labels
    ensures Emits(a, c, pend, x + y)
  {
    hide Emits;
    EmitsWeaken(a, b, map[], pend, x);
    FreshBefore(b, c, pend, y);
    EmitsThen(a, b, c, pend, x, y);
  }

  lemma TwoTaken(a: Asm, pend: map<nat, nat>)
    ensures Emits(a, TakeLabel(TakeLabel(a)), pend, [])
  {
    EmitsNothing(a, pend);
    EmitsFresh(a, a, pend, []);
    EmitsFresh(a, TakeLabel(a), pend, []);
  }

  lemma BranchEmitted(a: Asm, b: Asm, c: Asm, end: nat, endPc: nat, cond: seq<Instr>, body: seq<Instr>, leave: bool)
    requires end < a.labelId && end !in a.labels && a.labelId !in a.labels
    requires Emits(TakeLabel(a), b, map[], cond)
    requires Emits(AddSym(b, Jump(JmpIfNot, a.labelId)), c, map[], body)
    ensures var d := if leave then AddSym(c, Jump(Jmp, end)) else c;
            var next := b.size + 4 + CodeSize(body) + CodeSize(Leave(leave, endPc));
            && a.labelId < c.labelId && end < c.labelId && end !in SetLabel(d, a.labelId).labels
            && Emits(a, SetLabel(d, a.labelId), map[end := endPc],
                     cond + [Simple(JmpIfNot, next)] + body + Leave(leave, endPc))
  {
    hide Emits, CodeSize;
    var l := a.labelId;
    var next := b.size + 4 + CodeSize(body) + CodeSize(Leave(leave, endPc));
    var pend := map[end := endPc, l := next];
    var jump := Simple(JmpIfNot, next);
    EmitsSize(TakeLabel(a), b, map[], cond);
    LabelsStayNew(TakeLabel(a), b, end);
    LabelsStayNew(TakeLabel(a), b, l);
    EmitsWeaken(TakeLabel(a), b, map[], pend, cond);
    FreshBefore(a, b, pend, cond);
    EmitsAdd(a, b, Jump(JmpIfNot, l), pend, cond, jump);
    var b1 := AddSym(b, Jump(JmpIfNot, l));
    EmitsSub(a, b1, c, pend, cond + [jump], body);
    EmitsSize(b1, c, map[], body);
    var ins := cond + [jump] + body;
    if leave {
      EmitsAdd(a, c, Jump(Jmp, end), pend, ins, Simple(Jmp, endPc));
      EmitsPlace(a, AddSym(c, Jump(Jmp, end)), l, pend, map[end := endPc], ins + [Simple(Jmp, endPc)]);
    } else {
      assert ins + [] == ins;
      EmitsPlace(a, c, l, pend, map[end := endPc], ins);
    }
  }

  lemma ArmEmitted(a: Asm, b: Asm, c: Asm, end: nat, endPc: nat, next: nat, nextPc: nat, tests: seq<Instr>, body: seq<Instr>)
    requires a.labelId <= next < b.labelId && end < b.labelId && end != next && end !in b.labels && next !in b.labels
    requires Emits(a, b, map[end := endPc, next := nextPc], tests) && Emits(b, c, map[], body)
    requires nextPc == c.size + 4
    ensures next < c.labelId && end < c.labelId
    ensures var d := SetLabel(AddSym(c, Jump(Jmp, end)), next);
            && end !in d.labels
            && Emits(a, d, map[end := endPc], tests + body + [Simple(Jmp, endPc)])
  {
    hide Emits;
    var pend := map[end := endPc, next := nextPc];
    EmitsSub(a, b, c, pend, tests, body);
    EmitsAdd(a, c, Jump(Jmp, end), pend, tests + body, Simple(Jmp, endPc));
    EmitsPlace(a, AddSym(c, Jump(Jmp, end)), next, pend, map[end := endPc], tests + body + [Simple(Jmp, endPc)]);
  }

  lemma FourEmitted(a: Asm, b: Asm, pend: map<nat, nat>, ins: seq<Instr>, i: Instr, j: Instr, k: Instr, last: Sym, l: Instr)
    requires Emits(a, b, pend, ins) && StandsFor(last, b.labels + pend, l)
    ensures Emits(a, AddSym(AddSym(AddSym(AddSym(b, Plain(i)), Plain(j)), Plain(k)), last), pend, ins + [i, j, k, l])
  {
    hide Emits;
    EmitsAdd(a, b, Plain(i), pend, ins, i);
    var b1 := AddSym(b, Plain(i));
    EmitsAdd(a, b1, Plain(j), pend, ins + [i], j);
    var b2 := AddSym(b1, Plain(j));
    EmitsAdd(a, b2, Plain(k), pend, ins + [i] + [j], k);
    var b3 := AddSym(b2, Plain(k));
    EmitsAdd(a, b3, last, pend, ins + [i] + [j] + [k], l);
    assert ins + [i] + [j] + [k] + [l] == ins + [i, j, k, l];
  }

  lemma TestEmitted(a: Asm, b: Asm, pend: map<nat, nat>, ins: seq<Instr>, slot: nat, imm: nat, op: Opcode, target: nat)
    requires Emits(a, b, pend, ins) && target in pend && imm < 0x1_0000_0000
    ensures Emits(a, AddSym(AddSym(AddSym(AddSym(b, Plain(Simple(LdData, slot))), Plain(WithImm32(PushIDint, 0, imm))),
                                   Plain(Simple(Eq, 0))), Jump(op, target)), pend,
                  ins + [Simple(LdData, slot), WithImm32(PushIDint, 0, imm), Simple(Eq, 0), Simple(op, pend[target])])
  {
    hide Emits;
    FourEmitted(a, b, pend, ins, Simple(LdData, slot), WithImm32(PushIDint, 0, imm), Simple(Eq, 0), Jump(op, target), Simple(op, pend[target]));
  }

  lemma DownEmitted(a: Asm, b: Asm, pend: map<nat, nat>, ins: seq<Instr>, counter: nat, head: nat)
    requires Emits(a, b, pend, ins) && head in b.labels && head !in pend
    ensures var b4 := AddSym(AddSym(AddSym(AddSym(b, Plain(Simple(LdData, counter))), Plain(PushDint(1))),
                                    Plain(Simple(Sub, 0))), Plain(Simple(StData, counter)));
            Emits(a, AddSym(b4, Jump(Jmp, head)), pend, ins + CountDown(counter, b.labels[head]))
  {
    hide Emits;
    var st := Simple(StData, counter);
    FourEmitted(a, b, pend, ins, Simple(LdData, counter), PushDint(1), Simple(Sub, 0), Plain(st), st);
    var b4 := AddSym(AddSym(AddSym(AddSym(b, Plain(Simple(LdData, counter))), Plain(PushDint(1))), Plain(Simple(Sub, 0))), Plain(st));
    var four := [Simple(LdData, counter), PushDint(1), Simple(Sub, 0), st];
    var jump := Simple(Jmp, b.labels[head]);
    EmitsAdd(a, b4, Jump(Jmp, head), pend, ins + four, jump);
    assert ins + four + [jump] == ins + CountDown(counter, b.labels[head]);
  }

  lemma TailEmitted(a0: Asm, a: Asm, b: Asm, end: nat, skip: nat, skipPc: nat, head: seq<Instr>, right: seq<Instr>, push: Instr)
    requires Emits(a0, a, map[end := skipPc + 4, skip := skipPc], head) && Emits(a, b, map[], right)
    requires a0.labelId <= end < skip < a.labelId && end !in a.labels && skip !in a.labels
    requires a.size + CodeSize(right) + 4 == skipPc && push.Simple?
    ensures skip < b.labelId
    ensures var c := SetLabel(AddSym(b, Jump(Jmp, end)), skip);
            Emits(a0, SetLabel(AddSym(c, Plain(push)), end), map[], head + right + [Simple(Jmp, skipPc + 4)] + [push])
  {
    hide Emits;
    EmitsSub(a0, a, b, map[end := skipPc + 4, skip := skipPc], head, right);
    EmitsSize(a, b, map[], right);
    LabelsStayNew(a, b, skip);
    LabelsStayNew(a, b, end);
    SkipEmitted(a0, b, end, skip, skipPc, head + right, push);
  }

  /** The jump over the constant, the constant, and both labels. */
  lemma SkipEmitted(a: Asm, b: Asm, end: nat, skip: nat, skipPc: nat, ins: seq<Instr>, push: Instr)
    requires a.labelId <= end < skip < b.labelId && end !in b.labels && skip !in b.labels
    requires Emits(a, b, map[end := skipPc + 4, skip := skipPc], ins) && b.size + 4 == skipPc
    requires push.Simple?
    ensures var c := SetLabel(AddSym(b, Jump(Jmp, end)), skip);
            Emits(a, SetLabel(AddSym(c, Plain(push)), end), map[], ins + [Simple(Jmp, skipPc + 4)] + [push])
  {
    hide Emits;
    var pend, last := map[end := skipPc + 4, skip := skipPc], map[end := skipPc + 4];
    var jump := Simple(Jmp, skipPc + 4);
    EmitsAdd(a, b, Jump(Jmp, end), pend, ins, jump);
    EmitsPlace(a, AddSym(b, Jump(Jmp, end)), skip, pend, last, ins + [jump]);
    var c := SetLabel(AddSym(b, Jump(Jmp, end)), skip);
    EmitsAdd(a, c, Plain(push), last, ins + [jump], push);
    EmitsPlace(a, AddSym(c, Plain(push)), end, last, map[], ins + [jump] + [push]);
  }

  lemma LabelsStayNew(a: Asm, b: Asm, l: nat)
    requires Grown(a, b) && l < a.labelId && l !in a.labels
    ensures l < b.labelId && l !in b.labels
  {}

  lemma EmitsSize(a: Asm, b: Asm, pend: map<nat, nat>, ins: seq<Instr>)
    requires Emits(a, b, pend, ins)
    ensures Grown(a, b) && b.size == a.size + CodeSize(ins)
  {}

  /** Saving, reloading and testing the left operand. */
  lemma DupEmitted(a: Asm, b: Asm, pend: map<nat, nat>, ins: seq<Instr>, op: BinaryOp, tmp: nat, skip: nat, skipPc: nat)
    returns (all: seq<Instr>)
    requires Emits(a, b, pend, ins) && skip in pend && pend[skip] == skipPc
    ensures all == ins + ShortCircuit(op, tmp, skipPc)
    ensures Emits(a, AddSym(AddSym(AddSym(b, Plain(Simple(StData, tmp))), Plain(Simple(LdData, tmp))),
                         Jump(if op.OrElse? then JmpIf else JmpIfNot, skip)), pend, all)
  {
    hide Emits;
    var i, j, k := Simple(StData, tmp), Simple(LdData, tmp), Simple(if op.OrElse? then JmpIf else JmpIfNot, skipPc);
    EmitsAdd(a, b, Plain(i), pend, ins, i);
    EmitsAdd(a, AddSym(b, Plain(i)), Plain(j), pend, ins + [i], j);
    EmitsAdd(a, AddSym(AddSym(b, Plain(i)), Plain(j)), Jump(k.op, skip), pend, ins + [i] + [j], k);
    all := ins + [i] + [j] + [k];
  }
}
