/** Variable declarations become storage: slots, and offsets handed out by a bump
    allocator (crates/plc-compiler/src/bind.rs, Allocator and bind_var_sections). */
module Binding {
  import opened Ir
  import opened Vm
  import opened St
  import opened Lower
  import opened Scope
  import opened Simulation

  datatype Plane = PlaneI | PlaneQ | PlaneM | PlaneR

  datatype SectionKind = SecVar | SecInput | SecOutput | SecGlobal | SecRetain | SecConstant

  /** The types a declaration can name; LINT is for constants of the machine only. */
  type DeclType = ty: IrType | !ty.TLint? witness TBool

  datatype VarDecl = VarDecl(name: string, ty: DeclType, at: Option<(Plane, nat)>, init: Option<Expr>)

  datatype Section = Section(kind: SectionKind, vars: seq<VarDecl>)

  datatype RetainEntry = RetainEntry(name: string, ty: IrType, offset: nat)

  /** Everything binding builds up. */
  datatype Bound = Bound(globals: Env, data: nat, retain: nat, symbols: seq<RetainEntry>, inputSlots: nat, outputSlots: nat)

  function NothingBound(): Bound { Bound(map[], 0, 0, [], 0, 0) }

  function BindData(b: Bound, v: VarDecl): Bound
  {
    var off := AlignUp(b.data, Align(v.ty));
    b.(globals := b.globals[v.name := Data(off, v.ty)], data := off + ByteWidth(v.ty))
  }

  function BindRetain(b: Bound, v: VarDecl): Bound
  {
    var off := AlignUp(b.retain, Align(v.ty));
    b.(globals := b.globals[v.name := Retain(off, v.ty)], retain := off + ByteWidth(v.ty),
       symbols := b.symbols + [RetainEntry(v.name, v.ty, off)])
  }

  function BindVar(b: Bound, kind: SectionKind, v: VarDecl): Checked<Bound>
  {
    if v.name in b.globals then
      if (kind.SecGlobal? || kind.SecRetain? || kind.SecConstant?) && v.at.Some? then Accept(b) else Reject(EDuplicate)
    else
      match v.at
      case Some((PlaneI, slot)) =>
        Accept(b.(globals := b.globals[v.name := Input(slot, v.ty)], inputSlots := Max(b.inputSlots, slot + 1)))
      case Some((PlaneQ, slot)) =>
        Accept(b.(globals := b.globals[v.name := Output(slot, v.ty)], outputSlots := Max(b.outputSlots, slot + 1)))
      case Some((PlaneR, _)) => Accept(BindRetain(b, v))
      case Some((PlaneM, _)) => Accept(BindData(b, v))
      case None =>
        if kind.SecConstant? then
          if v.init.Some? && v.init.value.Literal? then
            Accept(b.(globals := b.globals[v.name := Const(v.init.value.value)]))
          else Reject(EType)
        else if kind.SecRetain? then Accept(BindRetain(b, v))
        else Accept(BindData(b, v))
  }

  function BindSection(b: Bound, kind: SectionKind, vars: seq<VarDecl>): Checked<Bound>
    decreases |vars|
  {
    if vars == [] then Accept(b)
    else
      var c := BindVar(b, kind, vars[0]);
      if c.Reject? then c else BindSection(c.value, kind, vars[1..])
  }

  function BindAll(b: Bound, sections: seq<Section>): Checked<Bound>
    decreases |sections|
  {
    if sections == [] then Accept(b)
    else
      var c := BindSection(b, sections[0].kind, sections[0].vars);
      if c.Reject? then c else BindAll(c.value, sections[1..])
  }

  class Allocator {
    var data: nat
    var retain: nat

    constructor ()
      ensures data == 0 && retain == 0
    {
      data, retain := 0, 0;
    }

    /** Rounds the cursor of one segment up and takes `size` bytes. */
    method Alloc(size: nat, align: nat, inRetain: bool) returns (off: nat)
      requires align > 0
      modifies this
      ensures off == AlignUp(if inRetain then old(retain) else old(data), align)
      ensures off % align == 0 && (var cursor := if inRetain then old(retain) else old(data); cursor <= off < cursor + align)
      ensures inRetain ==> data == old(data) && retain == off + size
      ensures !inRetain ==> retain == old(retain) && data == off + size
    {
      var cursor := if inRetain then retain else data;
      var mis := cursor % align;
      if mis != 0 { cursor := cursor + (align - mis); }
      off := cursor;
      if inRetain { retain := off + size; } else { data := off + size; }
    }
  }

  /** The tables that binding fills, over one allocator. */
  class Binder {
    const alloc: Allocator
    var globals: Env
    var symbols: seq<RetainEntry>
    var inputSlots: nat
    var outputSlots: nat

    ghost function Snap(): Bound
      reads this, alloc
    {
      Bound(globals, alloc.data, alloc.retain, symbols, inputSlots, outputSlots)
    }

    constructor ()
      ensures fresh(alloc) && Snap() == NothingBound()
    {
      alloc := new Allocator();
      globals, symbols, inputSlots, outputSlots := map[], [], 0, 0;
    }

    method AllocRetain(v: VarDecl)
      modifies this, alloc
      ensures Snap() == BindRetain(old(Snap()), v)
    {
      var off := alloc.Alloc(ByteWidth(v.ty), Align(v.ty), true);
      symbols := symbols + [RetainEntry(v.name, v.ty, off)];
      globals := globals[v.name := Retain(off, v.ty)];
    }

    method AllocData(v: VarDecl)
      modifies this, alloc
      ensures Snap() == BindData(old(Snap()), v)
    {
      var off := alloc.Alloc(ByteWidth(v.ty), Align(v.ty), false);
      globals := globals[v.name := Data(off, v.ty)];
    }

    method BindOne(kind: SectionKind, v: VarDecl) returns (err: Option<ErrorCode>)
      modifies this, alloc
      ensures var c := BindVar(old(Snap()), kind, v);
              if c.Accept? then err == None && Snap() == c.value else err == Some(c.code)
    {
      if v.name in globals {
        if (kind.SecGlobal? || kind.SecRetain? || kind.SecConstant?) && v.at.Some? { return None; }
        return Some(EDuplicate);
      }
      match v.at {
        case Some((PlaneI, slot)) =>
          inputSlots := Max(inputSlots, slot + 1);
          globals := globals[v.name := Input(slot, v.ty)];
        case Some((PlaneQ, slot)) =>
          outputSlots := Max(outputSlots, slot + 1);
          globals := globals[v.name := Output(slot, v.ty)];
        case Some((PlaneR, _)) => AllocRetain(v);
        case Some((PlaneM, _)) => AllocData(v);
        case None =>
          if kind.SecConstant? {
            if v.init.None? || !v.init.value.Literal? { return Some(EType); }
            globals := globals[v.name := Const(v.init.value.value)];
          } else if kind.SecRetain? {
            AllocRetain(v);
          } else {
            AllocData(v);
          }
      }
      return None;
    }

    /** Binds the sections in order, stopping at the first error. */
    method BindSections(sections: seq<Section>) returns (err: Option<ErrorCode>)
      modifies this, alloc
      ensures var c := BindAll(old(Snap()), sections);
              if c.Accept? then err == None && Snap() == c.value else err == Some(c.code)
    {
      ghost var all := BindAll(Snap(), sections);
      assert sections[0..] == sections;
      for i := 0 to |sections|
        invariant BindAll(Snap(), sections[i..]) == all
      {
        var kind, vars := sections[i].kind, sections[i].vars;
        assert sections[i..][0] == sections[i] && sections[i..][1..] == sections[i + 1..];
        ghost var part := BindSection(Snap(), kind, vars);
        assert vars[0..] == vars;
        for j := 0 to |vars|
          invariant BindSection(Snap(), kind, vars[j..]) == part
        {
          assert vars[j..][0] == vars[j] && vars[j..][1..] == vars[j + 1..];
          var e := BindOne(kind, vars[j]);
          if e.Some? { return e; }
        }
      }
      return None;
    }
  }

  // ----- what binding guarantees -----

  function EntryEnd(e: RetainEntry): nat { e.offset + ByteWidth(e.ty) }

  /** Data and retain variables lie aligned below their cursors without overlap, slots below
      their counts, and the retain table lists exactly the retained variables, each once, in
      ascending order. */
  ghost predicate BoundOk(b: Bound)
  {
    DataOk(b) && SlotsOk(b) && SymbolsOk(b)
  }

  ghost predicate DataOk(b: Bound)
  {
    && DataDisjoint(b.globals)
    && forall x :: InData(b.globals, x) ==> DataEnd(b.globals[x]) <= b.data && b.globals[x].offset % Align(b.globals[x].ty) == 0
  }

  ghost predicate SlotsOk(b: Bound)
  {
    && (forall x :: x in b.globals && b.globals[x].Input? ==> b.globals[x].slot < b.inputSlots)
    && (forall x :: InOutput(b.globals, x) ==> b.globals[x].slot < b.outputSlots)
  }

  ghost predicate SymbolsOk(b: Bound)
  {
    && (forall i :: 0 <= i < |b.symbols| ==>
          EntryEnd(b.symbols[i]) <= b.retain && b.symbols[i].offset % Align(b.symbols[i].ty) == 0)
    && (forall i, j :: 0 <= i < j < |b.symbols| ==>
          EntryEnd(b.symbols[i]) <= b.symbols[j].offset && b.symbols[i].name != b.symbols[j].name)
    && (forall i :: 0 <= i < |b.symbols| ==>
          b.symbols[i].name in b.globals && b.globals[b.symbols[i].name] == Retain(b.symbols[i].offset, b.symbols[i].ty))
    && (forall x :: InRetain(b.globals, x) ==> Listed(b, x))
  }

  ghost predicate Listed(b: Bound, x: string)
  {
    exists i :: 0 <= i < |b.symbols| && b.symbols[i].name == x
  }

  lemma SymbolAdded(b: Bound, v: VarDecl)
    requires SymbolsOk(b) && v.name !in b.globals
    ensures SymbolsOk(BindRetain(b, v))
  {
    hide AlignUp, Align;
    var c := BindRetain(b, v);
    var n := |b.symbols|;
    forall x | InRetain(c.globals, x) ensures Listed(c, x) {
      if x == v.name {
        assert c.symbols[n].name == x;
      } else {
        assert InRetain(b.globals, x);
        var i :| 0 <= i < n && b.symbols[i].name == x;
        assert c.symbols[i].name == x;
      }
    }
  }

  /** Adding any other storage leaves the retain table right. */
  lemma SymbolsStay(b: Bound, c: Bound, x: string)
    requires SymbolsOk(b) && x !in b.globals && x in c.globals && !c.globals[x].Retain?
    requires c.globals == b.globals[x := c.globals[x]] && c.symbols == b.symbols && c.retain == b.retain
    ensures SymbolsOk(c)
  {
    forall y | InRetain(c.globals, y) ensures Listed(c, y) {
      assert InRetain(b.globals, y) && Listed(b, y);
    }
  }

  lemma BindRetainKeeps(b: Bound, v: VarDecl)
    requires BoundOk(b) && v.name !in b.globals
    ensures BoundOk(BindRetain(b, v))
  {
    SymbolAdded(b, v);
    hide SymbolsOk;
  }

  lemma BindDataKeeps(b: Bound, v: VarDecl)
    requires BoundOk(b) && v.name !in b.globals
    ensures BoundOk(BindData(b, v))
  {
    hide SymbolsOk;
    SymbolsStay(b, BindData(b, v), v.name);
  }

  lemma BindOtherKeeps(b: Bound, x: string, st: Storage, ins: nat, outs: nat)
    requires BoundOk(b) && x !in b.globals && !st.Data? && !st.Retain?
    requires ins >= b.inputSlots && outs >= b.outputSlots
    requires st.Input? ==> st.slot < ins
    requires st.Output? ==> st.slot < outs
    ensures BoundOk(b.(globals := b.globals[x := st], inputSlots := ins, outputSlots := outs))
  {
    hide SymbolsOk;
    SymbolsStay(b, b.(globals := b.globals[x := st], inputSlots := ins, outputSlots := outs), x);
  }

  lemma BindVarKeeps(b: Bound, kind: SectionKind, v: VarDecl)
    requires BoundOk(b) && BindVar(b, kind, v).Accept?
    ensures BoundOk(BindVar(b, kind, v).value)
  {
    hide BoundOk;
    if v.name !in b.globals {
      match v.at {
        case Some((PlaneI, slot)) =>
          BindOtherKeeps(b, v.name, Input(slot, v.ty), Max(b.inputSlots, slot + 1), b.outputSlots);
        case Some((PlaneQ, slot)) =>
          BindOtherKeeps(b, v.name, Output(slot, v.ty), b.inputSlots, Max(b.outputSlots, slot + 1));
        case Some((PlaneR, _)) => BindRetainKeeps(b, v);
        case Some((PlaneM, _)) => BindDataKeeps(b, v);
        case None =>
          if kind.SecConstant? {
            BindOtherKeeps(b, v.name, Const(v.init.value.value), b.inputSlots, b.outputSlots);
          } else if kind.SecRetain? {
            BindRetainKeeps(b, v);
          } else {
            BindDataKeeps(b, v);
          }
      }
    }
  }

  lemma {:induction false} BindSectionKeeps(b: Bound, kind: SectionKind, vars: seq<VarDecl>)
    requires BoundOk(b) && BindSection(b, kind, vars).Accept?
    ensures BoundOk(BindSection(b, kind, vars).value)
    decreases |vars|
  {
    hide BoundOk, BindVar;
    if vars != [] {
      BindVarKeeps(b, kind, vars[0]);
      BindSectionKeeps(BindVar(b, kind, vars[0]).value, kind, vars[1..]);
    }
  }

  /** Whatever is declared, the layout that binding accepts is sound. */
  lemma {:induction false} BindAllKeeps(b: Bound, sections: seq<Section>)
    requires BoundOk(b) && BindAll(b, sections).Accept?
    ensures BoundOk(BindAll(b, sections).value)
    decreases |sections|
  {
    hide BoundOk, BindSection;
    if sections != [] {
      BindSectionKeeps(b, sections[0].kind, sections[0].vars);
      BindAllKeeps(BindSection(b, sections[0].kind, sections[0].vars).value, sections[1..]);
    }
  }

  lemma NothingBoundOk()
    ensures BoundOk(NothingBound())
  {}

  /** Retained variables do not overlap. */
  lemma RetainDisjoint(b: Bound, x: string, y: string)
    requires BoundOk(b) && InRetain(b.globals, x) && InRetain(b.globals, y) && x != y
    ensures b.globals[x].offset + ByteWidth(b.globals[x].ty) <= b.retain
    ensures b.globals[x].offset + ByteWidth(b.globals[x].ty) <= b.globals[y].offset
            || b.globals[y].offset + ByteWidth(b.globals[y].ty) <= b.globals[x].offset
  {
    assert Listed(b, x) && Listed(b, y);
    var i :| 0 <= i < |b.symbols| && b.symbols[i].name == x;
    var j :| 0 <= j < |b.symbols| && b.symbols[j].name == y;
    assert i < j || j < i;
  }
}
