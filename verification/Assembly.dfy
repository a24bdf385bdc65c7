/** Code with unresolved jumps: the listing behind a half-emitted byte stream, what it
    stands for once its labels are known, and the final patching. */
module Assembly {
  import opened Bytes
  import opened Ir
  import opened Lower

  datatype Sym = Plain(i: Instr) | Jump(op: Opcode, target: nat)

  /** What is emitted for a symbol at first: a jump to 0. */
  function Placeholder(s: Sym): Instr
  {
    match s
    case Plain(i) => i
    case Jump(op, _) => Simple(op, 0)
  }

  predicate StandsFor(s: Sym, labels: map<nat, nat>, i: Instr)
  {
    match s
    case Plain(j) => j == i
    case Jump(op, l) => l in labels && i == Simple(op, labels[l])
  }

  predicate Stands(part: seq<Sym>, labels: map<nat, nat>, ins: seq<Instr>)
  {
    |part| == |ins| && forall k :: 0 <= k < |part| ==> StandsFor(part[k], labels, ins[k])
  }

  function Assemble(listing: seq<Sym>): seq<byte>
  {
    if listing == [] then []
    else
      var n := |listing| - 1;
      Assemble(listing[..n]) + Encode(Placeholder(listing[n]))
  }

  /** Positions and labels of the jumps. */
  function FixupsOf(listing: seq<Sym>): seq<(nat, nat)>
  {
    if listing == [] then []
    else
      var n := |listing| - 1;
      FixupsOf(listing[..n])
      + (if listing[n].Jump? then [(|Assemble(listing[..n])|, listing[n].target)] else [])
  }

  function EncodeAll(ins: seq<Instr>): seq<byte>
  {
    if ins == [] then []
    else
      var n := |ins| - 1;
      EncodeAll(ins[..n]) + Encode(ins[n])
  }

  /** Replaces the payload of the word at `off`; the opcode byte stays. */
  function Patch(code: seq<byte>, off: nat, pc: nat): (r: seq<byte>)
    requires off + 4 <= |code|
    ensures |r| == |code|
  {
    code[..off] + Bytes.Le(pc, 3) + code[off + 3..]
  }

  ghost predicate Patchable(code: seq<byte>, fixups: seq<(nat, nat)>, labels: map<nat, nat>)
  {
    forall k :: 0 <= k < |fixups| ==> fixups[k].0 + 4 <= |code| && fixups[k].1 in labels
  }

  function PatchAll(code: seq<byte>, fixups: seq<(nat, nat)>, labels: map<nat, nat>): (r: seq<byte>)
    requires Patchable(code, fixups, labels)
    ensures |r| == |code|
  {
    if fixups == [] then code
    else
      var n := |fixups| - 1;
      Patch(PatchAll(code, fixups[..n], labels), fixups[n].0, labels[fixups[n].1])
  }

  lemma {:induction false} PatchPrefix(code: seq<byte>, tail: seq<byte>, fixups: seq<(nat, nat)>, labels: map<nat, nat>)
    requires Patchable(code, fixups, labels)
    ensures Patchable(code + tail, fixups, labels)
    ensures PatchAll(code + tail, fixups, labels) == PatchAll(code, fixups, labels) + tail
  {
    if fixups != [] {
      var n := |fixups| - 1;
      PatchPrefix(code, tail, fixups[..n], labels);
      var p, off := PatchAll(code, fixups[..n], labels), fixups[n].0;
      var le := Bytes.Le(labels[fixups[n].1], 3);
      assert (p + tail)[..off] == p[..off];
      assert (p + tail)[off + 3..] == p[off + 3..] + tail;
      assert p[..off] + le + (p[off + 3..] + tail) == (p[..off] + le + p[off + 3..]) + tail;
    }
  }

  lemma JumpPatched(done: seq<byte>, s: Sym, labels: map<nat, nat>, i: Instr)
    requires s.Jump? && StandsFor(s, labels, i)
    ensures Patch(done + Encode(Placeholder(s)), |done|, labels[s.target]) == done + Encode(i)
  {
    var tail := Encode(Placeholder(s));
    assert (done + tail)[..|done|] == done;
    assert (done + tail)[|done| + 3..] == [OpByte(s.op)];
  }

  /** Patching the jumps of a listing gives the encoding of what it stands for. */
  lemma {:induction false} PatchedListing(listing: seq<Sym>, labels: map<nat, nat>, ins: seq<Instr>)
    requires Stands(listing, labels, ins)
    ensures Patchable(Assemble(listing), FixupsOf(listing), labels)
    ensures PatchAll(Assemble(listing), FixupsOf(listing), labels) == EncodeAll(ins)
    decreases listing
  {
    if listing != [] {
      var n := |listing| - 1;
      var front, fx, s := Assemble(listing[..n]), FixupsOf(listing[..n]), listing[n];
      var tail := Encode(Placeholder(s));
      PatchedListing(listing[..n], labels, ins[..n]);
      PatchPrefix(front, tail, fx, labels);
      assert StandsFor(s, labels, ins[n]);
      if s.Jump? {
        var all := FixupsOf(listing);
        assert all == fx + [(|front|, s.target)] && all[..|fx|] == fx;
        JumpPatched(EncodeAll(ins[..n]), s, labels, ins[n]);
      } else {
        assert FixupsOf(listing) == fx;
      }
    }
  }

  // ----- emission -----

  /** What matters about the emitter: its listing, placed labels, next label, code size. */
  datatype Asm = Asm(listing: seq<Sym>, labels: map<nat, nat>, labelId: nat, size: nat)

  function AddSym(a: Asm, s: Sym): Asm
  {
    a.(listing := a.listing + [s], size := a.size + Size(Placeholder(s)))
  }

  function TakeLabel(a: Asm): Asm { a.(labelId := a.labelId + 1) }

  function SetLabel(a: Asm, l: nat): Asm { a.(labels := a.labels[l := a.size]) }

  ghost predicate Grown(a: Asm, b: Asm)
  {
    && a.listing <= b.listing && a.labelId <= b.labelId
    && (forall k :: k in a.labels ==> k in b.labels && b.labels[k] == a.labels[k])
    && (forall k :: k in b.labels && k !in a.labels ==> a.labelId <= k < b.labelId)
  }

  /** From `a` to `b` the code `ins` was emitted, given where the pending labels will be. */
  ghost predicate Emits(a: Asm, b: Asm, pend: map<nat, nat>, ins: seq<Instr>)
  {
    && Grown(a, b)
    && b.size == a.size + CodeSize(ins)
    && Stands(b.listing[|a.listing|..], b.labels + pend, ins)
  }

  lemma EmitsNothing(a: Asm, pend: map<nat, nat>)
    ensures Emits(a, a, pend, [])
  {}

  lemma EmitsOne(a: Asm, s: Sym, pend: map<nat, nat>, i: Instr)
    requires StandsFor(s, a.labels + pend, i)
    ensures Emits(a, AddSym(a, s), pend, [i])
  {
    assert (a.listing + [s])[|a.listing|..] == [s];
    assert CodeSize([i]) == Size(i);
  }

  lemma StandsMore(part: seq<Sym>, l1: map<nat, nat>, l2: map<nat, nat>, ins: seq<Instr>)
    requires Stands(part, l1, ins) && forall k :: k in l1 ==> k in l2 && l2[k] == l1[k]
    ensures Stands(part, l2, ins)
  {
    forall k | 0 <= k < |part| ensures StandsFor(part[k], l2, ins[k]) {
      assert StandsFor(part[k], l1, ins[k]);
    }
  }

  lemma StandsAppend(p: seq<Sym>, q: seq<Sym>, labels: map<nat, nat>, x: seq<Instr>, y: seq<Instr>)
    requires Stands(p, labels, x) && Stands(q, labels, y)
    ensures Stands(p + q, labels, x + y)
  {}

  lemma EmitsThen(a: Asm, b: Asm, c: Asm, pend: map<nat, nat>, x: seq<Instr>, y: seq<Instr>)
    requires Emits(a, b, pend, x) && Emits(b, c, pend, y)
    ensures Emits(a, c, pend, x + y)
  {
    hide Stands;
    CodeSizeAppend(x, y);
    var p, q := b.listing[|a.listing|..], c.listing[|b.listing|..];
    StandsMore(p, b.labels + pend, c.labels + pend, x);
    StandsAppend(p, q, c.labels + pend, x, y);
    assert b.listing == a.listing + p && c.listing == b.listing + q;
    assert c.listing == a.listing + (p + q);
    assert c.listing[|a.listing|..] == p + q;
  }

  /** More pending labels may be known. */
  lemma EmitsWeaken(a: Asm, b: Asm, pend: map<nat, nat>, more: map<nat, nat>, ins: seq<Instr>)
    requires Emits(a, b, pend, ins)
    requires forall k :: k in pend ==> k in more && more[k] == pend[k]
    requires forall k :: k in more && k !in pend ==> k !in b.labels
    ensures Emits(a, b, more, ins)
  {
    hide Stands;
    StandsMore(b.listing[|a.listing|..], b.labels + pend, b.labels + more, ins);
  }

  lemma EmitsFresh(a: Asm, b: Asm, pend: map<nat, nat>, ins: seq<Instr>)
    requires Emits(a, b, pend, ins)
    ensures Emits(a, TakeLabel(b), pend, ins)
  {}

  /** A pending label is placed where it was expected. */
  lemma EmitsPlace(a: Asm, b: Asm, l: nat, pend: map<nat, nat>, left: map<nat, nat>, ins: seq<Instr>)
    requires Emits(a, b, pend, ins) && a.labelId <= l < b.labelId && l !in b.labels
    requires forall k :: k in pend ==> (k in left && left[k] == pend[k]) || (k == l && pend[k] == b.size)
    requires forall k :: k in left ==> k in pend && k != l
    ensures Emits(a, SetLabel(b, l), left, ins)
  {
    hide Stands;
    StandsMore(b.listing[|a.listing|..], b.labels + pend, b.labels[l := b.size] + left, ins);
  }

  /** One more symbol. */
  lemma EmitsAdd(a: Asm, b: Asm, s: Sym, pend: map<nat, nat>, ins: seq<Instr>, i: Instr)
    requires Emits(a, b, pend, ins) && StandsFor(s, b.labels + pend, i)
    ensures Emits(a, AddSym(b, s), pend, ins + [i])
  {
    hide Emits, StandsFor;
    EmitsOne(b, s, pend, i);
    EmitsThen(a, b, AddSym(b, s), pend, ins, [i]);
  }

  /** A finished piece, emitted while older labels are still pending. */
  lemma EmitsSub(a: Asm, b: Asm, c: Asm, pend: map<nat, nat>, ins: seq<Instr>, more: seq<Instr>)
    requires Emits(a, b, pend, ins) && Emits(b, c, map[], more)
    requires forall k :: k in pend ==> k < b.labelId && k !in b.labels
    ensures Emits(a, c, pend, ins + more)
    ensures forall k :: k in pend ==> k < c.labelId && k !in c.labels
  {
    hide Stands;
    EmitsWeaken(b, c, map[], pend, more);
    EmitsThen(a, b, c, pend, ins, more);
  }

  // ----- from bytes to decodable instructions -----

  lemma {:induction false} EncodeAllAppend(a: seq<Instr>, b: seq<Instr>)
    ensures EncodeAll(a + b) == EncodeAll(a) + EncodeAll(b)
    decreases b
  {
    hide Encode;
    if b == [] {
      assert a + b == a;
    } else {
      var n := |b| - 1;
      EncodeAllAppend(a, b[..n]);
      assert (a + b)[..|a| + n] == a + b[..n] && (a + b)[|a| + n] == b[n];
      assert EncodeAll(a + b) == EncodeAll(a + b[..n]) + Encode(b[n]);
    }
  }

  lemma {:induction false} EncodeAllSize(ins: seq<Instr>)
    ensures |EncodeAll(ins)| == CodeSize(ins)
    decreases ins
  {
    if ins != [] {
      EncodeAllSize(ins[1..]);
      assert ins == [ins[0]] + ins[1..];
      EncodeAllAppend([ins[0]], ins[1..]);
      assert EncodeAll([ins[0]]) == Encode(ins[0]);
    }
  }
}
