/** Code sizes of the fixed instruction groups. */
module Sizes {
  import opened Ir
  import opened Lower

  lemma OneSize(i: Instr)
    ensures CodeSize([i]) == Size(i)
  {}

  lemma JoinSize(a: seq<Instr>, b: seq<Instr>, c: seq<Instr>)
    ensures CodeSize(a + b + c) == CodeSize(a) + CodeSize(b) + CodeSize(c)
  {
    CodeSizeAppend(a + b, c);
    CodeSizeAppend(a, b);
  }

  lemma FourSize(a: Instr, b: Instr, c: Instr, d: Instr)
    ensures CodeSize([a, b, c, d]) == Size(a) + Size(b) + Size(c) + Size(d)
  {
    assert [a, b, c, d] == [a] + [b] + [c] + [d];
    JoinSize([a] + [b], [c], [d]);
    CodeSizeAppend([a], [b]);
    OneSize(a);
    OneSize(b);
    OneSize(c);
    OneSize(d);
  }

  lemma {:induction false} TestsSize(tmp: nat, labels: seq<int>, body: nat, next: nat)
    ensures CodeSize(LabelTests(tmp, labels, body, next)) == 20 * |labels|
  {
    if labels != [] {
      TestsSize(tmp, labels[1..], body, next);
      var test := [Simple(LdData, tmp), WithImm32(PushIDint, 0, labels[0] % 0x1_0000_0000), Simple(Eq, 0),
                   if |labels| == 1 then Simple(JmpIfNot, next) else Simple(JmpIf, body)];
      CodeSizeAppend(test, LabelTests(tmp, labels[1..], body, next));
      FourSize(test[0], test[1], test[2], test[3]);
    }
  }

  lemma GroupSizes(cap: nat, counter: nat, head: nat, end: nat)
    ensures CodeSize(StartCounter(cap, counter)) == 12
    ensures CodeSize(CounterTest(counter, end)) == 20
    ensures CodeSize(CountDown(counter, head)) == 24
  {
    assert StartCounter(cap, counter) == [PushDint(cap)] + [Simple(StData, counter)];
    CodeSizeAppend([PushDint(cap)], [Simple(StData, counter)]);
    FourSize(Simple(LdData, counter), PushDint(0), Simple(Eq, 0), Simple(JmpIf, end));
    var four := [Simple(LdData, counter), PushDint(1), Simple(Sub, 0), Simple(StData, counter)];
    assert CountDown(counter, head) == four + [Simple(Jmp, head)];
    FourSize(four[0], four[1], four[2], four[3]);
    CodeSizeAppend(four, [Simple(Jmp, head)]);
  }

  lemma ForGroupSizes(varOff: nat, limit: nat, inc: nat, end: nat)
    ensures CodeSize(LimitTest(varOff, limit, end)) == 16 && CodeSize(Advance(varOff, inc)) == 16
  {
    FourSize(Simple(LdData, varOff), Simple(LdData, limit), Simple(Gt, 0), Simple(JmpIf, end));
    FourSize(Simple(LdData, varOff), Simple(LdData, inc), Simple(Add, 0), Simple(StData, varOff));
  }
}
