/** Laying out user function blocks and checking them for recursion: the layout fixpoint, and
    why the check after it ends (crates/plc-compiler/src/bind.rs). Sizes and offsets are not
    part of this model, and case-folded names are numbered. */
module FbLayout {

  type Name = nat

  /** `types` are the type names its variables mention; `bad` says that some variable is
      rejected whatever else is known. */
  datatype Fb = Fb(types: seq<Name>, bad: bool)

  type Fbs = map<Name, Fb>

  const MAX_ROUNDS: nat := 10000

  /** What must be laid out first: elementary and primitive names are taken as such even when
      a block has the same name. */
  predicate DependsOn(fb: Fb, reserved: set<Name>, d: Name) { d in fb.types && d !in reserved }

  predicate Ready(fb: Fb, reserved: set<Name>, known: set<Name>)
  {
    !fb.bad && forall k :: 0 <= k < |fb.types| ==> fb.types[k] in reserved || fb.types[k] in known
  }

  /** Every block can be laid out after those it depends on. */
  ghost predicate Ranked(fbs: Fbs, reserved: set<Name>, rank: map<Name, nat>)
  {
    && (forall n :: n in fbs ==> n in rank && !fbs[n].bad)
    && (forall n, d :: n in fbs && DependsOn(fbs[n], reserved, d) ==> d in fbs && rank[d] < rank[n])
  }

  ghost predicate Layable(fbs: Fbs, reserved: set<Name>)
  {
    exists rank: map<Name, nat> :: Ranked(fbs, reserved, rank)
  }

  datatype LayoutResult = LaidOut | Stuck(name: Name) | TooManyRounds

  /** The blocks laid out so far, ranked by when. */
  ghost predicate Progress(fbs: Fbs, reserved: set<Name>, known: set<Name>, rank: map<Name, nat>)
  {
    && rank.Keys == known && known <= fbs.Keys
    && (forall n :: n in known ==> !fbs[n].bad && rank[n] < |known|)
    && (forall n, d :: n in known && DependsOn(fbs[n], reserved, d) ==> d in known && rank[d] < rank[n])
  }

  ghost predicate Listed(fbs: Fbs, known: set<Name>, pending: seq<Name>)
  {
    && (forall i :: 0 <= i < |pending| ==> pending[i] in fbs && pending[i] !in known)
    && (forall n :: n in fbs ==> n in known || n in pending)
    && (forall i, j :: 0 <= i < j < |pending| ==> pending[i] != pending[j])
  }

  /** One round: lays out every pending block that is ready when its turn comes. */
  method Round(fbs: Fbs, reserved: set<Name>, was: set<Name>, ghost ranked: map<Name, nat>, pending: seq<Name>)
      returns (known: set<Name>, ghost rank: map<Name, nat>, keep: seq<Name>)
    requires Progress(fbs, reserved, was, ranked) && Listed(fbs, was, pending)
    ensures Progress(fbs, reserved, known, rank) && Listed(fbs, known, keep) && |keep| <= |pending|
    ensures |keep| == |pending| ==> known == was && keep == pending && NoneReady(fbs, reserved, known, pending)
  {
    hide Progress, Listed, Ready;
    known, rank, keep := was, ranked, [];
    assert [] + pending[0..] == pending;
    for i := 0 to |pending|
      invariant Progress(fbs, reserved, known, rank) && Listed(fbs, known, keep + pending[i..])
      invariant |keep| <= i && (|keep| == i ==> known == was && keep == pending[..i] && NoneReady(fbs, reserved, was, pending[..i]))
    {
      var name := pending[i];
      Split(fbs, known, keep, pending, i);
      if Ready(fbs[name], reserved, known) {
        LaidOutFacts(fbs, reserved, known, rank, name);
        rank := rank[name := |known|];
        known := known + {name};
      } else {
        assert keep + [name] + pending[i + 1..] == keep + pending[i..];
        assert pending[..i + 1] == pending[..i] + [name];
        keep := keep + [name];
      }
    }
    assert keep + pending[|pending|..] == keep && pending[..|pending|] == pending;
  }

  ghost predicate NoneReady(fbs: Fbs, reserved: set<Name>, known: set<Name>, pending: seq<Name>)
  {
    forall k :: 0 <= k < |pending| ==> pending[k] in fbs && !Ready(fbs[pending[k]], reserved, known)
  }

  /** Rounds over the pending blocks until none is left or a round makes no progress. Success
      means the composition is acyclic, and getting stuck that it is not or that some block
      is bad; the bound on rounds matters only beyond ten thousand blocks. */
  method LayoutAll(fbs: Fbs, reserved: set<Name>, names: seq<Name>) returns (r: LayoutResult)
    requires Listed(fbs, {}, names)
    ensures r.LaidOut? ==> Layable(fbs, reserved)
    ensures r.Stuck? ==> !Layable(fbs, reserved)
    ensures r.TooManyRounds? ==> |fbs| > MAX_ROUNDS
  {
    hide Progress, Listed, Ready, Layable;
    var known: set<Name> := {};
    ghost var rank: map<Name, nat> := map[];
    var pending := names;
    var guard := 0;
    ListedCount(fbs, {}, names);
    NothingKnown(fbs, reserved);
    while pending != []
      invariant Progress(fbs, reserved, known, rank) && Listed(fbs, known, pending)
      invariant guard + |pending| <= |fbs|
      decreases |pending|
    {
      guard := guard + 1;
      if guard > MAX_ROUNDS { return TooManyRounds; }
      var before := |pending|;
      known, rank, pending := Round(fbs, reserved, known, rank, pending);
      if |pending| == before {
        StuckFacts(fbs, reserved, known, pending);
        return Stuck(pending[0]);
      }
    }
    AllLaidOut(fbs, reserved, known, rank);
    r := LaidOut;
  }

  lemma NothingKnown(fbs: Fbs, reserved: set<Name>) ensures Progress(fbs, reserved, {}, map[]) {}

  lemma AllLaidOut(fbs: Fbs, reserved: set<Name>, known: set<Name>, rank: map<Name, nat>)
    requires Progress(fbs, reserved, known, rank) && Listed(fbs, known, [])
    ensures Layable(fbs, reserved)
  {
    assert Ranked(fbs, reserved, rank);
  }

  lemma {:induction false} ListedCount(fbs: Fbs, known: set<Name>, pending: seq<Name>)
    requires Listed(fbs, known, pending)
    ensures |pending| <= |fbs|
  {
    SeqCount(pending, fbs.Keys);
  }

  lemma {:induction false} SeqCount(s: seq<Name>, t: set<Name>)
    requires (forall i :: 0 <= i < |s| ==> s[i] in t) && forall i, j :: 0 <= i < j < |s| ==> s[i] != s[j]
    ensures |s| <= |t|
    decreases s
  {
    if s != [] {
      var n := |s| - 1;
      forall i | 0 <= i < n ensures s[..n][i] in t - {s[n]} {}
      SeqCount(s[..n], t - {s[n]});
    }
  }

  /** Taking the next pending name off the list. */
  lemma Split(fbs: Fbs, known: set<Name>, keep: seq<Name>, pending: seq<Name>, i: nat)
    requires i < |pending| && Listed(fbs, known, keep + pending[i..])
    ensures pending[i] in fbs && pending[i] !in known
    ensures Listed(fbs, known + {pending[i]}, keep + pending[i + 1..])
  {
    var all, rest := keep + pending[i..], keep + pending[i + 1..];
    assert all[|keep|] == pending[i];
    forall k | 0 <= k < |rest| ensures rest[k] == all[if k < |keep| then k else k + 1] {}
    forall n | n in all && n != pending[i] ensures n in rest {
      var k :| 0 <= k < |all| && all[k] == n;
      assert rest[if k < |keep| then k else k - 1] == n;
    }
  }

  lemma LaidOutFacts(fbs: Fbs, reserved: set<Name>, known: set<Name>, rank: map<Name, nat>, name: Name)
    requires Progress(fbs, reserved, known, rank) && name in fbs && name !in known && Ready(fbs[name], reserved, known)
    ensures Progress(fbs, reserved, known + {name}, rank[name := |known|])
  {
    LaidOutRanks(fbs, reserved, known, rank, name);
    forall n, d | n in known + {name} && DependsOn(fbs[n], reserved, d)
      ensures d in known + {name} && rank[name := |known|][d] < rank[name := |known|][n]
    {
      OneDependency(fbs, reserved, known, rank, name, n, d);
    }
  }

  lemma LaidOutRanks(fbs: Fbs, reserved: set<Name>, known: set<Name>, rank: map<Name, nat>, name: Name)
    requires Progress(fbs, reserved, known, rank) && name in fbs && name !in known && Ready(fbs[name], reserved, known)
    ensures rank[name := |known|].Keys == known + {name} && |known + {name}| == |known| + 1 && known + {name} <= fbs.Keys
    ensures forall n :: n in known + {name} ==> !fbs[n].bad && rank[name := |known|][n] < |known + {name}|
  {
    hide DependsOn, Ready;
    NotBad(fbs[name], reserved, known);
  }

  lemma OneDependency(fbs: Fbs, reserved: set<Name>, known: set<Name>, rank: map<Name, nat>, name: Name, n: Name, d: Name)
    requires Progress(fbs, reserved, known, rank) && name in fbs && name !in known && Ready(fbs[name], reserved, known)
    requires n in known + {name} && DependsOn(fbs[n], reserved, d)
    ensures d in known && (if n == name then rank[d] < |known| else n in known && rank[d] < rank[n])
  {
    hide DependsOn, Ready;
    if n == name { ReadyFacts(fbs[name], reserved, known, d); }
  }

  lemma NotBad(fb: Fb, reserved: set<Name>, known: set<Name>)
    requires Ready(fb, reserved, known)
    ensures !fb.bad
  {}

  lemma ReadyFacts(fb: Fb, reserved: set<Name>, known: set<Name>, d: Name)
    requires Ready(fb, reserved, known) && DependsOn(fb, reserved, d)
    ensures d in known
  {}

  /** When no pending block is ready, no order of layout exists. */
  lemma StuckFacts(fbs: Fbs, reserved: set<Name>, known: set<Name>, pending: seq<Name>)
    requires Listed(fbs, known, pending) && pending != [] && NoneReady(fbs, reserved, known, pending)
    ensures !Layable(fbs, reserved)
  {
    if Layable(fbs, reserved) {
      var rank: map<Name, nat> :| Ranked(fbs, reserved, rank);
      NoLeast(fbs, reserved, known, pending, rank, 0);
    }
  }

  /** A pending block with least rank would be ready. */
  lemma {:induction false} NoLeast(fbs: Fbs, reserved: set<Name>, known: set<Name>, pending: seq<Name>, rank: map<Name, nat>, k: nat)
    requires Listed(fbs, known, pending) && k < |pending|
    requires forall j :: 0 <= j < |pending| ==> !Ready(fbs[pending[j]], reserved, known)
    ensures !Ranked(fbs, reserved, rank)
    decreases if pending[k] in rank then rank[pending[k]] else 0
  {
    if Ranked(fbs, reserved, rank) {
      var fb := fbs[pending[k]];
      var t :| 0 <= t < |fb.types| && fb.types[t] !in reserved && fb.types[t] !in known;
      assert DependsOn(fb, reserved, fb.types[t]);
      var j: nat :| j < |pending| && pending[j] == fb.types[t];
      NoLeast(fbs, reserved, known, pending, rank, j);
    }
  }

  // ----- the recursion check -----

  /** Blocks a block's variables name, in order. */
  function Targets(fbs: Fbs, types: seq<Name>): (ts: seq<Name>)
    ensures forall k :: 0 <= k < |ts| ==> ts[k] in fbs && ts[k] in types
  {
    if types == [] then []
    else
      var n := |types| - 1;
      Targets(fbs, types[..n]) + if types[n] in fbs then [types[n]] else []
  }

  function Edges(fbs: Fbs, n: Name): (ts: seq<Name>)
    ensures forall k :: 0 <= k < |ts| ==> ts[k] in fbs
  {
    if n in fbs then Targets(fbs, fbs[n].types) else []
  }

  /** The walk from one block: a stack of blocks to expand, until one of them names the start
      or none is left. The set of blocks on the path never holds more than the block being
      expanded, so nothing is remembered. */
  datatype Walk = Walking(stack: seq<Name>) | Rejected | Finished

  /** One node expanded. */
  function Expand(fbs: Fbs, start: Name, w: Walk): Walk
  {
    if !w.Walking? then w
    else if w.stack == [] then Finished
    else
      var n := |w.stack| - 1;
      var ts := Edges(fbs, w.stack[n]);
      if start in ts then Rejected else Walking(w.stack[..n] + ts)
  }

  function After(fbs: Fbs, start: Name, w: Walk, k: nat): Walk
  {
    if k == 0 then w else Expand(fbs, start, After(fbs, start, w, k - 1))
  }

  function Walked(fbs: Fbs, start: Name, k: nat): Walk { After(fbs, start, Walking([start]), k) }

  ghost predicate Finishes(fbs: Fbs, start: Name) { exists k: nat :: Walked(fbs, start, k).Finished? }

  ghost predicate Rejects(fbs: Fbs, start: Name) { exists k: nat :: Walked(fbs, start, k).Rejected? }

  lemma {:induction false} AfterAdd(fbs: Fbs, start: Name, w: Walk, a: nat, b: nat)
    ensures After(fbs, start, w, a + b) == After(fbs, start, After(fbs, start, w, a), b)
    decreases b
  {
    hide Expand;
    if b > 0 { AfterAdd(fbs, start, w, a, b - 1); }
  }

  /** A walk that has ended stays as it ended. */
  lemma {:induction false} EndStays(fbs: Fbs, start: Name, w: Walk, a: nat, b: nat)
    requires a <= b && !After(fbs, start, w, a).Walking?
    ensures After(fbs, start, w, b) == After(fbs, start, w, a)
    decreases b
  {
    if a < b { EndStays(fbs, start, w, a, b - 1); }
  }

  lemma OneEnd(fbs: Fbs, start: Name)
    ensures !(Finishes(fbs, start) && Rejects(fbs, start))
  {
    if Finishes(fbs, start) && Rejects(fbs, start) {
      var a: nat :| Walked(fbs, start, a).Finished?;
      var b: nat :| Walked(fbs, start, b).Rejected?;
      EndStays(fbs, start, Walking([start]), if a < b then a else b, if a < b then b else a);
    }
  }

  /** The walks are made in turn until one rejects; each of those made must end. */
  ghost predicate CheckEnds(fbs: Fbs, starts: seq<Name>)
  {
    forall i :: 0 <= i < |starts| && (forall j :: 0 <= j < i ==> !Rejects(fbs, starts[j])) ==>
      Finishes(fbs, starts[i]) || Rejects(fbs, starts[i])
  }

  /** The check, whenever it ends: it accepts exactly when every walk finishes. */
  method CheckRecursion(fbs: Fbs, starts: seq<Name>) returns (rejected: bool)
    requires CheckEnds(fbs, starts)
    ensures !rejected ==> forall i :: 0 <= i < |starts| ==> Finishes(fbs, starts[i])
    ensures rejected ==> exists i :: 0 <= i < |starts| && Rejects(fbs, starts[i])
  {
    hide Walked;
    for s := 0 to |starts|
      invariant forall i :: 0 <= i < s ==> Finishes(fbs, starts[i])
    {
      forall j | 0 <= j < s ensures !Rejects(fbs, starts[j]) { OneEnd(fbs, starts[j]); }
      ghost var bound: nat :| !Walked(fbs, starts[s], bound).Walking?;
      rejected := WalkFrom(fbs, starts[s], bound);
      if rejected { return; }
    }
    rejected := false;
  }

  method WalkFrom(fbs: Fbs, start: Name, ghost bound: nat) returns (rejected: bool)
    requires !Walked(fbs, start, bound).Walking?
    ensures rejected == Walked(fbs, start, bound).Rejected?
  {
    hide Edges;
    var stack := [start];
    var path: set<Name> := {};
    ghost var k: nat := 0;
    while stack != []
      invariant path == {} && k <= bound && Walked(fbs, start, k) == Walking(stack)
      decreases bound - k
    {
      EndsLater(fbs, start, k, bound);
      var n := stack[|stack| - 1];
      stack := stack[..|stack| - 1];
      if n in path { return true; }
      path := path + {n};
      rejected, stack := ExpandNode(fbs, start, stack, n);
      if rejected { return; }
      path := path - {n};
      k := k + 1;
    }
    EndsLater(fbs, start, k, bound);
    rejected := false;
  }

  lemma EndsLater(fbs: Fbs, start: Name, k: nat, bound: nat)
    requires k <= bound && Walked(fbs, start, k).Walking? && !Walked(fbs, start, bound).Walking?
    ensures k < bound && Walked(fbs, start, k + 1) == Expand(fbs, start, Walked(fbs, start, k))
    ensures !Walked(fbs, start, k + 1).Walking? ==> Walked(fbs, start, bound) == Walked(fbs, start, k + 1)
  {
    if !Walked(fbs, start, k + 1).Walking? { EndStays(fbs, start, Walking([start]), k + 1, bound); }
  }

  method ExpandNode(fbs: Fbs, start: Name, rest: seq<Name>, n: Name) returns (rejected: bool, stack: seq<Name>)
    ensures Expand(fbs, start, Walking(rest + [n])) == if rejected then Rejected else Walking(stack)
  {
    stack := rest;
    var ts := Edges(fbs, n);
    assert (rest + [n])[..|rest|] == rest;
    hide Edges;
    for k := 0 to |ts|
      invariant start !in ts[..k] && stack == rest + ts[..k]
    {
      if ts[k] == start { return true, stack; }
      assert ts[..k + 1] == ts[..k] + [ts[k]];
      stack := stack + [ts[k]];
    }
    assert ts[..|ts|] == ts;
    rejected := false;
  }

  // ----- when a walk ends -----

  ghost predicate Path(fbs: Fbs, p: seq<Name>)
  {
    p != [] && forall i :: 0 <= i < |p| - 1 ==> p[i + 1] in Edges(fbs, p[i])
  }

  /** A path that comes back to one of its own blocks. */
  ghost predicate Lasso(fbs: Fbs, p: seq<Name>)
  {
    Path(fbs, p) && exists i :: 0 <= i < |p| - 1 && p[i] == p[|p| - 1]
  }

  /** A composition cycle can be reached from the block. */
  ghost predicate Loops(fbs: Fbs, n: Name) { exists p :: Lasso(fbs, p) && p[0] == n }

  /** The block lies on a composition cycle itself. */
  ghost predicate OnCycle(fbs: Fbs, n: Name)
  {
    exists p :: Path(fbs, p) && |p| > 1 && p[0] == n && p[|p| - 1] == n
  }

  /** Whatever reaches a block that loops, loops. */
  lemma PathLoops(fbs: Fbs, p: seq<Name>, t: Name)
    requires Path(fbs, p) && t in Edges(fbs, p[|p| - 1]) && (Loops(fbs, t) || t == p[0])
    ensures Loops(fbs, p[0])
  {
    hide Edges;
    if t == p[0] {
      assert Lasso(fbs, p + [t]) by { assert (p + [t])[0] == (p + [t])[|p|]; }
      assert (p + [t])[0] == p[0];
    } else {
      var q :| Lasso(fbs, q) && q[0] == t;
      var i :| 0 <= i < |q| - 1 && q[i] == q[|q| - 1];
      var r := p + q;
      assert r[|p| + i] == r[|r| - 1] && r[0] == p[0];
      assert Path(fbs, r);
    }
  }

  /** A block that loops names a block that loops. */
  lemma LoopGoesOn(fbs: Fbs, n: Name) returns (k: nat)
    requires Loops(fbs, n)
    ensures k < |Edges(fbs, n)| && Loops(fbs, Edges(fbs, n)[k])
  {
    hide Edges;
    var p :| Lasso(fbs, p) && p[0] == n;
    var i :| 0 <= i < |p| - 1 && p[i] == p[|p| - 1];
    assert p[0 + 1] in Edges(fbs, p[0]);
    k :| 0 <= k < |Edges(fbs, n)| && Edges(fbs, n)[k] == p[1];
    if i > 0 {
      var q := p[1..];
      assert q[i - 1] == q[|q| - 1] && Path(fbs, q);
      assert Lasso(fbs, q) && q[0] == p[1];
    } else {
      var q := p[1..] + [p[1]];
      assert q[0] == q[|q| - 1] && Path(fbs, q);
      assert Lasso(fbs, q);
    }
  }

  lemma RepeatLoops(fbs: Fbs, p: seq<Name>, i: nat, j: nat)
    requires Path(fbs, p) && i < j < |p| && p[i] == p[j]
    ensures Loops(fbs, p[0])
  {
    hide Edges;
    var q := p[..j + 1];
    assert q[i] == q[|q| - 1] && Path(fbs, q);
    assert Lasso(fbs, q) && q[0] == p[0];
  }

  /** A path from a block that does not loop names no block twice. */
  lemma ShortPath(fbs: Fbs, p: seq<Name>)
    requires Path(fbs, p) && p[0] in fbs && !Loops(fbs, p[0])
    ensures |p| <= |fbs|
  {
    hide Edges;
    forall i, j | 0 <= i < j < |p| ensures p[i] != p[j] {
      if p[i] == p[j] { RepeatLoops(fbs, p, i, j); }
    }
    forall i | 0 <= i < |p| ensures p[i] in fbs.Keys {
      if i > 0 { assert p[i - 1 + 1] in Edges(fbs, p[i - 1]); }
    }
    SeqCount(p, fbs.Keys);
  }

  /** A block that does not loop is expanded, with everything below it, and leaves the stack. */
  lemma {:induction false} Subtree(fbs: Fbs, start: Name, p: seq<Name>, rest: seq<Name>) returns (k: nat)
    requires Path(fbs, p) && p[0] in fbs && !Loops(fbs, p[0]) && (p[0] == start || Loops(fbs, start))
    ensures After(fbs, start, Walking(rest + [p[|p| - 1]]), k) == Walking(rest)
    decreases |fbs| - |p|, |Edges(fbs, p[|p| - 1])| + 1
  {
    hide Edges, Loops;
    ShortPath(fbs, p);
    var n := p[|p| - 1];
    var ts := Edges(fbs, n);
    if start in ts { PathLoops(fbs, p, start); }
    var w := Walking(rest + [n]);
    assert (rest + [n])[..|rest|] == rest;
    assert After(fbs, start, w, 1) == Walking(rest + ts) by { assert After(fbs, start, w, 0) == w; }
    var m := Subtrees(fbs, start, p, rest, |ts|);
    assert ts[..|ts|] == ts;
    AfterAdd(fbs, start, w, 1, m);
    k := 1 + m;
  }

  lemma {:induction false} Subtrees(fbs: Fbs, start: Name, p: seq<Name>, rest: seq<Name>, j: nat) returns (k: nat)
    requires Path(fbs, p) && p[0] in fbs && !Loops(fbs, p[0]) && (p[0] == start || Loops(fbs, start))
    requires j <= |Edges(fbs, p[|p| - 1])|
    ensures After(fbs, start, Walking(rest + Edges(fbs, p[|p| - 1])[..j]), k) == Walking(rest)
    decreases |fbs| - |p|, j
  {
    hide Edges, Loops, Expand;
    var ts := Edges(fbs, p[|p| - 1]);
    if j == 0 {
      k := 0;
      assert rest + ts[..0] == rest;
    } else {
      var q, under := p + [ts[j - 1]], rest + ts[..j - 1];
      assert rest + ts[..j] == under + [ts[j - 1]];
      assert q[0] == p[0];
      ShortPath(fbs, q);
      var a := Subtree(fbs, start, q, under);
      var b := Subtrees(fbs, start, p, rest, j - 1);
      AfterAdd(fbs, start, Walking(rest + ts[..j]), a, b);
      k := a + b;
    }
  }

  /** A block that reaches no cycle is accepted. */
  lemma AcceptedBlock(fbs: Fbs, s: Name)
    requires s in fbs && !Loops(fbs, s)
    ensures Finishes(fbs, s)
  {
    hide Loops;
    var k := Subtree(fbs, s, [s], []);
    assert [] + [s] == [s];
    assert Walked(fbs, s, k + 1).Finished?;
  }

  ghost predicate SomeLoop(fbs: Fbs, stack: seq<Name>) { exists i :: 0 <= i < |stack| && Loops(fbs, stack[i]) }

  /** A block that reaches a cycle is never accepted, however long the walk. */
  lemma {:induction false} LoopNotAccepted(fbs: Fbs, s: Name, k: nat)
    requires Loops(fbs, s)
    ensures !Walked(fbs, s, k).Finished?
    ensures Walked(fbs, s, k).Walking? ==> SomeLoop(fbs, Walked(fbs, s, k).stack)
  {
    hide Edges, Loops;
    if k == 0 {
      assert Loops(fbs, [s][0]);
    } else {
      LoopNotAccepted(fbs, s, k - 1);
      var w := Walked(fbs, s, k - 1);
      if w.Walking? { LoopKept(fbs, s, w); }
    }
  }

  lemma LoopKept(fbs: Fbs, s: Name, w: Walk)
    requires w.Walking? && SomeLoop(fbs, w.stack)
    ensures var v := Expand(fbs, s, w); v.Rejected? || (v.Walking? && SomeLoop(fbs, v.stack))
  {
    hide Edges, Loops;
    var i :| 0 <= i < |w.stack| && Loops(fbs, w.stack[i]);
    var n := |w.stack| - 1;
    var ts := Edges(fbs, w.stack[n]);
    if s !in ts {
      var next := w.stack[..n] + ts;
      if i == n {
        var k := LoopGoesOn(fbs, w.stack[n]);
        assert Loops(fbs, next[n + k]);
      } else {
        assert Loops(fbs, next[i]);
      }
    }
  }

  /** Every block on the stack is reached from the start. */
  ghost predicate AllReached(fbs: Fbs, s: Name, stack: seq<Name>)
  {
    forall i :: 0 <= i < |stack| ==> Reach(fbs, s, stack[i])
  }

  ghost predicate Reach(fbs: Fbs, a: Name, b: Name) { exists p :: Path(fbs, p) && p[0] == a && p[|p| - 1] == b }

  lemma ReachEdge(fbs: Fbs, a: Name, b: Name, t: Name)
    requires Reach(fbs, a, b) && t in Edges(fbs, b)
    ensures Reach(fbs, a, t) && (t == a ==> OnCycle(fbs, a))
  {
    hide Edges;
    var p :| Path(fbs, p) && p[0] == a && p[|p| - 1] == b;
    var q := p + [t];
    assert Path(fbs, q) && q[0] == a && q[|q| - 1] == t && |q| > 1;
  }

  lemma ReachSelf(fbs: Fbs, a: Name)
    ensures Reach(fbs, a, a)
  {
    assert Path(fbs, [a]);
  }

  /** Only a block on a cycle is rejected. */
  lemma {:induction false} RejectedOnCycle(fbs: Fbs, s: Name, k: nat)
    ensures Walked(fbs, s, k).Rejected? ==> OnCycle(fbs, s)
    ensures Walked(fbs, s, k).Walking? ==> AllReached(fbs, s, Walked(fbs, s, k).stack)
  {
    hide Edges, Reach, OnCycle;
    if k == 0 {
      ReachSelf(fbs, s);
    } else {
      RejectedOnCycle(fbs, s, k - 1);
      var w := Walked(fbs, s, k - 1);
      if w.Walking? && w.stack != [] {
        var n := |w.stack| - 1;
        forall t | t in Edges(fbs, w.stack[n]) ensures Reach(fbs, s, t) && (t == s ==> OnCycle(fbs, s)) {
          ReachEdge(fbs, s, w.stack[n], t);
        }
      }
    }
  }

  // ----- which walks are rejected, and which never end -----

  /** Of the names in the list, the last that loops: the one a walk never comes back from. */
  ghost function LastLoop(fbs: Fbs, ts: seq<Name>): (k: nat)
    requires exists i :: 0 <= i < |ts| && Loops(fbs, ts[i])
    ensures k < |ts| && Loops(fbs, ts[k]) && forall i :: k < i < |ts| ==> !Loops(fbs, ts[i])
    decreases |ts|
  {
    var n := |ts| - 1;
    if Loops(fbs, ts[n]) then n
    else
      assert exists i :: 0 <= i < |ts[..n]| && Loops(fbs, ts[..n][i]) by {
        var i :| 0 <= i < |ts| && Loops(fbs, ts[i]);
        assert ts[..n][i] == ts[i];
      }
      LastLoop(fbs, ts[..n])
  }

  ghost function Descend(fbs: Fbs, n: Name): (t: Name)
    requires Loops(fbs, n)
    ensures t in Edges(fbs, n) && t in fbs && Loops(fbs, t)
  {
    assert exists i :: 0 <= i < |Edges(fbs, n)| && Loops(fbs, Edges(fbs, n)[i]) by { var k := LoopGoesOn(fbs, n); }
    Edges(fbs, n)[LastLoop(fbs, Edges(fbs, n))]
  }

  /** The branch a walk goes down: from each block to the last name in it that loops. */
  ghost function Branch(fbs: Fbs, s: Name, j: nat): (t: Name)
    requires Loops(fbs, s)
    ensures Loops(fbs, t)
  {
    if j == 0 then s else Descend(fbs, Branch(fbs, s, j - 1))
  }

  /** Blocks that do not loop leave the stack one after the other. */
  lemma {:induction false} Drain(fbs: Fbs, s: Name, rest: seq<Name>, ts: seq<Name>) returns (k: nat)
    requires Loops(fbs, s) && forall i :: 0 <= i < |ts| ==> ts[i] in fbs && !Loops(fbs, ts[i])
    ensures After(fbs, s, Walking(rest + ts), k) == Walking(rest)
    decreases |ts|
  {
    hide Loops, Expand;
    if ts == [] {
      k := 0;
      assert rest + ts == rest;
    } else {
      var n := |ts| - 1;
      var under := rest + ts[..n];
      assert rest + ts == under + [ts[n]];
      var a := Subtree(fbs, s, [ts[n]], under);
      var b := Drain(fbs, s, rest, ts[..n]);
      AfterAdd(fbs, s, Walking(rest + ts), a, b);
      k := a + b;
    }
  }

  /** The walk arrives at every block of the branch up to the first that names the start. */
  lemma {:induction false} BranchReached(fbs: Fbs, s: Name, j: nat) returns (k: nat, rest: seq<Name>)
    requires Loops(fbs, s) && forall i :: 0 <= i < j ==> s !in Edges(fbs, Branch(fbs, s, i))
    ensures k >= j && Walked(fbs, s, k) == Walking(rest + [Branch(fbs, s, j)])
    decreases j
  {
    hide Loops, Edges;
    if j == 0 {
      k, rest := 0, [];
      assert [] + [s] == [s];
    } else {
      var a, under := BranchReached(fbs, s, j - 1);
      var n := Branch(fbs, s, j - 1);
      var b, more := DownOne(fbs, s, under, n);
      AfterAdd(fbs, s, Walking([s]), a, b);
      k, rest := a + b, more;
    }
  }

  lemma DownOne(fbs: Fbs, s: Name, under: seq<Name>, n: Name) returns (k: nat, rest: seq<Name>)
    requires Loops(fbs, s) && Loops(fbs, n) && s !in Edges(fbs, n)
    ensures k > 0 && After(fbs, s, Walking(under + [n]), k) == Walking(rest + [Descend(fbs, n)])
  {
    hide Loops, Edges;
    var t := Descend(fbs, n);
    var ts := Edges(fbs, n);
    var q := LastLoop(fbs, ts);
    var w := Walking(under + [n]);
    assert (under + [n])[..|under|] == under;
    assert After(fbs, s, w, 1) == Walking(under + ts) by { assert After(fbs, s, w, 0) == w; }
    rest := under + ts[..q];
    assert under + ts == (rest + [t]) + ts[q + 1..];
    var b := Drain(fbs, s, rest + [t], ts[q + 1..]);
    AfterAdd(fbs, s, w, 1, b);
    k := 1 + b;
  }

  /** A block that loops is rejected exactly when a block of its branch names it. */
  lemma RejectedExactly(fbs: Fbs, s: Name)
    requires Loops(fbs, s)
    ensures Rejects(fbs, s) <==> exists j: nat :: s in Edges(fbs, Branch(fbs, s, j))
  {
    hide Loops, Edges;
    if Rejects(fbs, s) && forall j: nat :: s !in Edges(fbs, Branch(fbs, s, j)) {
      var r: nat :| Walked(fbs, s, r).Rejected?;
      var k, rest := BranchReached(fbs, s, r);
      EndStays(fbs, s, Walking([s]), r, k);
      assert false;
    }
    if exists j: nat :: s in Edges(fbs, Branch(fbs, s, j)) {
      var j: nat :| s in Edges(fbs, Branch(fbs, s, j));
      var i := FirstNaming(fbs, s, j);
      var k, rest := BranchReached(fbs, s, i);
      assert Walked(fbs, s, k + 1).Rejected?;
    }
  }

  lemma {:induction false} FirstNaming(fbs: Fbs, s: Name, j: nat) returns (i: nat)
    requires Loops(fbs, s) && s in Edges(fbs, Branch(fbs, s, j))
    ensures i <= j && s in Edges(fbs, Branch(fbs, s, i)) && forall h :: 0 <= h < i ==> s !in Edges(fbs, Branch(fbs, s, h))
    decreases j
  {
    hide Loops, Edges, Branch;
    if h: nat :| h < j && s in Edges(fbs, Branch(fbs, s, h)) {
      i := FirstNaming(fbs, s, h);
    } else {
      i := j;
    }
  }

  /** The branch comes back to itself, so as many blocks as there are decide. */
  lemma {:induction false} BranchBound(fbs: Fbs, s: Name, j: nat) returns (i: nat)
    requires Loops(fbs, s) && s in fbs
    ensures i <= |fbs| && Branch(fbs, s, i) == Branch(fbs, s, j)
    decreases j
  {
    hide Loops, Branch;
    if j <= |fbs| {
      i := j;
    } else {
      var a, b := Repeats(fbs, s);
      BranchShift(fbs, s, a, b, j - b);
      i := BranchBound(fbs, s, a + (j - b));
    }
  }

  lemma {:induction false} BranchShift(fbs: Fbs, s: Name, a: nat, b: nat, n: nat)
    requires Loops(fbs, s) && Branch(fbs, s, a) == Branch(fbs, s, b)
    ensures Branch(fbs, s, a + n) == Branch(fbs, s, b + n)
  {
    hide Loops, Branch;
    if n > 0 {
      BranchShift(fbs, s, a, b, n - 1);
      BranchNext(fbs, s, a + n - 1);
      BranchNext(fbs, s, b + n - 1);
    }
  }

  lemma BranchNext(fbs: Fbs, s: Name, j: nat)
    requires Loops(fbs, s)
    ensures Branch(fbs, s, j + 1) == Descend(fbs, Branch(fbs, s, j))
  {}

  lemma Repeats(fbs: Fbs, s: Name) returns (a: nat, b: nat)
    requires Loops(fbs, s) && s in fbs
    ensures a < b <= |fbs| && Branch(fbs, s, a) == Branch(fbs, s, b)
  {
    hide Loops, Descend;
    var all := seq(|fbs| + 1, i requires i >= 0 => Branch(fbs, s, i));
    if forall i, j :: 0 <= i < j < |all| ==> all[i] != all[j] {
      SeqCount(all, fbs.Keys);
      assert false;
    }
    a, b :| 0 <= a < b < |all| && all[a] == all[b];
  }

  /** One of the first blocks of the branch names the block it starts from. */
  ghost predicate Named(fbs: Fbs, s: Name)
    requires Loops(fbs, s)
  {
    exists j :: 0 <= j <= |fbs| && s in Edges(fbs, Branch(fbs, s, j))
  }

  /** How the walk from a block ends, exactly: accepted if it reaches no cycle; otherwise
      rejected if one of the first blocks of its branch names it, and without end if none
      does. A block on no cycle is never rejected, so its walk ends only if it reaches none. */
  lemma WalkExactly(fbs: Fbs, s: Name)
    requires s in fbs
    ensures Finishes(fbs, s) <==> !Loops(fbs, s)
    ensures Rejects(fbs, s) <==> Loops(fbs, s) && Named(fbs, s)
    ensures !OnCycle(fbs, s) ==> !Rejects(fbs, s)
  {
    hide Loops, Edges, Branch, OnCycle;
    if Rejects(fbs, s) {
      var r: nat :| Walked(fbs, s, r).Rejected?;
      RejectedOnCycle(fbs, s, r);
    }
    if Loops(fbs, s) {
      forall k: nat ensures !Walked(fbs, s, k).Finished? { LoopNotAccepted(fbs, s, k); }
      RejectedExactly(fbs, s);
      if j: nat :| s in Edges(fbs, Branch(fbs, s, j)) {
        var i := BranchBound(fbs, s, j);
        assert s in Edges(fbs, Branch(fbs, s, i));
        assert Named(fbs, s);
      }
    } else {
      AcceptedBlock(fbs, s);
      OneEnd(fbs, s);
    }
  }

  // ----- all walks -----

  /** Edges lead to lower ranks. */
  ghost predicate Falling(fbs: Fbs, rank: map<Name, nat>)
  {
    && (forall n :: n in fbs ==> n in rank)
    && (forall n, k :: n in fbs && 0 <= k < |Edges(fbs, n)| ==> rank[Edges(fbs, n)[k]] < rank[n])
  }

  ghost predicate Acyclic(fbs: Fbs) { exists rank: map<Name, nat> :: Falling(fbs, rank) }

  lemma {:induction false} PathFalls(fbs: Fbs, rank: map<Name, nat>, p: seq<Name>, i: nat, j: nat)
    requires Falling(fbs, rank) && Path(fbs, p) && p[0] in fbs && i < j < |p|
    ensures p[i] in fbs && p[j] in fbs && rank[p[j]] < rank[p[i]]
    decreases j
  {
    hide Edges;
    PathInside(fbs, p, j);
    PathInside(fbs, p, j - 1);
    var e := Edges(fbs, p[j - 1]);
    assert p[j - 1 + 1] in e;
    var k :| 0 <= k < |e| && e[k] == p[j];
    if i < j - 1 { PathFalls(fbs, rank, p, i, j - 1); }
  }

  lemma PathInside(fbs: Fbs, p: seq<Name>, j: nat)
    requires Path(fbs, p) && p[0] in fbs && j < |p|
    ensures p[j] in fbs
  {
    hide Edges;
    if j > 0 { assert p[j - 1 + 1] in Edges(fbs, p[j - 1]); }
  }

  ghost function Reached(fbs: Fbs, n: Name): set<Name> { set m | m in fbs && Reach(fbs, n, m) }

  /** Along an edge from a block that does not loop, fewer blocks are reached. */
  lemma FewerReached(fbs: Fbs, n: Name, t: Name)
    requires n in fbs && t in Edges(fbs, n) && !Loops(fbs, n)
    ensures |Reached(fbs, t)| < |Reached(fbs, n)|
  {
    hide Edges;
    forall m | m in Reached(fbs, t) ensures m in Reached(fbs, n) && m != n {
      var p :| Path(fbs, p) && p[0] == t && p[|p| - 1] == m;
      var q := [n] + p;
      assert Path(fbs, q) && q[0] == n && q[|q| - 1] == m;
      if m == n { RepeatLoops(fbs, q, 0, |q| - 1); }
    }
    ReachSelf(fbs, n);
    assert n in Reached(fbs, n) && Reached(fbs, t) <= Reached(fbs, n) - {n};
    Subset(Reached(fbs, t), Reached(fbs, n) - {n});
  }

  lemma {:induction false} Subset(a: set<Name>, b: set<Name>)
    requires a <= b
    ensures |a| <= |b|
  {
    assert b == a + (b - a);
  }

  /** Every walk is accepted if and only if the composition is acyclic. */
  lemma AllAccepted(fbs: Fbs)
    ensures (forall s :: s in fbs ==> Finishes(fbs, s)) <==> Acyclic(fbs)
  {
    hide Loops, Finishes, Edges;
    forall s | s in fbs ensures Finishes(fbs, s) <==> !Loops(fbs, s) { WalkExactly(fbs, s); }
    if forall s :: s in fbs ==> !Loops(fbs, s) {
      var rank: map<Name, nat> := map n | n in fbs :: |Reached(fbs, n)|;
      forall n, k | n in fbs && 0 <= k < |Edges(fbs, n)| ensures rank[Edges(fbs, n)[k]] < rank[n] {
        FewerReached(fbs, n, Edges(fbs, n)[k]);
      }
      assert Falling(fbs, rank);
    }
    if Acyclic(fbs) {
      forall s | s in fbs ensures !Loops(fbs, s) { AcyclicNoLoop(fbs, s); }
    }
  }

  lemma AcyclicNoLoop(fbs: Fbs, s: Name)
    requires Acyclic(fbs) && s in fbs
    ensures !Loops(fbs, s)
  {
    hide Edges;
    if Loops(fbs, s) {
      var rank: map<Name, nat> :| Falling(fbs, rank);
      var p :| Lasso(fbs, p) && p[0] == s;
      var i :| 0 <= i < |p| - 1 && p[i] == p[|p| - 1];
      PathFalls(fbs, rank, p, i, |p| - 1);
    }
  }

  // ----- layout, then the check -----

  /** With no block named like a type or primitive, what the check walks is what the layout
      ordered. */
  lemma LayableAcyclic(fbs: Fbs, reserved: set<Name>)
    requires Layable(fbs, reserved) && reserved !! fbs.Keys
    ensures Acyclic(fbs)
  {
    var rank: map<Name, nat> :| Ranked(fbs, reserved, rank);
    forall n, k | n in fbs && 0 <= k < |Edges(fbs, n)| ensures rank[Edges(fbs, n)[k]] < rank[n] {
      assert DependsOn(fbs[n], reserved, Edges(fbs, n)[k]);
    }
    assert Falling(fbs, rank);
  }

  /** The check is reached only when the layout succeeded. */
  ghost predicate Ends(fbs: Fbs, reserved: set<Name>, names: seq<Name>)
  {
    Layable(fbs, reserved) ==> CheckEnds(fbs, names)
  }

  /** Blocks not named like types or primitives always get an answer. */
  lemma DistinctEnds(fbs: Fbs, reserved: set<Name>, names: seq<Name>)
    requires Listed(fbs, {}, names) && reserved !! fbs.Keys
    ensures Ends(fbs, reserved, names) && (Layable(fbs, reserved) ==> Acyclic(fbs))
  {
    hide Finishes, Acyclic;
    if Layable(fbs, reserved) {
      LayableAcyclic(fbs, reserved);
      AllAccepted(fbs);
    }
  }

  /** The check ends if and only if every walk without end comes after one that rejects. */
  lemma EndsExactly(fbs: Fbs, names: seq<Name>)
    requires Listed(fbs, {}, names)
    ensures CheckEnds(fbs, names) <==>
              forall i :: 0 <= i < |names| && Loops(fbs, names[i]) && !Named(fbs, names[i]) ==>
                exists j :: 0 <= j < i && Loops(fbs, names[j]) && Named(fbs, names[j])
  {
    hide Loops, Finishes, Rejects, Named;
    forall s | s in fbs
      ensures Finishes(fbs, s) <==> !Loops(fbs, s)
      ensures Rejects(fbs, s) <==> Loops(fbs, s) && Named(fbs, s)
    {
      WalkExactly(fbs, s);
    }
  }

  /** Layout, then the check, for every project on which they end: accepted exactly when it can
      be laid out and its composition, reserved names included, is acyclic. */
  method LayoutThenCheck(fbs: Fbs, reserved: set<Name>, names: seq<Name>) returns (ok: bool)
    requires Listed(fbs, {}, names) && Ends(fbs, reserved, names)
    ensures ok ==> Layable(fbs, reserved) && Acyclic(fbs)
    ensures |fbs| <= MAX_ROUNDS && Layable(fbs, reserved) && Acyclic(fbs) ==> ok
  {
    hide Layable, CheckEnds, Finishes, Rejects, Acyclic;
    var r := LayoutAll(fbs, reserved, names);
    if !r.LaidOut? { return false; }
    var rejected := CheckRecursion(fbs, names);
    AllAccepted(fbs);
    if rejected {
      ghost var i :| 0 <= i < |names| && Rejects(fbs, names[i]);
      OneEnd(fbs, names[i]);
    }
    ok := !rejected;
  }

  // ----- the walk that never ends -----

  /** Three blocks, of which the first has the name of a primitive: it and the second contain
      each other, and the third contains the second. */
  function Reused(): Fbs { map[0 := Fb([1], false), 1 := Fb([0], false), 2 := Fb([1], false)] }

  /** Blocks that reuse the name of a primitive get past the layout and can send the walk round
      forever: from outside their cycle nothing names the start. */
  lemma WalkForever(k: nat)
    ensures Layable(Reused(), {0}) && Walked(Reused(), 2, k).Walking?
  {
    assert Ranked(Reused(), {0}, map[1 := 0, 0 := 1, 2 := 1]);
    RoundAndRound(k);
  }

  lemma {:induction false} RoundAndRound(k: nat)
    ensures Walked(Reused(), 2, k) == Walking([if k == 0 then 2 else k % 2])
  {
    if k > 0 {
      RoundAndRound(k - 1);
      var n := if k == 1 then 2 else (k - 1) % 2;
      OneStep(n, k % 2);
    }
  }

  lemma OneStep(n: Name, t: Name)
    requires if n == 1 then t == 0 else t == 1 && n <= 2
    ensures Expand(Reused(), 2, Walking([n])) == Walking([t])
  {
    OneTarget(Reused(), t);
    assert Edges(Reused(), n) == [t];
    hide Edges;
    assert [n][..0] + [t] == [t];
  }

  lemma OneTarget(fbs: Fbs, t: Name)
    requires t in fbs
    ensures Targets(fbs, [t]) == [t]
  {
    assert [t][..0] == [];
  }
}
