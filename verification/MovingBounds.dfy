/** Bounds that move although the loop assigns to none of their names: by a store into a part of a variable, behind a map, and
    by another function. The code recognises all three loops, and calls them bounded. */
module MovingBounds {
  import opened GoValues
  import opened GoProgram
  import opened LoopFrames
  import opened Orbit
  import opened Termination
  import opened LoopVerdicts
  import opened LoopMisjudged
  import opened Wrappers

  // ----- runs of any length

  /** A turn from a state with `k` turns to come leads to one with `k - 1`. */
  ghost predicate TurnKeeps(c: Context, loop: Stmt, inv: (State, nat) -> bool, s: State, k: nat, fuel: nat)
    requires loop.For? && k > 0
  {
    var it := Iterate(c, loop, s, fuel);
    it.flow.Normal? && inv(it.st.(tick := it.st.tick + 1), k - 1)
  }

  lemma {:induction false} HeadsUnroll(c: Context, loop: Stmt, inv: (State, nat) -> bool, s: State, fuel: nat, turns: nat)
    returns (hs: seq<State>)
    requires loop.For? && inv(s, turns) && turns <= fuel
    requires forall t: State, k: nat, f: nat :: k > 0 && f > 0 && inv(t, k) ==> TurnKeeps(c, loop, inv, t, k, f)
    ensures Heads(c, loop, hs, fuel) && hs[0] == s && |hs| == turns + 1
    decreases turns
  {
    hide Iterate;
    hs := [s];
    if turns > 0 {
      assert TurnKeeps(c, loop, inv, s, turns, fuel);
      var it := Iterate(c, loop, s, fuel);
      var rest := HeadsUnroll(c, loop, inv, it.st.(tick := it.st.tick + 1), fuel - 1, turns - 1);
      hs := hs + rest;
      forall k | 0 <= k < |hs| - 1 ensures TurnAt(c, loop, hs, fuel, k) {
        if k > 0 { assert TurnAt(c, loop, rest, fuel - 1, k - 1); }
      }
    }
  }

  // ----- a bound that a store moves

  const PAIR := TStruct([INT8])
  const BOUND := Field(Ident("w", PAIR), 0, Direct, INT8)

  /** `for ; i < w.n; i++ { w.n = w.n + 1 }`: the code looks for assignments to `w`, and there are none. */
  const STORED_LOOP :=
    For(0, Some(Binary(Lss, Ident("i", INT8), BOUND, TBool, None)), Some(IncDec("i", true, INT8)),
        [Store(BOUND, Binary(Add, BOUND, Lit(Int(1), INT8), INT8, None))])

  predicate StoredState(s: State, i: int, n: int) { s.vars == map["i" := Int(i), "w" := Struct([Int(n)])] }

  /** The code recognises it and calls every edit elsewhere bounded. */
  lemma StoredBoundIsBounded()
    ensures var ind, edit := Induction("i", 1, Lss, None), Elsewhere(STORED_LOOP.body);
            && Recognised(STORED_LOOP, ind) && TerminationProof(ind, edit) == Some(Bounded)
            && Readable(STORED_LOOP, ind, edit, BOUND, 8, true) && Scalar(BOUND)
            && !Described(STORED_LOOP, ind, edit, BOUND, {"i", "w"}, 8, true)
  {
    NamesOf(STORED_LOOP.test.value, "i", INT8);
    assert Names(BOUND) == {"w"};
    assert STORED_LOOP.body[0] in STORED_LOOP.body && StoresInto(STORED_LOOP.body[0], "w");
    assert StoresIntoAny(STORED_LOOP.body, "w");
  }

  /** But the bound moves with the variable, and the way to it never gets shorter. */
  lemma StoredBoundTurns(c: Context, s: State, fuel: nat, i: int, n: int)
    requires !c.live && StoredState(s, i, n) && -128 <= i < n < 127
    ensures var it := Iterate(c, STORED_LOOP, s, fuel); it.flow.Normal? && StoredState(it.st, i + 1, n + 1)
  {
    hide Eval, Run, Pow2, Low, Wrap, Fit;
    Int8Holds(i);
    Int8Holds(n);
    IdentReads(c, "i", INT8, s, fuel);
    BoundReads(c, s, fuel, n);
    OperationReads(c, STORED_LOOP.test.value, s, fuel, Int(i), Int(n));
    BoundMoves(c, s, fuel, i, n);
    var t := Run(c, STORED_LOOP.body[0], s, fuel).st;
    assert STORED_LOOP.body[1..] == [];
    assert RunBlock(c, STORED_LOOP.body[1..], t, fuel) == Ran(Normal, t, {});
    StepRuns(c, STORED_LOOP.post.value, "i", 1, 8, true, t, fuel, i);
    Int8Holds(i + 1);
  }

  /** So the loop is at its head more often than the way to the bound allows, whenever there is room for it. */
  lemma StoredBoundMisjudged(c: Context, s: State, fuel: nat, i: int, n: int, turns: nat) returns (hs: seq<State>)
    requires !c.live && StoredState(s, i, n) && -128 <= i < n && n + turns <= 127 && turns <= fuel
    ensures Heads(c, Edited(STORED_LOOP, Elsewhere(STORED_LOOP.body)), hs, fuel) && hs[0] == s && |hs| == turns + 1
    ensures turns > n - i ==> |hs| > 1 + Variant(Lss, i, n)
    ensures var ind, edit := Induction("i", 1, Lss, None), Elsewhere(STORED_LOOP.body);
            && Recognised(STORED_LOOP, ind) && TerminationProof(ind, edit) == Some(Bounded)
            && !Described(STORED_LOOP, ind, edit, BOUND, {"i", "w"}, 8, true)
  {
    hide Iterate, Recognised, Described, StoredState, Heads;
    StoredBoundIsBounded();
    var inv := (t: State, k: nat) => exists j, m :: StoredState(t, j, m) && -128 <= j < m && m + k <= 127;
    forall t: State, k: nat, f: nat | k > 0 && f > 0 && inv(t, k) ensures TurnKeeps(c, STORED_LOOP, inv, t, k, f) {
      var j, m :| StoredState(t, j, m) && -128 <= j < m && m + k <= 127;
      StoredBoundTurns(c, t, f, j, m);
      SameVariables(Iterate(c, STORED_LOOP, t, f).st, j + 1, m + 1);
    }
    hs := HeadsUnroll(c, STORED_LOOP, inv, s, fuel, turns);
  }

  lemma SameVariables(s: State, i: int, n: int)
    requires StoredState(s, i, n)
    ensures StoredState(s.(tick := s.tick + 1), i, n)
  {
  }

  lemma BoundReads(c: Context, s: State, fuel: nat, n: int)
    requires "w" in s.vars && s.vars["w"] == Struct([Int(n)]) && -128 <= n < 128
    ensures Eval(c, BOUND, s, fuel, false) == Res(Done(Int(n)), s, {})
  {
    Int8Holds(n);
    IdentReads(c, "w", PAIR, s, fuel);
  }

  lemma BoundMoves(c: Context, s: State, fuel: nat, i: int, n: int)
    requires StoredState(s, i, n) && -128 <= n < 127
    ensures var r := Run(c, STORED_LOOP.body[0], s, fuel); r.flow.Normal? && StoredState(r.st, i, n + 1)
  {
    hide Eval, EvalAll, Stored, Pow2, Low, Wrap, Fit;
    var t, sum := s.(tick := s.tick + 1), STORED_LOOP.body[0].e;
    SumReads(c, t, fuel, n);
    OneReads(c, sum, t, fuel, Int(n + 1));
    PartIsStored(c.world, t, i, n);
    assert Operands(BOUND) + [sum] == [sum];
  }

  lemma SumReads(c: Context, s: State, fuel: nat, n: int)
    requires "w" in s.vars && s.vars["w"] == Struct([Int(n)]) && -128 <= n < 127
    ensures Eval(c, STORED_LOOP.body[0].e, s, fuel, false) == Res(Done(Int(n + 1)), s, {})
  {
    hide Eval, Pow2, Low, Wrap, Fit;
    var sum := STORED_LOOP.body[0].e;
    Int8Holds(n + 1);
    Int8Holds(1);
    BoundReads(c, s, fuel, n);
    LiteralReads(c, sum.y, s, fuel);
    OperationReads(c, sum, s, fuel, Int(n), Int(1));
  }

  lemma OneReads(c: Context, e: Expr, s: State, fuel: nat, v: Value)
    requires Eval(c, e, s, fuel, false) == Res(Done(v), s, {})
    ensures EvalAll(c, [e], s, fuel, false) == Res(Done([v]), s, {})
  {
    hide Eval;
    var rest := [e][1..];
    assert rest == [];
    var r := EvalAll(c, rest, s, fuel, false);
    assert r == Res(Done([]), s, {}) && [v] + r.out.v == [v];
  }

  lemma PartIsStored(w: World, s: State, i: int, n: int)
    requires StoredState(s, i, n) && -128 <= n < 127
    ensures var r := Stored(w, BOUND, Res(Done([Int(n + 1)]), s, {})); r.flow.Normal? && StoredState(r.st, i, n + 1)
  {
    hide Fit, Conforms, Low, Pow2;
    PairFits(n);
    PairFits(n + 1);
    Int8Holds(n + 1);
    var whole := Replaced(BOUND, s.vars["w"], [], Int(n + 1));
    assert Root(BOUND) == Some("w") && Operands(BOUND) == [];
    assert Part(Ident("w", PAIR), s.vars["w"], []) == Some(Struct([Int(n)]));
    var was := Struct([Int(n)]);
    assert was.fields[0 := Fit(Int(n + 1), INT8)] == [Int(n + 1)];
    assert Replaced(Ident("w", PAIR), s.vars["w"], [], Struct([Int(n + 1)])) == Some(Struct([Int(n + 1)]));
    assert whole == Some(Struct([Int(n + 1)]));
    assert [Int(n + 1)][..0] == [];
  }

  lemma PairFits(n: int)
    requires -128 <= n < 128
    ensures Fit(Struct([Int(n)]), PAIR) == Struct([Int(n)])
  {
    Int8Holds(n);
    assert Conforms(Int(n), INT8);
  }

  // ----- a package variable that another function moves

  const PACKAGE := Ident("N", INT8)
  const GROW := Function([], [IncDec("N", true, INT8)])

  /** `var N int8; func grow() { N++ }` and `for ; i < N; i++ { grow() }`. */
  const PACKAGE_LOOP :=
    For(0, Some(Binary(Lss, Ident("i", INT8), PACKAGE, TBool, None)), Some(IncDec("i", true, INT8)),
        [ExprStmt(Call("grow", [], TStruct([])))])

  predicate PackageState(s: State, i: int, n: int) {
    s.vars == map["i" := Int(i)] && Global("N") in s.heap && s.heap[Global("N")] == Int(n)
  }

  /** Every condition but one holds: the test reads a variable that is not the function's own. */
  lemma PackageBoundIsBounded()
    ensures var ind, edit := Induction("i", 1, Lss, None), Elsewhere(PACKAGE_LOOP.body);
            && Recognised(PACKAGE_LOOP, ind) && TerminationProof(ind, edit) == Some(Bounded)
            && Readable(PACKAGE_LOOP, ind, edit, PACKAGE, 8, true)
            && forall own :: Described(PACKAGE_LOOP, ind, edit, PACKAGE, own, 8, true) <==> {"i", "N"} <= own
  {
    NamesOf(PACKAGE_LOOP.test.value, "i", INT8);
    assert Names(PACKAGE) == {"N"};
  }

  lemma PackageBoundTurns(c: Context, s: State, fuel: nat, i: int, n: int)
    requires !c.live && "grow" in c.prog && c.prog["grow"] == GROW && fuel > 0
    requires PackageState(s, i, n) && -128 <= i < n < 127
    ensures var it := Iterate(c, PACKAGE_LOOP, s, fuel); it.flow.Normal? && PackageState(it.st, i + 1, n + 1)
  {
    hide Eval, Run, Pow2, Low, Wrap, Fit;
    Int8Holds(i);
    Int8Holds(n);
    IdentReads(c, "i", INT8, s, fuel);
    IdentReads(c, "N", INT8, s, fuel);
    OperationReads(c, PACKAGE_LOOP.test.value, s, fuel, Int(i), Int(n));
    var call := PACKAGE_LOOP.body[0];
    CallStatementGrows(c, s, fuel, i, n);
    var t := Run(c, call, s, fuel).st;
    assert PACKAGE_LOOP.body[1..] == [];
    assert RunBlock(c, PACKAGE_LOOP.body[1..], t, fuel) == Ran(Normal, t, {});
    StepOnly(c, t, fuel, i, n + 1);
  }

  /** The post statement moves the variable, and the heap stays. */
  lemma StepOnly(c: Context, s: State, fuel: nat, i: int, n: int)
    requires PackageState(s, i, n) && -128 <= i < 127
    ensures var r := Run(c, PACKAGE_LOOP.post.value, s, fuel); r.flow.Normal? && PackageState(r.st, i + 1, n)
  {
    hide Eval, Pow2, Low, Wrap;
    Int8Holds(i);
    Int8Holds(i + 1);
    IdentReads(c, "i", INT8, s.(tick := s.tick + 1), fuel);
  }

  lemma CallStatementGrows(c: Context, s: State, fuel: nat, i: int, n: int)
    requires "grow" in c.prog && c.prog["grow"] == GROW && fuel > 0
    requires PackageState(s, i, n) && -128 <= n < 127
    ensures var r := Run(c, PACKAGE_LOOP.body[0], s, fuel); r.flow.Normal? && PackageState(r.st, i, n + 1)
  {
    hide Eval;
    CallGrows(c, s.(tick := s.tick + 1), fuel, i, n);
  }

  lemma CallGrows(c: Context, s: State, fuel: nat, i: int, n: int)
    requires "grow" in c.prog && c.prog["grow"] == GROW && fuel > 0
    requires PackageState(s, i, n) && -128 <= n < 127
    ensures var r := Eval(c, PACKAGE_LOOP.body[0].e, s, fuel, false); r.out.Done? && PackageState(r.st, i, n + 1)
  {
    hide RunBlock, Fit, Conforms;
    assert EvalAll(c, [], s, fuel, false) == Res(Done([]), s, {});
    var start := Entry([], [], s);
    assert start.vars == map[];
    GrowRuns(c, start, fuel - 1, n);
  }

  lemma GrowRuns(c: Context, s: State, fuel: nat, n: int)
    requires s.vars == map[] && Global("N") in s.heap && s.heap[Global("N")] == Int(n) && -128 <= n < 127
    ensures var r := RunBlock(c, GROW.body, s, fuel); r.flow.Normal? && r.st.heap == s.heap[Global("N") := Int(n + 1)]
  {
    hide Eval, Pow2, Low, Wrap;
    Int8Holds(n);
    Int8Holds(n + 1);
    IdentReads(c, "N", INT8, s.(tick := s.tick + 1), fuel);
    var r := Run(c, GROW.body[0], s, fuel);
    assert GROW.body[1..] == [];
    assert RunBlock(c, GROW.body[1..], r.st, fuel) == Ran(Normal, r.st, {});
  }

  lemma PackageBoundMisjudged(c: Context, s: State, fuel: nat, i: int, n: int, turns: nat) returns (hs: seq<State>)
    requires !c.live && "grow" in c.prog && c.prog["grow"] == GROW
    requires PackageState(s, i, n) && -128 <= i < n && n + turns <= 127 && turns <= fuel
    ensures Heads(c, Edited(PACKAGE_LOOP, Elsewhere(PACKAGE_LOOP.body)), hs, fuel) && hs[0] == s && |hs| == turns + 1
    ensures turns > n - i ==> |hs| > 1 + Variant(Lss, i, n)
    ensures var ind, edit := Induction("i", 1, Lss, None), Elsewhere(PACKAGE_LOOP.body);
            && Recognised(PACKAGE_LOOP, ind) && TerminationProof(ind, edit) == Some(Bounded)
            && forall own :: Described(PACKAGE_LOOP, ind, edit, PACKAGE, own, 8, true) <==> {"i", "N"} <= own
  {
    hide Iterate, Recognised, Described, PackageState, Heads;
    PackageBoundIsBounded();
    var inv := (t: State, k: nat) => exists j, m :: PackageState(t, j, m) && -128 <= j < m && m + k <= 127;
    forall t: State, k: nat, f: nat | k > 0 && f > 0 && inv(t, k) ensures TurnKeeps(c, PACKAGE_LOOP, inv, t, k, f) {
      var j, m :| PackageState(t, j, m) && -128 <= j < m && m + k <= 127;
      PackageBoundTurns(c, t, f, j, m);
      SamePackage(Iterate(c, PACKAGE_LOOP, t, f).st, j + 1, m + 1);
    }
    hs := HeadsUnroll(c, PACKAGE_LOOP, inv, s, fuel, turns);
  }

  lemma SamePackage(s: State, i: int, n: int)
    requires PackageState(s, i, n)
    ensures PackageState(s.(tick := s.tick + 1), i, n)
  {
  }

  // ----- the length of a map that grows

  const INT64 := TInt(64, true)
  const TABLE := Ident("m", TMap(INT64))
  const LENGTH := CallBuiltin(Len, [TABLE], INT64, 0)
  const SLOT := Index(TABLE, LENGTH, INT64)

  /** `for ; i < len(m); i++ { m[len(m)] = 0 }`. */
  const MAP_LOOP :=
    For(0, Some(Binary(Lss, Ident("i", INT64), LENGTH, TBool, None)), Some(IncDec("i", true, INT64)),
        [Store(SLOT, Lit(Int(0), INT64))])

  function LengthOf(w: World, l: Loc, heap: Heap): Value { w.measure(Len, [MapRef(l)], heap) }

  /** A new key makes a map longer by one. */
  ghost predicate Grows(w: World, l: Loc) {
    forall heap: Heap, n: nat :: LengthOf(w, l, heap) == Int(n) ==>
      var after := w.store(SLOT, [MapRef(l), Int(n)], Int(0), heap);
      after.Some? && LengthOf(w, l, after.value) == Int(n + 1)
  }

  /** There is such a world: a map is the list of its entries. */
  lemma GrowingWorld(w: World, l: Loc) returns (maps: World)
    ensures Grows(maps, l)
  {
    var Entries := (heap: Heap) => if l in heap && heap[l].Array? then heap[l].elems else [];
    maps := w.(measure := (b: Builtin, vs: seq<Value>, heap: Heap) => Int(|Entries(heap)|),
               store := (target: Expr, at: seq<Value>, v: Value, heap: Heap) => Some(heap[l := Array(Entries(heap) + [v])]));
  }

  predicate MapState(w: World, l: Loc, s: State, i: int, n: int) {
    s.vars == map["i" := Int(i), "m" := MapRef(l)] && LengthOf(w, l, s.heap) == Int(n)
  }

  /** Every condition but one holds: the bound is no scalar. */
  lemma MapBoundIsBounded()
    ensures var ind, edit := Induction("i", 1, Lss, None), Elsewhere(MAP_LOOP.body);
            && Recognised(MAP_LOOP, ind) && TerminationProof(ind, edit) == Some(Bounded)
            && Readable(MAP_LOOP, ind, edit, LENGTH, 64, true) && !Scalar(LENGTH)
            && forall own :: !Described(MAP_LOOP, ind, edit, LENGTH, own, 64, true)
  {
    NamesOf(MAP_LOOP.test.value, "i", INT64);
    assert LENGTH.args[0] in LENGTH.args && Names(TABLE) == {"m"};
    assert Names(LENGTH) == {"m"};
  }

  lemma Int64Holds(x: int)
    requires 0 <= x <= 128
    ensures InRange(x, 64, true) && Fit(Int(x), INT64) == Int(x)
  {
    assert Pow2(2) == 4 && Pow2(4) == 16 && Pow2(6) == 64 && Pow2(8) == 256;
    Pow2Grows(8, 63);
  }

  lemma {:induction false} Pow2Grows(a: nat, b: nat)
    requires a <= b
    ensures Pow2(a) <= Pow2(b)
    decreases b
  {
    if a < b { Pow2Grows(a, b - 1); }
  }

  lemma MapBoundTurns(c: Context, l: Loc, s: State, fuel: nat, i: int, n: int)
    requires !c.live && Grows(c.world, l) && MapState(c.world, l, s, i, n) && 0 <= i < n < 128
    ensures var it := Iterate(c, MAP_LOOP, s, fuel); it.flow.Normal? && MapState(c.world, l, it.st, i + 1, n + 1)
  {
    hide Eval, Run, Pow2, Low, Wrap, Fit, LengthOf, Grows;
    Int64Holds(i);
    Int64Holds(n);
    IdentReads(c, "i", INT64, s, fuel);
    LengthReads(c, l, s, fuel, i, n);
    OperationReads(c, MAP_LOOP.test.value, s, fuel, Int(i), Int(n));
    EntryIsStored(c, l, s, fuel, i, n);
    var t := Run(c, MAP_LOOP.body[0], s, fuel).st;
    assert MAP_LOOP.body[1..] == [];
    assert RunBlock(c, MAP_LOOP.body[1..], t, fuel) == Ran(Normal, t, {});
    MapStepOnly(c, l, t, fuel, i, n + 1);
  }

  lemma MapStepOnly(c: Context, l: Loc, s: State, fuel: nat, i: int, n: int)
    requires MapState(c.world, l, s, i, n) && 0 <= i < 128
    ensures var r := Run(c, MAP_LOOP.post.value, s, fuel); r.flow.Normal? && MapState(c.world, l, r.st, i + 1, n)
  {
    hide Eval, Pow2, Low, Wrap, LengthOf;
    Int64Holds(i);
    Int64Holds(i + 1);
    IdentReads(c, "i", INT64, s.(tick := s.tick + 1), fuel);
  }

  lemma TableReads(c: Context, l: Loc, s: State, fuel: nat)
    requires "m" in s.vars && s.vars["m"] == MapRef(l)
    ensures Eval(c, TABLE, s, fuel, false) == Res(Done(MapRef(l)), s, {})
  {
    hide Eval;
    IdentReads(c, "m", TMap(INT64), s, fuel);
  }

  lemma LengthReads(c: Context, l: Loc, s: State, fuel: nat, i: int, n: int)
    requires MapState(c.world, l, s, i, n) && 0 <= n <= 128
    ensures Eval(c, LENGTH, s, fuel, false) == Res(Done(Int(n)), s, {})
  {
    hide Eval, EvalAll, Fit;
    TableReads(c, l, s, fuel);
    OneReads(c, TABLE, s, fuel, MapRef(l));
    LengthMeasured(c, l, s, fuel, n);
  }

  lemma LengthMeasured(c: Context, l: Loc, s: State, fuel: nat, n: int)
    requires LengthOf(c.world, l, s.heap) == Int(n) && 0 <= n <= 128
    requires EvalAll(c, [TABLE], s, fuel, false) == Res(Done([MapRef(l)]), s, {})
    ensures Eval(c, LENGTH, s, fuel, false) == Res(Done(Int(n)), s, {})
  {
    hide EvalAll, Fit, Conforms;
    Int64Holds(n);
    assert MapRef(l) in [MapRef(l)];
    assert Contents([MapRef(l)], s.heap) == s.heap;
  }

  lemma EntryIsStored(c: Context, l: Loc, s: State, fuel: nat, i: int, n: int)
    requires Grows(c.world, l) && MapState(c.world, l, s, i, n) && 0 <= n < 128
    ensures var r := Run(c, MAP_LOOP.body[0], s, fuel); r.flow.Normal? && MapState(c.world, l, r.st, i, n + 1)
  {
    hide Eval, EvalAll, Fit, Stored, Operands, Iterate, RunBlock, RunClauses, Grows;
    var t := s.(tick := s.tick + 1);
    SlotReads(c, l, t, fuel, i, n);
    SlotOperands();
    SlotIsStored(c.world, l, t, i, n);
  }

  lemma SlotReads(c: Context, l: Loc, s: State, fuel: nat, i: int, n: int)
    requires MapState(c.world, l, s, i, n) && 0 <= n < 128
    ensures EvalAll(c, Operands(SLOT) + [Lit(Int(0), INT64)], s, fuel, false) == Res(Done([MapRef(l), Int(n), Int(0)]), s, {})
  {
    hide Eval, EvalAll, Fit, Operands;
    var zero := Lit(Int(0), INT64);
    TableReads(c, l, s, fuel);
    LengthReads(c, l, s, fuel, i, n);
    Int64Holds(0);
    LiteralReads(c, zero, s, fuel);
    ThreeRead(c, TABLE, LENGTH, zero, s, fuel, MapRef(l), Int(n), Int(0));
    SlotOperands();
  }

  lemma SlotOperands()
    ensures Operands(SLOT) == [TABLE, LENGTH] && Root(SLOT).None?
    ensures Operands(SLOT) + [Lit(Int(0), INT64)] == [TABLE, LENGTH, Lit(Int(0), INT64)]
  {
  }

  lemma SlotIsStored(w: World, l: Loc, s: State, i: int, n: int)
    requires Grows(w, l) && MapState(w, l, s, i, n) && n >= 0
    requires Operands(SLOT) == [TABLE, LENGTH] && Root(SLOT).None?
    ensures var r := Stored(w, SLOT, Res(Done([MapRef(l), Int(n), Int(0)]), s, {})); r.flow.Normal? && MapState(w, l, r.st, i, n + 1)
  {
    hide Operands, Root, LengthOf, Grows;
    var vs := [MapRef(l), Int(n), Int(0)];
    assert |Operands(SLOT)| == 2 && vs[..|Operands(SLOT)|] == [MapRef(l), Int(n)] && vs[|Operands(SLOT)|] == Int(0);
    GrowsOnce(w, l, s.heap, n);
  }

  lemma GrowsOnce(w: World, l: Loc, heap: Heap, n: nat)
    requires Grows(w, l) && LengthOf(w, l, heap) == Int(n)
    ensures var after := w.store(SLOT, [MapRef(l), Int(n)], Int(0), heap);
            after.Some? && LengthOf(w, l, after.value) == Int(n + 1)
  {
    hide LengthOf;
  }

  lemma FirstReads(c: Context, x: Expr, es: seq<Expr>, s: State, fuel: nat, v: Value, vs: seq<Value>)
    requires Eval(c, x, s, fuel, false) == Res(Done(v), s, {}) && EvalAll(c, es, s, fuel, false) == Res(Done(vs), s, {})
    ensures EvalAll(c, [x] + es, s, fuel, false) == Res(Done([v] + vs), s, {})
  {
    hide Eval;
    assert ([x] + es)[1..] == es;
  }

  lemma ThreeRead(c: Context, x: Expr, y: Expr, z: Expr, s: State, fuel: nat, u: Value, v: Value, w: Value)
    requires Eval(c, x, s, fuel, false) == Res(Done(u), s, {}) && Eval(c, y, s, fuel, false) == Res(Done(v), s, {})
    requires Eval(c, z, s, fuel, false) == Res(Done(w), s, {})
    ensures EvalAll(c, [x, y, z], s, fuel, false) == Res(Done([u, v, w]), s, {})
  {
    hide Eval, EvalAll;
    OneReads(c, z, s, fuel, w);
    FirstReads(c, y, [z], s, fuel, v, [w]);
    FirstReads(c, x, [y] + [z], s, fuel, u, [v] + [w]);
    assert [x] + ([y] + [z]) == [x, y, z] && [u] + ([v] + [w]) == [u, v, w];
  }

  lemma MapBoundMisjudged(c: Context, l: Loc, s: State, fuel: nat, i: int, n: int, turns: nat) returns (hs: seq<State>)
    requires !c.live && Grows(c.world, l)
    requires MapState(c.world, l, s, i, n) && 0 <= i < n && n + turns <= 128 && turns <= fuel
    ensures Heads(c, Edited(MAP_LOOP, Elsewhere(MAP_LOOP.body)), hs, fuel) && hs[0] == s && |hs| == turns + 1
    ensures turns > n - i ==> |hs| > 1 + Variant(Lss, i, n)
    ensures var ind, edit := Induction("i", 1, Lss, None), Elsewhere(MAP_LOOP.body);
            && Recognised(MAP_LOOP, ind) && TerminationProof(ind, edit) == Some(Bounded)
            && forall own :: !Described(MAP_LOOP, ind, edit, LENGTH, own, 64, true)
  {
    hide Iterate, Recognised, Described, MapState, Heads, Grows;
    MapBoundIsBounded();
    var inv := (t: State, k: nat) => exists j, m :: MapState(c.world, l, t, j, m) && 0 <= j < m && m + k <= 128;
    forall t: State, k: nat, f: nat | k > 0 && f > 0 && inv(t, k) ensures TurnKeeps(c, MAP_LOOP, inv, t, k, f) {
      var j, m :| MapState(c.world, l, t, j, m) && 0 <= j < m && m + k <= 128;
      MapBoundTurns(c, l, t, f, j, m);
      SameMap(c.world, l, Iterate(c, MAP_LOOP, t, f).st, j + 1, m + 1);
    }
    hs := HeadsUnroll(c, MAP_LOOP, inv, s, fuel, turns);
  }

  lemma SameMap(w: World, l: Loc, s: State, i: int, n: int)
    requires MapState(w, l, s, i, n)
    ensures MapState(w, l, s.(tick := s.tick + 1), i, n)
  {
  }
}
