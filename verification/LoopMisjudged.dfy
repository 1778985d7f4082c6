/** Where the verdicts on loops go wrong: for each shape the code misreads, the verdict and the run. */
module LoopMisjudged {
  import opened GoValues
  import opened GoProgram
  import opened LoopFrames
  import opened Orbit
  import opened Termination
  import opened LoopVerdicts
  import opened Wrappers

  /** With the variable on the right of the comparison, a moved comparison that still bounds the loop is called unbounded. */
  lemma MirroredMoveMisjudged(c: Context, loop: Stmt, ind: Induction, edit: LoopEdit, bound: Expr, bits: nat, signed: bool,
                              hs: seq<State>, fuel: nat, i: int, b: int)
    requires Readable(loop, ind, edit, bound, bits, signed) && edit.MoveTest? && ind.Progresses()
    requires !IsVariable(loop.test.value.x, ind.variable) && NothingStored(loop.test.value, loop.body)
    requires ind.at.Some? ==> PostIsQuiet(loop)
    requires !c.live && Scalar(bound) && Heads(c, Edited(loop, edit), hs, fuel)
    requires Names(bound) <= hs[0].vars.Keys && Stands(c, ind.variable, bound, bits, signed, hs[0], i, b)
    ensures TerminationProof(ind, edit) == Some(Unbounded)
    ensures Room(Mirrored(edit.to), b, ind.step, bits, signed) ==> |hs| <= 1 + Variant(Mirrored(edit.to), i, b)
  {
    hide Heads, Eval, Stands, Scalar, Room, Variant, Names;
    MirroredFits(loop, ind, edit, bound, bits, signed);
    if Room(Mirrored(edit.to), b, ind.step, bits, signed) {
      BoundedEnds(c, Edited(loop, edit), ind.(comparison := Mirrored(edit.to)), bound, bits, signed, hs, fuel, i, b);
    }
  }

  lemma MirroredFits(loop: Stmt, ind: Induction, edit: LoopEdit, bound: Expr, bits: nat, signed: bool)
    requires Readable(loop, ind, edit, bound, bits, signed) && edit.MoveTest? && ind.Progresses()
    requires !IsVariable(loop.test.value.x, ind.variable) && NothingStored(loop.test.value, loop.body)
    requires ind.at.Some? ==> PostIsQuiet(loop)
    ensures var after := ind.(comparison := Mirrored(edit.to));
            after.Progresses() && Fits(Edited(loop, edit), after, bound, bits, signed)
    ensures TerminationProof(ind, edit) == Some(Unbounded)
  {
    hide Names, Assigns, StoresInto, Continues, Conforms, Tests;
    ReadableShape(loop, ind, edit, bound, bits, signed);
    MirroredTests(loop.test.value, ind.variable, ind.comparison, bound, TInt(bits, signed));
  }

  lemma MirroredTests(test: Expr, x: string, comparison: BinOp, bound: Expr, t: Type)
    requires test.Binary? && ReadComparison(test, x) == Some(comparison) && Tests(test, x, comparison, bound, t)
    requires !IsVariable(test.x, x)
    ensures Tests(test.(op := Moved(test.op)), x, Mirrored(Moved(test.op)), bound, t) && comparison == Mirrored(test.op)
  {
    hide Names;
  }

  /** Deleting the step in the body counts as an edit elsewhere and is called bounded, yet the loop never leaves a
      test it once passed. */
  lemma DeletedBodyStepMisjudged(c: Context, loop: Stmt, ind: Induction, bound: Expr, bits: nat, signed: bool,
                                 hs: seq<State>, fuel: nat, i: int, b: int, k: nat)
    requires Recognised(loop, ind) && ind.Progresses() && ind.at.Some? && loop.post.None?
    requires var left := Elsewhere(loop.body[..ind.at.value] + loop.body[ind.at.value + 1..]);
             && Heads(c, Edited(loop, left), hs, fuel) && k < |hs|
             && Start(c, Edited(loop, left), Induction(ind.variable, 0, ind.comparison, None), bound, bits, signed, hs[0], i, b)
    requires Holds(ind.comparison, i, b)
    ensures var left := Elsewhere(loop.body[..ind.at.value] + loop.body[ind.at.value + 1..]);
            && TerminationProof(ind, left) == Some(Bounded)
            && Eval(c, loop.test.value, hs[k], fuel, false) == Res(Done(Bool(true)), hs[k], {})
  {
    hide Heads, Eval, Names, Counts, Tests, Scalar, Low, Pow2;
    var left := Elsewhere(loop.body[..ind.at.value] + loop.body[ind.at.value + 1..]);
    MultipleOfZero(k);
    UnboundedPersists(c, Edited(loop, left), Induction(ind.variable, 0, ind.comparison, None), bound, bits, signed,
                      hs, fuel, i, b, k);
  }

  /** An edit of the post statement of a loop that steps in its body is judged as if it touched the step: the loop
      counts on as before, and is called unbounded. */
  lemma PostEditMisjudged(c: Context, loop: Stmt, ind: Induction, edit: LoopEdit, bound: Expr, bits: nat, signed: bool,
                          hs: seq<State>, fuel: nat, i: int, b: int)
    requires Readable(loop, ind, edit, bound, bits, signed) && (edit.ReversePost? || edit.DeletePost?)
    requires ind.at.Some? && ind.Progresses() && PostIsQuiet(loop) && NothingStored(loop.test.value, loop.body)
    requires !c.live && Scalar(bound) && Heads(c, Edited(loop, edit), hs, fuel)
    requires Names(bound) <= hs[0].vars.Keys && Stands(c, ind.variable, bound, bits, signed, hs[0], i, b)
    ensures TerminationProof(ind, edit) == Some(Unbounded)
    ensures Ordering(ind.comparison) && Room(ind.comparison, b, ind.step, bits, signed) ==>
              |hs| <= 1 + Variant(ind.comparison, i, b)
  {
    hide Heads, Eval, Stands, Scalar, Room, Variant, Names;
    PostEditFits(loop, ind, edit, bound, bits, signed);
    if Room(ind.comparison, b, ind.step, bits, signed) {
      BoundedEnds(c, Edited(loop, edit), ind, bound, bits, signed, hs, fuel, i, b);
    }
  }

  lemma PostEditFits(loop: Stmt, ind: Induction, edit: LoopEdit, bound: Expr, bits: nat, signed: bool)
    requires Readable(loop, ind, edit, bound, bits, signed) && (edit.ReversePost? || edit.DeletePost?)
    requires ind.at.Some? && ind.Progresses() && PostIsQuiet(loop) && NothingStored(loop.test.value, loop.body)
    ensures Fits(Edited(loop, edit), ind, bound, bits, signed) && TerminationProof(ind, edit) == Some(Unbounded)
  {
    hide Names, Continues, Conforms;
    ReadableShape(loop, ind, edit, bound, bits, signed);
  }

  const INT8 := TInt(8, true)

  /** `for ; i < 2; i = 0 { i++ }`: the step is read from the body and the post statement is not looked at. */
  const RESET_LOOP :=
    For(0, Some(Binary(Lss, Ident("i", INT8), Lit(Int(2), INT8), TBool, None)),
        Some(Assign("i", Set, Lit(Int(0), INT8), INT8)), [IncDec("i", true, INT8)])

  /** The code recognises it, and calls every edit elsewhere bounded, but it comes back to its head for ever. */
  lemma ResettingPostMisjudged(c: Context, s: State, fuel: nat)
    requires !c.live && s.vars == map["i" := Int(0)]
    ensures var ind := Induction("i", 1, Lss, Some(0));
            Recognised(RESET_LOOP, ind) && TerminationProof(ind, Elsewhere(RESET_LOOP.body)) == Some(Bounded)
    ensures var it := Iterate(c, RESET_LOOP, s, fuel); it.flow.Normal? && it.st.vars == s.vars
  {
    hide Recognised, Iterate;
    ResetLoopIsRecognised();
    ResetTurn(c, s, fuel);
  }

  lemma ResetLoopIsRecognised()
    ensures Recognised(RESET_LOOP, Induction("i", 1, Lss, Some(0)))
  {
    assert Names(RESET_LOOP.test.value) == {"i"};
    assert !ContinuesAny(RESET_LOOP.body);
  }

  lemma ResetTurn(c: Context, s: State, fuel: nat)
    requires !c.live && s.vars == map["i" := Int(0)]
    ensures var it := Iterate(c, RESET_LOOP, s, fuel); it.flow.Normal? && it.st.vars == s.vars
  {
    hide Eval, Run, Pow2, Low, Wrap;
    assert Fit(Int(2), INT8) == Int(2) && Fit(Int(0), INT8) == Int(0) && InRange(0, 8, true) && Wrap(1, 8, true) == 1 by {
      Int8Range();
    }
    IdentReads(c, "i", INT8, s, fuel);
    LiteralReads(c, RESET_LOOP.test.value.y, s, fuel);
    OperationReads(c, RESET_LOOP.test.value, s, fuel, Int(0), Int(2));
    var step := RESET_LOOP.body[0];
    StepRuns(c, step, "i", 1, 8, true, s, fuel, 0);
    var t := Run(c, step, s, fuel).st;
    assert RESET_LOOP.body[1..] == [];
    assert RunBlock(c, RESET_LOOP.body[1..], t, fuel) == Ran(Normal, t, {});
    ResetRuns(c, t, fuel);
  }

  lemma Int8Range()
    ensures Fit(Int(2), INT8) == Int(2) && Fit(Int(0), INT8) == Int(0) && InRange(0, 8, true) && Wrap(1, 8, true) == 1
  {
    assert Pow2(2) == 4 && Pow2(4) == 16 && Pow2(6) == 64 && Pow2(7) == 128 && Pow2(8) == 256;
  }

  lemma ResetRuns(c: Context, s: State, fuel: nat)
    requires s.vars == map["i" := Int(1)]
    ensures var r := Run(c, RESET_LOOP.post.value, s, fuel); r.flow.Normal? && r.st.vars == map["i" := Int(0)]
  {
    hide Eval, Pow2, Low, Wrap;
    Int8Range();
    LiteralReads(c, Lit(Int(0), INT8), s.(tick := s.tick + 1), fuel);
  }

  // ----- wrap-around

  /** `for ; i < 127; i++ {}` over eight bits. */
  const COUNT_LOOP :=
    For(0, Some(Binary(Lss, Ident("i", INT8), Lit(Int(127), INT8), TBool, None)), Some(IncDec("i", true, INT8)), [])

  /** Moving its comparison to `i <= 127` is called bounded, but the test is true for ever. */
  lemma LastValueMisjudged(c: Context, hs: seq<State>, fuel: nat, i: int, k: nat)
    requires !c.live && Heads(c, Edited(COUNT_LOOP, MoveTest(Leq)), hs, fuel) && k < |hs|
    requires InRange(i, 8, true) && hs[0].vars == map["i" := Int(i)]
    ensures TerminationProof(Induction("i", 1, Lss, None), MoveTest(Leq)) == Some(Bounded)
    ensures Eval(c, Edited(COUNT_LOOP, MoveTest(Leq)).test.value, hs[k], fuel, false) == Res(Done(Bool(true)), hs[k], {})
  {
    hide Heads, Eval, Readable, Described, AtMost, Stands, Conforms;
    var ind, bound := Induction("i", 1, Lss, None), Lit(Int(127), INT8);
    CountLoopIsReadable();
    Int8Holds(127);
    LiteralReads(c, bound, hs[0], 0);
    CountLoopStands(c, hs[0], i);
    UnitBoundedExact(c, COUNT_LOOP, ind, MoveTest(Leq), bound, {"i"}, 8, true, hs[0], i, 127);
  }

  lemma CountLoopIsReadable()
    ensures var ind, edit := Induction("i", 1, Lss, None), MoveTest(Leq);
            && Readable(COUNT_LOOP, ind, edit, Lit(Int(127), INT8), 8, true) && Described(COUNT_LOOP, ind, edit, Lit(Int(127), INT8), {"i"}, 8, true)
  {
    CountLoopIsRecognised();
    hide Recognised, Names;
  }

  lemma CountLoopIsRecognised()
    ensures Names(COUNT_LOOP.test.value) == {"i"} && Recognised(COUNT_LOOP, Induction("i", 1, Lss, None))
  {
    assert Names(COUNT_LOOP.test.value) == {"i"};
  }

  lemma CountLoopStands(c: Context, s: State, i: int)
    requires InRange(i, 8, true) && s.vars == map["i" := Int(i)]
    ensures Stands(c, "i", Lit(Int(127), INT8), 8, true, s, i, 127)
  {
    hide Eval;
    Int8Holds(127);
    LiteralReads(c, Lit(Int(127), INT8), s, 0);
  }

  lemma Int8Holds(x: int)
    requires -128 <= x < 128
    ensures Low(8, true) == -128 && Pow2(8) == 256 && InRange(x, 8, true) && Fit(Int(x), INT8) == Int(x)
  {
    assert Pow2(2) == 4 && Pow2(4) == 16 && Pow2(6) == 64 && Pow2(7) == 128;
  }
}
