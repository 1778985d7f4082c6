/** What the termination verdicts mean for the runs of an edited loop, and where they go wrong. */
module LoopVerdicts {
  import opened GoValues
  import opened GoProgram
  import opened LoopFrames
  import opened Orbit
  import opened Termination
  import opened Wrappers

  // ----- runs of a loop, head by head

  /** `hs` are the states at the first heads of a run of the loop: each turn comes back to the next. */
  ghost predicate Heads(c: Context, loop: Stmt, hs: seq<State>, fuel: nat) {
    && loop.For? && hs != []
    && forall k :: 0 <= k < |hs| - 1 ==> TurnAt(c, loop, hs, fuel, k)
  }

  ghost predicate TurnAt(c: Context, loop: Stmt, hs: seq<State>, fuel: nat, k: int)
    requires loop.For? && 0 <= k < |hs| - 1
  {
    k < fuel && Returns(c, loop, hs[k], hs[k + 1], fuel - k)
  }

  ghost predicate Returns(c: Context, loop: Stmt, s: State, t: State, fuel: nat)
    requires loop.For?
  {
    var it := Iterate(c, loop, s, fuel);
    it.flow.Normal? && t == it.st.(tick := it.st.tick + 1)
  }

  function Before(head: State): State
    requires head.tick > 0
  {
    head.(tick := head.tick - 1)
  }

  /** A run of the loop is its heads, followed by a run from the last of them. */
  lemma {:induction false} RunThroughHeads(c: Context, loop: Stmt, hs: seq<State>, fuel: nat)
    requires Heads(c, loop, hs, fuel) && hs[0].tick > 0 && |hs| <= fuel + 1
    ensures hs[|hs| - 1].tick > 0
    ensures var r, last := Run(c, loop, Before(hs[0]), fuel), Run(c, loop, Before(hs[|hs| - 1]), fuel + 1 - |hs|);
            r.flow == last.flow && r.st == last.st
    decreases |hs|
  {
    hide Iterate;
    if |hs| > 1 {
      assert TurnAt(c, loop, hs, fuel, 0);
      var rest, left := hs[1..], fuel - 1;
      assert Heads(c, loop, rest, left) by {
        forall k | 0 <= k < |rest| - 1 ensures TurnAt(c, loop, rest, left, k) {
          assert TurnAt(c, loop, hs, fuel, k + 1);
        }
      }
      assert hs[1].tick > 0;
      RunThroughHeads(c, loop, rest, left);
      assert rest[|rest| - 1] == hs[|hs| - 1];
    }
  }

  /** The variable holds `i`, and the bound has the value `b`. */
  ghost predicate Stands(c: Context, x: string, bound: Expr, bits: nat, signed: bool, s: State, i: int, b: int) {
    && InRange(i, bits, signed) && x in s.vars && s.vars[x] == Int(i)
    && Eval(c, bound, s, 0, false).out == Done(Int(b))
  }

  /** The loop counts and tests as `ind` says. */
  predicate Fits(loop: Stmt, ind: Induction, bound: Expr, bits: nat, signed: bool) {
    && loop.For? && loop.test.Some? && Ordering(ind.comparison)
    && Counts(loop, ind, Names(bound), bits, signed)
    && Tests(loop.test.value, ind.variable, ind.comparison, bound, TInt(bits, signed))
  }

  /** The loop stands at its first head. */
  ghost predicate Start(c: Context, loop: Stmt, ind: Induction, bound: Expr, bits: nat, signed: bool, s: State, i: int, b: int) {
    && !c.live && Scalar(bound) && Fits(loop, ind, bound, bits, signed)
    && Names(bound) <= s.vars.Keys && Stands(c, ind.variable, bound, bits, signed, s, i, b)
  }

  /** At head `k` the variable has taken `k` steps, with wrap-around, and the bound's names have not moved. */
  lemma {:induction false} HeadValues(c: Context, loop: Stmt, ind: Induction, bound: Expr, bits: nat, signed: bool,
                                      hs: seq<State>, fuel: nat, i: int, b: int, k: nat)
    requires Heads(c, loop, hs, fuel) && k < |hs| && Start(c, loop, ind, bound, bits, signed, hs[0], i, b)
    ensures ind.variable in hs[k].vars && hs[k].vars[ind.variable] == Int(After(i, ind.step, k, bits, signed))
    ensures SameOn(Names(bound), hs[0], hs[k])
    decreases k
  {
    hide Iterate, Counts, Scalar, Tests, Eval, Names, Wrap, Pow2, Low, After;
    if k == 0 {
      AtTheStart(i, ind.step, bits, signed);
    } else {
      HeadValues(c, loop, ind, bound, bits, signed, hs, fuel, i, b, k - 1);
      assert TurnAt(c, loop, hs, fuel, k - 1);
      TurnMoves(c, loop, ind, Names(bound), bits, signed, hs[k - 1], fuel - (k - 1), After(i, ind.step, k - 1, bits, signed));
      AfterNext(i, ind.step, k - 1, bits, signed);
    }
  }

  lemma AtTheStart(i: int, step: int, bits: nat, signed: bool)
    requires InRange(i, bits, signed)
    ensures After(i, step, 0, bits, signed) == i
  {
  }

  /** The test at head `k` compares the `k`-th value with the bound. */
  lemma HeadTest(c: Context, loop: Stmt, ind: Induction, bound: Expr, bits: nat, signed: bool,
                 hs: seq<State>, fuel: nat, i: int, b: int, k: nat, f: nat)
    requires Heads(c, loop, hs, fuel) && k < |hs| && Start(c, loop, ind, bound, bits, signed, hs[0], i, b)
    ensures Eval(c, loop.test.value, hs[k], f, false)
            == Res(Done(Bool(Holds(ind.comparison, After(i, ind.step, k, bits, signed), b))), hs[k], {})
  {
    hide Iterate, Counts, Scalar, Tests, Eval, Names, Wrap, Pow2, Low, Holds, After;
    HeadValues(c, loop, ind, bound, bits, signed, hs, fuel, i, b, k);
    ScalarReads(c, bound, hs[0], hs[k], 0, f);
    ScalarReads(c, bound, hs[k], hs[k], f, 0);
    TestReads(c, loop.test.value, ind.variable, ind.comparison, bound, bits, signed, hs[k], f,
              After(i, ind.step, k, bits, signed), b);
  }

  /** A turn comes back to the head only through a true test. */
  lemma ReturnsThroughTest(c: Context, loop: Stmt, s: State, t: State, fuel: nat, v: bool)
    requires loop.For? && loop.test.Some? && !c.live && Returns(c, loop, s, t, fuel)
    requires Eval(c, loop.test.value, s, fuel, false) == Res(Done(Bool(v)), s, {})
    ensures v
  {
    hide Eval, RunBlock, Run;
  }

  // ----- bounded and unbounded, as long as the variable does not wrap around

  /** No value that passes the test wraps around on its next step. */
  predicate Room(op: BinOp, b: int, step: int, bits: nat, signed: bool) {
    match op
    case Lss => b - 1 + step < Low(bits, signed) + Pow2(bits)
    case Leq => b + step < Low(bits, signed) + Pow2(bits)
    case Gtr => Low(bits, signed) <= b + 1 + step
    case _ => Low(bits, signed) <= b + step
  }

  /** What is left of the way to the bound. */
  function Variant(op: BinOp, i: int, b: int): (v: nat) {
    var d := match op case Lss => b - i case Leq => b - i + 1 case Gtr => i - b case _ => i - b + 1;
    if d > 0 then d else 0
  }

  lemma {:induction false} NoWrap(i: int, step: int, k: nat, bits: nat, signed: bool)
    requires InRange(i + k * step, bits, signed)
    ensures After(i, step, k, bits, signed) == i + k * step
  {
  }

  /** A loop whose step moves towards the bound, with room, is at its head at most `Variant + 1` times. */
  lemma {:induction false} BoundedEnds(c: Context, loop: Stmt, ind: Induction, bound: Expr, bits: nat, signed: bool,
                                       hs: seq<State>, fuel: nat, i: int, b: int)
    requires Heads(c, loop, hs, fuel) && Start(c, loop, ind, bound, bits, signed, hs[0], i, b)
    requires ind.Progresses() && Room(ind.comparison, b, ind.step, bits, signed)
    ensures |hs| <= 1 + Variant(ind.comparison, i, b)
  {
    hide Iterate, Counts, Scalar, Tests, Eval, Names, Wrap, Pow2, Low, After;
    var k, now := 0, i;
    AtTheStart(i, ind.step, bits, signed);
    while k < |hs| - 1
      invariant k <= |hs| - 1 && now == i + k * ind.step && After(i, ind.step, k, bits, signed) == now
      invariant InRange(now, bits, signed)
      invariant Variant(ind.comparison, now, b) + k <= Variant(ind.comparison, i, b)
    {
      assert TurnAt(c, loop, hs, fuel, k);
      HeadTest(c, loop, ind, bound, bits, signed, hs, fuel, i, b, k, fuel - k);
      ReturnsThroughTest(c, loop, hs[k], hs[k + 1], fuel - k, Holds(ind.comparison, now, b));
      Distribute(k, 1, ind.step);
      NoWrap(i, ind.step, k + 1, bits, signed);
      k, now := k + 1, now + ind.step;
    }
  }

  /** A loop whose step does not move towards the bound stays below its test once it is there, up to the first
      wrap-around. */
  lemma UnboundedPersists(c: Context, loop: Stmt, ind: Induction, bound: Expr, bits: nat, signed: bool,
                          hs: seq<State>, fuel: nat, i: int, b: int, k: nat)
    requires Heads(c, loop, hs, fuel) && Start(c, loop, ind, bound, bits, signed, hs[0], i, b)
    requires !ind.Progresses() && Holds(ind.comparison, i, b)
    requires k < |hs| && InRange(i + k * ind.step, bits, signed)
    ensures Eval(c, loop.test.value, hs[k], fuel, false) == Res(Done(Bool(true)), hs[k], {})
  {
    hide Iterate, Counts, Scalar, Tests, Eval, Names, Wrap, Pow2, Low, After;
    HeadTest(c, loop, ind, bound, bits, signed, hs, fuel, i, b, k, fuel);
    NoWrap(i, ind.step, k, bits, signed);
    if k > 0 && ind.step != 0 { MagnitudeAtLeast(ind.step, k); }
    if ind.step == 0 { MultipleOfZero(k); }
  }

  lemma MultipleOfZero(k: int)
    ensures k * 0 == 0
  {
  }

  // ----- exactly when a loop ends on machine integers

  /** The value on the orbit of `i` that is hardest for the test. */
  function Extreme(op: BinOp, i: int, step: int, bits: nat, signed: bool): int {
    if op.Lss? || op.Leq? then Highest(i, step, bits, signed) else Lowest(i, step, bits, signed)
  }

  lemma ExtremeDecides(op: BinOp, i: int, step: int, b: int, bits: nat, signed: bool)
    requires Ordering(op) && InRange(i, bits, signed)
    ensures (forall k: nat :: Holds(op, After(i, step, k, bits, signed), b))
            <==> Holds(op, Extreme(op, i, step, bits, signed), b)
  {
    hide After, Highest, Lowest, Low, Pow2;
    HighestVisited(i, step, bits, signed);
    LowestVisited(i, step, bits, signed);
  }

  ghost predicate AtMost(c: Context, loop: Stmt, s: State, most: nat) {
    forall hs, fuel :: Heads(c, loop, hs, fuel) && hs[0] == s ==> |hs| <= most
  }

  /** A loop that counts either always finds its test true, or is at its head a bounded number of times: it
      never ends by its test exactly when the extreme value of the orbit still passes the test. */
  lemma EndsExactly(c: Context, loop: Stmt, ind: Induction, bound: Expr, bits: nat, signed: bool, s: State, i: int, b: int)
    requires Start(c, loop, ind, bound, bits, signed, s, i, b)
    ensures Holds(ind.comparison, Extreme(ind.comparison, i, ind.step, bits, signed), b) ==>
              forall hs, fuel, k | Heads(c, loop, hs, fuel) && hs[0] == s && 0 <= k < |hs| ::
                Eval(c, loop.test.value, hs[k], fuel, false) == Res(Done(Bool(true)), hs[k], {})
    ensures !Holds(ind.comparison, Extreme(ind.comparison, i, ind.step, bits, signed), b) ==>
              exists most: nat :: AtMost(c, loop, s, most)
  {
    hide Iterate, Counts, Scalar, Tests, Eval, Names, Wrap, Pow2, Low, After, Holds, Extreme;
    ExtremeDecides(ind.comparison, i, ind.step, b, bits, signed);
    if Holds(ind.comparison, Extreme(ind.comparison, i, ind.step, bits, signed), b) {
      forall hs, fuel, k | Heads(c, loop, hs, fuel) && hs[0] == s && 0 <= k < |hs|
        ensures Eval(c, loop.test.value, hs[k], fuel, false) == Res(Done(Bool(true)), hs[k], {})
      {
        HeadTest(c, loop, ind, bound, bits, signed, hs, fuel, i, b, k, fuel);
      }
    } else {
      var last: nat :| !Holds(ind.comparison, After(i, ind.step, last, bits, signed), b);
      forall hs, fuel | Heads(c, loop, hs, fuel) && hs[0] == s ensures |hs| <= last + 1 {
        StopsAt(c, loop, ind, bound, bits, signed, hs, fuel, i, b, last);
      }
      assert AtMost(c, loop, s, last + 1);
    }
  }

  lemma StopsAt(c: Context, loop: Stmt, ind: Induction, bound: Expr, bits: nat, signed: bool,
                hs: seq<State>, fuel: nat, i: int, b: int, k: nat)
    requires Heads(c, loop, hs, fuel) && Start(c, loop, ind, bound, bits, signed, hs[0], i, b)
    requires !Holds(ind.comparison, After(i, ind.step, k, bits, signed), b)
    ensures |hs| <= k + 1
  {
    hide Iterate, Counts, Scalar, Tests, Eval, Names, Wrap, Pow2, Low, After, Holds;
    if |hs| > k + 1 {
      assert TurnAt(c, loop, hs, fuel, k);
      HeadTest(c, loop, ind, bound, bits, signed, hs, fuel, i, b, k, fuel - k);
      ReturnsThroughTest(c, loop, hs[k], hs[k + 1], fuel - k, false);
    }
  }

  /** With unit steps, whatever their direction, the only endless comparisons are with the end of the type: the
      verdict `bounded` fails there, and `unbounded` is literally true only there. */
  lemma UnitStepsEnd(op: BinOp, i: int, step: int, b: int, bits: nat, signed: bool)
    requires Ordering(op) && InRange(i, bits, signed) && InRange(b, bits, signed) && (step == 1 || step == -1)
    ensures var low := Low(bits, signed);
            Holds(op, Extreme(op, i, step, bits, signed), b)
            <==> (op.Leq? && b == low + Pow2(bits) - 1) || (op.Geq? && b == low)
  {
    assert Gap(step, bits) == 1;
  }

  // ----- from the code's verdict to the run of the edited loop

  /** A recognised integer loop, and an edit that a rule made of it. */
  predicate Readable(loop: Stmt, ind: Induction, edit: LoopEdit, bound: Expr, bits: nat, signed: bool) {
    && Recognised(loop, ind)
    && Tests(loop.test.value, ind.variable, ind.comparison, bound, TInt(bits, signed))
    && StepTyped(if ind.at.None? then loop.post.value else loop.body[ind.at.value], bits, signed)
    && (edit.MoveTest? ==> edit.to == Moved(loop.test.value.op))
    && (edit.ReversePost? || edit.DeletePost? ==> loop.post.Some?)
    && ApplyToLoop(ind, edit).Some? && !edit.SettleTestFalse?
  }

  /** A loop that steps in its body has a post statement that leaves the test alone and is not what is edited; a moved
      comparison has the variable on its left; an edit elsewhere keeps the step; nothing in the edited body stores
      into a part of a variable that the test reads; the bound is a scalar; and the test reads only variables in `own`, the
      variables of the function that no pointer, closure or other function can reach. */
  predicate Described(loop: Stmt, ind: Induction, edit: LoopEdit, bound: Expr, own: set<string>, bits: nat, signed: bool)
    requires Recognised(loop, ind)
  {
    && Scalar(bound) && Names(loop.test.value) <= own
    && (ind.at.Some? ==> !edit.ReversePost? && !edit.DeletePost? && PostIsQuiet(loop))
    && (edit.MoveTest? ==> IsVariable(loop.test.value.x, ind.variable))
    && (edit.Elsewhere? ==> StepKept(loop, ind, edit.body, bits, signed))
    && NothingStored(loop.test.value, if edit.Elsewhere? then edit.body else loop.body)
  }

  predicate NothingStored(test: Expr, body: seq<Stmt>) {
    forall n :: n in Names(test) ==> !StoresIntoAny(body, n)
  }

  predicate PostIsQuiet(loop: Stmt)
    requires loop.For? && loop.test.Some?
  {
    loop.post.Some? ==> forall n :: n in Names(loop.test.value) ==> !Changes(loop.post.value, n)
  }

  /** The body still has the step where it was, and no other assignment that matters. */
  predicate StepKept(loop: Stmt, ind: Induction, body: seq<Stmt>, bits: nat, signed: bool)
    requires loop.For? && loop.test.Some?
  {
    && (ind.at.Some? ==>
          ind.at.value < |body| && Steps(body[ind.at.value], ind.variable, ind.step, bits, signed) && !ContinuesAny(body))
    && forall n :: n in Names(loop.test.value) ==> !AssignsExcept(body, n, ind.at)
  }

  lemma TestNames(test: Expr, x: string, op: BinOp, bound: Expr, t: Type)
    requires test.Binary? && Tests(test, x, op, bound, t)
    requires ReadComparison(test, x).Some?
    ensures Names(test) == Names(bound) + {x} && x !in Names(bound)
  {
    hide Names;
    NamesOf(test, x, t);
  }

  lemma NamesOf(test: Expr, x: string, t: Type)
    requires test.Binary?
    ensures Names(test) == Names(test.x) + Names(test.y) && Names(Ident(x, t)) == {x}
  {
  }

  /** What the code ascribes to the edited loop: it fits the induction, and nothing but the statements of the loop moves its
      variables or its bound. */
  predicate Ascribed(loop: Stmt, after: Induction, bound: Expr, own: set<string>, bits: nat, signed: bool) {
    Fits(loop, after, bound, bits, signed) && Scalar(bound) && Names(bound) + {after.variable} <= own
  }

  /** The induction the code ascribes to the edited loop is true of its text exactly when the edit is described. */
  lemma EditDescribed(loop: Stmt, ind: Induction, edit: LoopEdit, bound: Expr, own: set<string>, bits: nat, signed: bool)
    requires Readable(loop, ind, edit, bound, bits, signed)
    ensures Ascribed(Edited(loop, edit), ApplyToLoop(ind, edit).value, bound, own, bits, signed)
            <==> Described(loop, ind, edit, bound, own, bits, signed)
  {
    hide Readable, Fits, Described, Recognised, Names, Scalar;
    ReadableShape(loop, ind, edit, bound, bits, signed);
    if Described(loop, ind, edit, bound, own, bits, signed) {
      DescribedFits(loop, ind, edit, bound, own, bits, signed);
    }
    if Ascribed(Edited(loop, edit), ApplyToLoop(ind, edit).value, bound, own, bits, signed) {
      FitsDescribed(loop, ind, edit, bound, own, bits, signed);
    }
  }

  lemma ReadableShape(loop: Stmt, ind: Induction, edit: LoopEdit, bound: Expr, bits: nat, signed: bool)
    requires Readable(loop, ind, edit, bound, bits, signed)
    ensures loop.For? && loop.test.Some? && Ordering(ind.comparison) && Recognised(loop, ind) && ApplyToLoop(ind, edit).Some?
    ensures Names(loop.test.value) == Names(bound) + {ind.variable} && ind.variable !in Names(bound)
    ensures ind.at.None? ==> loop.post.Some?
  {
    hide Names, Assigns, StoresInto, Continues, Conforms;
    TestNames(loop.test.value, ind.variable, ind.comparison, bound, TInt(bits, signed));
  }

  lemma DescribedFits(loop: Stmt, ind: Induction, edit: LoopEdit, bound: Expr, own: set<string>, bits: nat, signed: bool)
    requires Readable(loop, ind, edit, bound, bits, signed) && Described(loop, ind, edit, bound, own, bits, signed)
    ensures Ascribed(Edited(loop, edit), ApplyToLoop(ind, edit).value, bound, own, bits, signed)
  {
    hide Scalar, Names, Assigns, StoresInto, Continues, Conforms, Tests;
    ReadableShape(loop, ind, edit, bound, bits, signed);
    TestsMoveWithEdit(loop, ind, edit, bound, bits, signed);
    if edit.ReversePost? { ReversedSteps(loop.post.value, ind.variable, ind.step, bits, signed); }
  }

  lemma FitsDescribed(loop: Stmt, ind: Induction, edit: LoopEdit, bound: Expr, own: set<string>, bits: nat, signed: bool)
    requires Readable(loop, ind, edit, bound, bits, signed)
    requires Ascribed(Edited(loop, edit), ApplyToLoop(ind, edit).value, bound, own, bits, signed)
    ensures Described(loop, ind, edit, bound, own, bits, signed)
  {
    hide Scalar, Names, Assigns, StoresInto, Continues, Conforms, Tests;
    ReadableShape(loop, ind, edit, bound, bits, signed);
    TestsMoveWithEdit(loop, ind, edit, bound, bits, signed);
  }

  lemma TestsMoveWithEdit(loop: Stmt, ind: Induction, edit: LoopEdit, bound: Expr, bits: nat, signed: bool)
    requires Readable(loop, ind, edit, bound, bits, signed)
    ensures var after := ApplyToLoop(ind, edit).value;
            && Ordering(after.comparison)
            && (Tests(Edited(loop, edit).test.value, ind.variable, after.comparison, bound, TInt(bits, signed))
                <==> (edit.MoveTest? ==> IsVariable(loop.test.value.x, ind.variable)))
  {
    hide Names, Assigns, StoresInto, Continues, Conforms, StepIsRead;
    if edit.MoveTest? { MoveExact(loop.test.value, ind.variable, ind.comparison, bound, TInt(bits, signed)); }
  }

  lemma ReversedSteps(post: Stmt, x: string, delta: int, bits: nat, signed: bool)
    requires Steps(post, x, delta, bits, signed)
    ensures Steps(Reversed(post), x, -delta, bits, signed)
  {
  }

  /** Main result: the verdicts are true of every run of the edited loop, up to wrap-around. */
  lemma VerdictSound(c: Context, loop: Stmt, ind: Induction, edit: LoopEdit, bound: Expr, own: set<string>, bits: nat, signed: bool,
                     hs: seq<State>, fuel: nat, i: int, b: int, k: nat)
    requires Readable(loop, ind, edit, bound, bits, signed) && Described(loop, ind, edit, bound, own, bits, signed)
    requires !c.live && Heads(c, Edited(loop, edit), hs, fuel) && k < |hs| && own <= hs[0].vars.Keys
    requires Stands(c, ind.variable, bound, bits, signed, hs[0], i, b)
    ensures var after := ApplyToLoop(ind, edit).value;
            && (TerminationProof(ind, edit) == Some(Bounded) && Room(after.comparison, b, after.step, bits, signed) ==>
                  |hs| <= 1 + Variant(after.comparison, i, b))
            && (TerminationProof(ind, edit) == Some(Unbounded) && Ordering(after.comparison) && Holds(after.comparison, i, b)
                && InRange(i + k * after.step, bits, signed) ==>
                  Eval(c, Edited(loop, edit).test.value, hs[k], fuel, false) == Res(Done(Bool(true)), hs[k], {}))
  {
    hide Readable, Described, Recognised, Fits, Stands, Heads, Eval, Names, Counts, Tests, Scalar, Room, Variant, Holds, InRange;
    ReadableShape(loop, ind, edit, bound, bits, signed);
    EditDescribed(loop, ind, edit, bound, own, bits, signed);
    var after, mutant := ApplyToLoop(ind, edit).value, Edited(loop, edit);
    if TerminationProof(ind, edit) == Some(Bounded) {
      if Room(after.comparison, b, after.step, bits, signed) {
        BoundedEnds(c, mutant, after, bound, bits, signed, hs, fuel, i, b);
      }
    } else if TerminationProof(ind, edit) == Some(Unbounded) && Ordering(after.comparison) {
      if Holds(after.comparison, i, b) && InRange(i + k * after.step, bits, signed) {
        UnboundedPersists(c, mutant, after, bound, bits, signed, hs, fuel, i, b, k);
      }
    }
  }

  /** The same with wrap-around. Whatever the verdict, the edited loop finds its test true at every head when the hardest
      value on the orbit of its variable passes the test, and is at its head a bounded number of times otherwise. */
  lemma VerdictExact(c: Context, loop: Stmt, ind: Induction, edit: LoopEdit, bound: Expr, own: set<string>, bits: nat, signed: bool,
                     s: State, i: int, b: int)
    requires Readable(loop, ind, edit, bound, bits, signed) && Described(loop, ind, edit, bound, own, bits, signed)
    requires !c.live && own <= s.vars.Keys && Stands(c, ind.variable, bound, bits, signed, s, i, b)
    ensures var after, mutant := ApplyToLoop(ind, edit).value, Edited(loop, edit);
            && Ordering(after.comparison)
            && (Holds(after.comparison, Extreme(after.comparison, i, after.step, bits, signed), b) ==>
                  forall hs, fuel, k | Heads(c, mutant, hs, fuel) && hs[0] == s && 0 <= k < |hs| ::
                    Eval(c, mutant.test.value, hs[k], fuel, false) == Res(Done(Bool(true)), hs[k], {}))
            && (!Holds(after.comparison, Extreme(after.comparison, i, after.step, bits, signed), b) ==>
                  exists most: nat :: AtMost(c, mutant, s, most))
  {
    hide Readable, Described, Recognised, Stands, Heads, Eval, Names, Counts, Tests, Scalar, Holds, InRange, Extreme, AtMost;
    ReadableShape(loop, ind, edit, bound, bits, signed);
    EditDescribed(loop, ind, edit, bound, own, bits, signed);
    EndsExactly(c, Edited(loop, edit), ApplyToLoop(ind, edit).value, bound, bits, signed, s, i, b);
  }

  /** For a step by one the verdict `bounded` is right exactly when the comparison is not with the end of the type. */
  lemma UnitBoundedExact(c: Context, loop: Stmt, ind: Induction, edit: LoopEdit, bound: Expr, own: set<string>, bits: nat, signed: bool,
                         s: State, i: int, b: int)
    requires Readable(loop, ind, edit, bound, bits, signed) && Described(loop, ind, edit, bound, own, bits, signed)
    requires !c.live && own <= s.vars.Keys && Stands(c, ind.variable, bound, bits, signed, s, i, b) && InRange(b, bits, signed)
    requires TerminationProof(ind, edit) == Some(Bounded) && (ind.step == 1 || ind.step == -1)
    ensures var op, mutant := ApplyToLoop(ind, edit).value.comparison, Edited(loop, edit);
            var atEnd := (op.Leq? && b == Low(bits, signed) + Pow2(bits) - 1) || (op.Geq? && b == Low(bits, signed));
            && (atEnd ==> forall hs, fuel, k | Heads(c, mutant, hs, fuel) && hs[0] == s && 0 <= k < |hs| ::
                            Eval(c, mutant.test.value, hs[k], fuel, false) == Res(Done(Bool(true)), hs[k], {}))
            && (!atEnd ==> exists most: nat :: AtMost(c, mutant, s, most))
  {
    hide Readable, Described, Heads, Eval, Scalar, Holds, Extreme, AtMost, Pow2, Low;
    VerdictExact(c, loop, ind, edit, bound, own, bits, signed, s, i, b);
    var after := ApplyToLoop(ind, edit).value;
    UnitStepsEnd(after.comparison, i, after.step, b, bits, signed);
  }

  /** A loop whose condition is settled false never comes back to its head. */
  lemma SettledFalseEnds(c: Context, loop: Stmt, hs: seq<State>, fuel: nat)
    requires loop.For? && loop.test.Some? && !c.live && Heads(c, Edited(loop, SettleTestFalse), hs, fuel)
    ensures |hs| == 1
  {
    hide Iterate, Eval;
    if |hs| > 1 {
      var mutant := Edited(loop, SettleTestFalse);
      assert TurnAt(c, mutant, hs, fuel, 0);
      LiteralReads(c, mutant.test.value, hs[0], fuel);
      ReturnsThroughTest(c, mutant, hs[0], hs[1], fuel, false);
    }
  }

  /** A moved comparison is read as if the variable stood on its left; that is true exactly when it does. */
  lemma MoveExact(test: Expr, x: string, comparison: BinOp, bound: Expr, t: Type)
    requires test.Binary? && ReadComparison(test, x) == Some(comparison) && Tests(test, x, comparison, bound, t)
    ensures Tests(test.(op := Moved(test.op)), x, Moved(test.op), bound, t) <==> IsVariable(test.x, x)
  {
  }
}
