/** The termination proofs of discovery (internal/discover/termination.go). A loop that counts a variable towards a bound
    is recognised by its shape; an edit then gets a verdict on whether the loop still ends. */
module Termination {
  import opened GoValues
  import opened GoProgram
  import opened LoopFrames
  import opened Orbit
  import opened Wrappers

  // ----- reading a loop

  datatype Step = Step(variable: string, delta: int)

  const NO_STEP := Step("", 0)

  /** The step a statement takes: an increment, a decrement, or adding or subtracting an integer literal that fits 64
      bits. A step by zero is no step. */
  function ReadStep(post: Option<Stmt>): Step {
    if post.None? then NO_STEP
    else
      match post.value
      case IncDec(name, inc, _) => Step(name, if inc then 1 else -1)
      case Assign(name, tok, e, _) =>
        if !(e.Lit? && e.v.Int? && 0 <= e.v.i < 0x8000_0000_0000_0000) then NO_STEP
        else if tok.AddAssign? then Step(name, e.v.i)
        else if tok.SubAssign? then Step(name, -e.v.i)
        else NO_STEP
      case _ => NO_STEP
  }

  predicate OnlyStep(body: seq<Stmt>, j: nat) {
    && j < |body| && ReadStep(Some(body[j])).delta != 0
    && (forall k :: 0 <= k < |body| && k != j ==> ReadStep(Some(body[k])).delta == 0)
    && !ContinuesAny(body)
  }

  /** The one step among the statements of a body that no `continue` can jump over. */
  method ReadBodyStep(body: seq<Stmt>) returns (step: Step, at: Option<nat>)
    ensures at.Some? ==> OnlyStep(body, at.value) && step == ReadStep(Some(body[at.value]))
    ensures at.None? ==> step.delta == 0 && forall j: nat :: !OnlyStep(body, j)
  {
    step, at := NO_STEP, None;
    if ContinuesAny(body) { return; }
    for i := 0 to |body|
      invariant at.None? ==> step.delta == 0 && forall k :: 0 <= k < i ==> ReadStep(Some(body[k])).delta == 0
      invariant at.Some? ==> at.value < i && step == ReadStep(Some(body[at.value])) && step.delta != 0
                             && forall k :: 0 <= k < i && k != at.value ==> ReadStep(Some(body[k])).delta == 0
    {
      var moved := ReadStep(Some(body[i]));
      if moved.delta != 0 {
        if step.delta != 0 {
          assert forall j: nat :: !OnlyStep(body, j);
          return NO_STEP, None;
        }
        step, at := moved, Some(i);
      }
    }
  }

  function Mirrored(op: BinOp): BinOp {
    match op
    case Lss => Gtr case Leq => Geq case Gtr => Lss case Geq => Leq
    case _ => op
  }

  predicate Ordering(op: BinOp) { op.Lss? || op.Leq? || op.Gtr? || op.Geq? }

  predicate IsVariable(e: Expr, x: string) { e.Ident? && e.name == x }

  /** The comparison as seen from the variable, whichever side it stands on. */
  function ReadComparison(test: Expr, x: string): Option<BinOp> {
    if !test.Binary? || !Ordering(test.op) then None
    else if IsVariable(test.x, x) then if x in Names(test.y) then None else Some(test.op)
    else if IsVariable(test.y, x) then if x in Names(test.x) then None else Some(Mirrored(test.op))
    else None
  }

  predicate AssignsExcept(body: seq<Stmt>, x: string, except: Option<nat>) {
    exists k :: 0 <= k < |body| && (except.Some? ==> k != except.value) && Assigns(body[k], x)
  }

  /** `at` is the place of the step in the body, or nothing when it is the post statement. */
  datatype Induction = Induction(variable: string, step: int, comparison: BinOp, at: Option<nat>)
  {
    /** The variable moves towards the bound. */
    predicate Progresses() {
      ((comparison.Lss? || comparison.Leq?) && step > 0) || ((comparison.Gtr? || comparison.Geq?) && step < 0)
    }
  }

  predicate StepIsRead(loop: Stmt, ind: Induction)
    requires loop.For?
  {
    var post, step := ReadStep(loop.post), Step(ind.variable, ind.step);
    ind.step != 0 &&
    if ind.at.None? then post == step
    else post.delta == 0 && OnlyStep(loop.body, ind.at.value) && ReadStep(Some(loop.body[ind.at.value])) == step
  }

  predicate Recognised(loop: Stmt, ind: Induction) {
    && loop.For? && loop.test.Some?
    && StepIsRead(loop, ind)
    && ReadComparison(loop.test.value, ind.variable) == Some(ind.comparison)
    && !AssignsExcept(loop.body, ind.variable, ind.at)
    && (forall n :: n in Names(loop.test.value) ==> !AssignsExcept(loop.body, n, ind.at))
  }

  method ReadInductionLoop(loop: Stmt) returns (r: Option<Induction>)
    ensures r.Some? ==> Recognised(loop, r.value)
    ensures r.None? ==> forall ind :: !Recognised(loop, ind)
  {
    if !loop.For? || loop.test.None? { return None; }
    var step, at := ReadStep(loop.post), None;
    if step.delta == 0 {
      step, at := ReadBodyStep(loop.body);
      if step.delta == 0 { return None; }
    }
    var comparison := ReadComparison(loop.test.value, step.variable);
    if comparison.None? || AssignsExcept(loop.body, step.variable, at) { return None; }
    if exists n :: n in Names(loop.test.value) && AssignsExcept(loop.body, n, at) { return None; }
    r := Some(Induction(step.variable, step.delta, comparison.value, at));
  }

  // ----- edits of a loop

  /** Where an edit lands: the condition, the post statement, or anywhere else in the loop. */
  datatype LoopEdit =
    | NegateTest | MoveTest(to: BinOp) | SettleTestFalse | OtherTest(test: Expr)
    | ReversePost | DeletePost | OtherPost(post: Stmt)
    | Elsewhere(body: seq<Stmt>)

  function Negated(op: BinOp): BinOp {
    match op
    case Lss => Geq case Leq => Gtr case Gtr => Leq case Geq => Lss
    case _ => op
  }

  /** The operator that moves the boundary by one. */
  function Moved(op: BinOp): BinOp {
    match op
    case Lss => Leq case Leq => Lss case Gtr => Geq case Geq => Gtr
    case _ => op
  }

  function Reversed(post: Stmt): Stmt {
    match post
    case IncDec(name, inc, ty) => IncDec(name, !inc, ty)
    case Assign(name, AddAssign, e, ty) => Assign(name, SubAssign, e, ty)
    case Assign(name, SubAssign, e, ty) => Assign(name, AddAssign, e, ty)
    case _ => post
  }

  function Edited(loop: Stmt, edit: LoopEdit): Stmt
    requires loop.For? && loop.test.Some?
  {
    var test := loop.test.value;
    match edit
    case NegateTest => loop.(test := Some(Unary(Not, Paren(test), TBool, 0)))
    case MoveTest(op) => if test.Binary? then loop.(test := Some(test.(op := op))) else loop
    case SettleTestFalse => loop.(test := Some(Lit(Bool(false), TBool)))
    case OtherTest(t) => loop.(test := Some(t))
    case ReversePost => if loop.post.Some? then loop.(post := Some(Reversed(loop.post.value))) else loop
    case DeletePost => loop.(post := None)
    case OtherPost(p) => loop.(post := Some(p))
    case Elsewhere(body) => loop.(body := body)
  }

  /** The induction the code ascribes to the edited loop. */
  function ApplyToLoop(ind: Induction, edit: LoopEdit): Option<Induction> {
    match edit
    case NegateTest => Some(ind.(comparison := Negated(ind.comparison)))
    case MoveTest(op) => Some(ind.(comparison := op))
    case SettleTestFalse => Some(ind)
    case ReversePost => Some(ind.(step := -ind.step))
    case DeletePost => Some(ind.(step := 0))
    case Elsewhere(_) => Some(ind)
    case OtherTest(_) | OtherPost(_) => None
  }

  datatype Verdict = Bounded | Unbounded

  /** No proof unless the original loop progresses; then the verdict says whether the edited one still does. */
  function TerminationProof(ind: Induction, edit: LoopEdit): Option<Verdict> {
    if !ind.Progresses() || ApplyToLoop(ind, edit).None? then None
    else Some(if ApplyToLoop(ind, edit).value.Progresses() then Bounded else Unbounded)
  }

  /** A verdict is given for a loop that progresses and an edit the code knows, and it depends on the kind of edit alone: away from
      the bound or not at all is unbounded, everything else bounded. */
  lemma VerdictTable(ind: Induction, edit: LoopEdit)
    requires Ordering(ind.comparison) && (edit.MoveTest? ==> edit.to == Moved(ind.comparison))
    ensures TerminationProof(ind, edit)
            == if !(if ind.comparison.Lss? || ind.comparison.Leq? then ind.step > 0 else ind.step < 0) then None
               else if edit.OtherTest? || edit.OtherPost? then None
               else if edit.NegateTest? || edit.ReversePost? || edit.DeletePost? then Some(Unbounded)
               else Some(Bounded)
  {
  }

  /** A statement that adds `delta` to `x`. */
  predicate AddsTo(stmt: Stmt, x: string, delta: int) {
    || (stmt.IncDec? && stmt.name == x && delta == if stmt.inc then 1 else -1)
    || (stmt.Assign? && stmt.name == x && stmt.e.Lit? && stmt.e.v.Int? && 0 < stmt.e.v.i < 0x8000_0000_0000_0000
        && ((stmt.tok.AddAssign? && delta == stmt.e.v.i) || (stmt.tok.SubAssign? && delta == -stmt.e.v.i)))
  }

  /** Every counting loop is recognised: an ordering of a variable and a bound that does not mention it, on either side, with the
      step as the post statement or as the one step of the body, and no other assignment to what the test reads. */
  lemma CountingLoopIsRecognised(loop: Stmt, x: string, t: Type, op: BinOp, bound: Expr, at: Option<nat>, delta: int)
    requires loop.For? && loop.test.Some? && Ordering(op) && x !in Names(bound)
    requires var test := loop.test.value;
             test.Binary? && ((test.op == op && test.x == Ident(x, t) && test.y == bound)
                              || (test.op == Mirrored(op) && test.y == Ident(x, t) && test.x == bound && !IsVariable(bound, x)))
    requires match at
             case None => loop.post.Some? && AddsTo(loop.post.value, x, delta)
             case Some(j) =>
               && j < |loop.body| && AddsTo(loop.body[j], x, delta) && !ContinuesAny(loop.body)
               && (loop.post.Some? ==> loop.post.value.ExprStmt?)
               && forall k :: 0 <= k < |loop.body| && k != j ==> !loop.body[k].IncDec? && !loop.body[k].Assign?
    requires forall n :: n in Names(bound) + {x} ==> !AssignsExcept(loop.body, n, at)
    ensures Recognised(loop, Induction(x, delta, op, at))
  {
    hide AssignsExcept;
    var test := loop.test.value;
    assert Names(test) == Names(test.x) + Names(test.y) && Names(Ident(x, t)) == {x};
  }

  // ----- what a loop's text says about its turns

  predicate StepTyped(stmt: Stmt, bits: nat, signed: bool) {
    match stmt
    case IncDec(_, _, ty) => ty == TInt(bits, signed)
    case Assign(_, tok, e, ty) =>
      && ty == TInt(bits, signed) && e.Lit? && e.ty == ty && Conforms(e.v, ty)
      && (tok.AddAssign? || tok.SubAssign?) && 0 <= e.v.i < 0x8000_0000_0000_0000
    case _ => false
  }

  predicate Steps(stmt: Stmt, x: string, delta: int, bits: nat, signed: bool) {
    ReadStep(Some(stmt)) == Step(x, delta) && StepTyped(stmt, bits, signed)
  }

  /** Every turn of the loop moves `x` by the step, once, and no other statement of the loop assigns to `x` or to a name the
      test reads, or stores into a part of one. */
  predicate Counts(loop: Stmt, ind: Induction, names: set<string>, bits: nat, signed: bool) {
    var x := ind.variable;
    && loop.For? && x !in names
    && (forall n :: n in names + {x} ==> !AssignsExcept(loop.body, n, ind.at) && !StoresIntoAny(loop.body, n))
    && match ind.at
       case None =>
         if loop.post.None? then ind.step == 0 else Steps(loop.post.value, x, ind.step, bits, signed)
       case Some(j) =>
         && j < |loop.body| && Steps(loop.body[j], x, ind.step, bits, signed) && !ContinuesAny(loop.body)
         && (loop.post.Some? ==> forall n :: n in names + {x} ==> !Changes(loop.post.value, n))
  }

  predicate Holds(op: BinOp, i: int, b: int)
    requires Ordering(op)
  {
    match op case Lss => i < b case Leq => i <= b case Gtr => i > b case Geq => i >= b
  }

  /** The test compares `x` with `bound` in the sense of `op`, seen from `x`. */
  predicate Tests(test: Expr, x: string, op: BinOp, bound: Expr, t: Type) {
    match test
    case Binary(o, l, r, _, _) =>
      (o == op && l == Ident(x, t) && r == bound) || (o == Mirrored(op) && l == bound && r == Ident(x, t))
    case Unary(o, p, ty, _) => o.Not? && ty.TBool? && p.Paren? && p.x.Binary? && Tests(p.x, x, Negated(op), bound, t)
    case _ => false
  }

  // ----- one turn

  lemma StepRuns(c: Context, stmt: Stmt, x: string, delta: int, bits: nat, signed: bool, s: State, fuel: nat, i: int)
    requires Steps(stmt, x, delta, bits, signed) && x in s.vars && s.vars[x] == Int(i) && InRange(i, bits, signed)
    ensures var r := Run(c, stmt, s, fuel);
            r.flow.Normal? && r.st.vars == s.vars[x := Int(Wrap(i + delta, bits, signed))]
  {
    hide Wrap, Pow2, Low, Eval;
    var t, ty := s.(tick := s.tick + 1), TInt(bits, signed);
    IdentReads(c, x, ty, t, fuel);
    if stmt.Assign? { SumReads(c, stmt, t, fuel, bits, signed, i); }
  }

  lemma SumReads(c: Context, stmt: Stmt, s: State, fuel: nat, bits: nat, signed: bool, i: int)
    requires stmt.Assign? && StepTyped(stmt, bits, signed)
    requires stmt.name in s.vars && s.vars[stmt.name] == Int(i) && InRange(i, bits, signed)
    ensures Eval(c, Assigned(stmt.name, stmt.tok, stmt.e, stmt.ty), s, fuel, false)
            == Res(Done(Int(Wrap(i + ReadStep(Some(stmt)).delta, bits, signed))), s, {})
  {
    hide Wrap, Pow2, Low, Eval;
    var e := Assigned(stmt.name, stmt.tok, stmt.e, stmt.ty);
    IdentReads(c, stmt.name, stmt.ty, s, fuel);
    LiteralReads(c, stmt.e, s, fuel);
    OperationReads(c, e, s, fuel, Int(i), stmt.e.v);
  }

  lemma LiteralReads(c: Context, e: Expr, s: State, fuel: nat)
    requires e.Lit?
    ensures Eval(c, e, s, fuel, false) == Res(Done(Fit(e.v, e.ty)), s, {})
  {
  }

  lemma OperationReads(c: Context, e: Expr, s: State, fuel: nat, a: Value, b: Value)
    requires e.Binary? && !e.op.Connective() && !LeftDecides(e.op, a, e.constant)
    requires Eval(c, e.x, s, fuel, false) == Res(Done(a), s, {}) && Eval(c, e.y, s, fuel, false) == Res(Done(b), s, {})
    ensures Eval(c, e, s, fuel, false)
            == Res(if e.op.Comparison() then ApplyComparison(e.op, a, b)
                   else ApplyArithmetic(c.world, e.op, a, b, e.ty, false), s, {})
  {
  }

  /** A block moves `x` once if it runs to its end. */
  lemma {:induction false} BlockMoves(c: Context, body: seq<Stmt>, j: nat, x: string, delta: int, bits: nat, signed: bool,
                                      s: State, fuel: nat, i: int)
    requires j < |body| && Steps(body[j], x, delta, bits, signed)
    requires !AssignsExcept(body, x, Some(j)) && !StoresIntoAny(body, x)
    requires x in s.vars && s.vars[x] == Int(i) && InRange(i, bits, signed)
    ensures var r := RunBlock(c, body, s, fuel);
            r.flow.Normal? ==> x in r.st.vars && r.st.vars[x] == Int(Wrap(i + delta, bits, signed))
    decreases |body|
  {
    hide Run, Steps, Assigns, StoresInto, Wrap, Pow2, Low, Continues;
    var r := Run(c, body[0], s, fuel);
    if r.flow.Normal? {
      if j == 0 {
        StepRuns(c, body[0], x, delta, bits, signed, s, fuel, i);
        BlockKeeps(c, body[1..], r.st, fuel, x);
        assert forall k :: 0 <= k < |body[1..]| ==> body[1..][k] == body[k + 1];
      } else {
        RunKeeps(c, body[0], s, fuel, x);
        assert forall k :: 0 <= k < |body[1..]| && k != j - 1 ==> body[1..][k] == body[k + 1];
        BlockMoves(c, body[1..], j - 1, x, delta, bits, signed, r.st, fuel, i);
      }
    }
  }

  lemma {:induction false} BlockKeepsOthers(c: Context, body: seq<Stmt>, except: Option<nat>, x: string, delta: int, n: string, bits: nat,
                            signed: bool, s: State, fuel: nat)
    requires !AssignsExcept(body, n, except) && !StoresIntoAny(body, n) && n != x
    requires except.Some? ==> except.value < |body| && Steps(body[except.value], x, delta, bits, signed)
    ensures Kept(s, RunBlock(c, body, s, fuel).st, n)
  {
    assert !AssignsAny(body, n) by {
      if except.Some? { assert !Assigns(body[except.value], n); }
    }
    BlockKeeps(c, body, s, fuel, n);
  }

  /** A turn that comes back to the head has moved `x` by the step and kept the names of the bound. */
  lemma TurnMoves(c: Context, loop: Stmt, ind: Induction, names: set<string>, bits: nat, signed: bool,
                  s: State, fuel: nat, i: int)
    requires Counts(loop, ind, names, bits, signed) && Iterate(c, loop, s, fuel).flow.Normal?
    requires ind.variable in s.vars && s.vars[ind.variable] == Int(i) && InRange(i, bits, signed)
    requires forall n :: n in names ==> n in s.vars
    ensures var r := Iterate(c, loop, s, fuel);
            && ind.variable in r.st.vars && r.st.vars[ind.variable] == Int(Wrap(i + ind.step, bits, signed))
            && SameOn(names, s, r.st)
  {
    hide Eval, RunBlock, Run, Steps, Assigns, StoresInto, Continues, Wrap, Pow2, Low, AssignsExcept;
    var x := ind.variable;
    if loop.test.Some? { EvalKeepsVars(c, GateCondition(c, loop.id, loop.test.value), s, fuel, false); }
    var r := if loop.test.None? then Res(Done(Bool(true)), s, {})
             else Eval(c, GateCondition(c, loop.id, loop.test.value), s, fuel, false);
    var body := RunBlock(c, loop.body, r.st, fuel);
    BodyOfTurn(c, loop, ind, names, bits, signed, r.st, fuel, i);
    PostOfTurn(c, loop, ind, names, bits, signed, body.st, fuel, if ind.at.None? then i else Wrap(i + ind.step, bits, signed));
  }

  lemma BodyOfTurn(c: Context, loop: Stmt, ind: Induction, names: set<string>, bits: nat, signed: bool,
                   s: State, fuel: nat, i: int)
    requires Counts(loop, ind, names, bits, signed)
    requires ind.variable in s.vars && s.vars[ind.variable] == Int(i) && InRange(i, bits, signed)
    requires forall n :: n in names ==> n in s.vars
    requires var body := RunBlock(c, loop.body, s, fuel); body.flow.Normal? || body.flow.Continued?
    ensures var body := RunBlock(c, loop.body, s, fuel);
            && SameOn(names, s, body.st) && ind.variable in body.st.vars
            && body.st.vars[ind.variable] == Int(if ind.at.None? then i else Wrap(i + ind.step, bits, signed))
  {
    hide RunBlock, Steps, Assigns, StoresInto, Continues, Wrap, Pow2, Low;
    var x := ind.variable;
    forall n | n in names ensures Kept(s, RunBlock(c, loop.body, s, fuel).st, n) {
      BlockKeepsOthers(c, loop.body, ind.at, x, ind.step, n, bits, signed, s, fuel);
    }
    BlockKeeps(c, loop.body, s, fuel, x);
    if ind.at.Some? {
      BlockMoves(c, loop.body, ind.at.value, x, ind.step, bits, signed, s, fuel, i);
    } else {
      assert !AssignsExcept(loop.body, x, None);
    }
  }

  lemma PostOfTurn(c: Context, loop: Stmt, ind: Induction, names: set<string>, bits: nat, signed: bool,
                   s: State, fuel: nat, i: int)
    requires Counts(loop, ind, names, bits, signed)
    requires ind.variable in s.vars && s.vars[ind.variable] == Int(i) && InRange(i, bits, signed)
    requires forall n :: n in names ==> n in s.vars
    ensures var st := if loop.post.None? then s else Run(c, loop.post.value, s, fuel).st;
            && SameOn(names, s, st) && ind.variable in st.vars
            && st.vars[ind.variable] == Int(if ind.at.None? then Wrap(i + ind.step, bits, signed) else i)
  {
    hide Run, Steps, Assigns, StoresInto, Wrap, Pow2, Low, AssignsExcept, Continues;
    if loop.post.None? {
    } else if ind.at.None? {
      StepRuns(c, loop.post.value, ind.variable, ind.step, bits, signed, s, fuel, i);
    } else {
      RunKeeps(c, loop.post.value, s, fuel, ind.variable);
      forall n | n in names ensures Kept(s, Run(c, loop.post.value, s, fuel).st, n) {
        RunKeeps(c, loop.post.value, s, fuel, n);
      }
    }
  }

  /** The test at a head says what the comparison says. */
  lemma TestReads(c: Context, test: Expr, x: string, op: BinOp, bound: Expr, bits: nat, signed: bool,
                  s: State, fuel: nat, i: int, b: int)
    requires Ordering(op) && Tests(test, x, op, bound, TInt(bits, signed)) && Scalar(bound)
    requires x in s.vars && s.vars[x] == Int(i) && InRange(i, bits, signed)
    requires Eval(c, bound, s, fuel, false) == Res(Done(Int(b)), s, {})
    ensures Eval(c, test, s, fuel, false) == Res(Done(Bool(Holds(op, i, b))), s, {})
  {
    hide Scalar, Pow2, Low, Eval, Fit, Conforms;
    if test.Binary? {
      ComparisonReads(c, test, x, op, bound, bits, signed, s, fuel, i, b);
    } else {
      ComparisonReads(c, test.x.x, x, Negated(op), bound, bits, signed, s, fuel, i, b);
      NegationReads(c, test, s, fuel);
    }
  }

  lemma NegationReads(c: Context, test: Expr, s: State, fuel: nat)
    requires test.Unary? && test.uop.Not? && test.x.Paren? && test.ty.TBool?
    requires Eval(c, test.x.x, s, fuel, false).out.Done?
    ensures var r := Eval(c, test.x.x, s, fuel, false);
            Eval(c, test, s, fuel, false) == Res(Done(Bool(!IsTrue(r.out.v))), r.st, r.ev)
  {
  }

  lemma ComparisonReads(c: Context, test: Expr, x: string, op: BinOp, bound: Expr, bits: nat, signed: bool,
                        s: State, fuel: nat, i: int, b: int)
    requires Ordering(op) && test.Binary? && Tests(test, x, op, bound, TInt(bits, signed))
    requires x in s.vars && s.vars[x] == Int(i) && InRange(i, bits, signed)
    requires Eval(c, bound, s, fuel, false) == Res(Done(Int(b)), s, {})
    ensures Eval(c, test, s, fuel, false) == Res(Done(Bool(Holds(op, i, b))), s, {})
  {
    hide Pow2, Low, Eval, Tests, Holds, ApplyComparison, ApplyArithmetic, Fit, Load, Conforms;
    TestSides(test, x, op, bound, TInt(bits, signed));
    VariableReads(c, x, bits, signed, s, fuel, i);
    OrderReads(op, i, b);
    if test.op == op && test.y == bound && test.x == Ident(x, TInt(bits, signed)) {
      OperationReads(c, test, s, fuel, Int(i), Int(b));
    } else {
      OperationReads(c, test, s, fuel, Int(b), Int(i));
    }
  }

  lemma VariableReads(c: Context, x: string, bits: nat, signed: bool, s: State, fuel: nat, i: int)
    requires x in s.vars && s.vars[x] == Int(i) && InRange(i, bits, signed)
    ensures Eval(c, Ident(x, TInt(bits, signed)), s, fuel, false) == Res(Done(Int(i)), s, {})
  {
    hide Eval;
    IdentReads(c, x, TInt(bits, signed), s, fuel);
  }

  lemma TestSides(test: Expr, x: string, op: BinOp, bound: Expr, t: Type)
    requires Ordering(op) && test.Binary? && Tests(test, x, op, bound, t)
    ensures test.op.Comparison() && !test.op.Dividing() && !test.op.Shifting()
    ensures (test.op == op && test.x == Ident(x, t) && test.y == bound)
            || (test.op == Mirrored(op) && test.x == bound && test.y == Ident(x, t))
  {
  }

  lemma OrderReads(op: BinOp, i: int, b: int)
    requires Ordering(op)
    ensures ApplyComparison(op, Int(i), Int(b)) == Done(Bool(Holds(op, i, b)))
    ensures ApplyComparison(Mirrored(op), Int(b), Int(i)) == Done(Bool(Holds(op, i, b)))
  {
  }
}
