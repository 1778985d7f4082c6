/** The branch proofs of discovery (internal/discover/branch.go): an edit that can only turn a condition from true to
    false. */
module Branch {
  import opened GoValues
  import opened GoProgram
  import opened Purity
  import opened Rules
  import opened EditRuns
  import opened Wrappers

  /** What lies above an expression. `spelled` says that no line directive moves the body's positions. */
  datatype Parent =
    | ParenNode
    | BinaryNode(op: BinOp, left: bool, sibling: Expr, ty: Type, constant: Option<Value>)
    | IfNode(id: nat, body: seq<Stmt>, spelled: bool)
    | ForNode(id: nat, body: seq<Stmt>, spelled: bool)
    | CaseNode(id: nat, labels: seq<Expr>, body: seq<Stmt>, spelled: bool)
    | OtherNode
  {
    /** The climb passes through here. */
    predicate Transparent() { ParenNode? || (BinaryNode? && op.Connective()) }

    predicate Owner() { IfNode? || ForNode? || CaseNode? }

    predicate Gates(cond: Expr) { Owner() && body != [] && (CaseNode? ==> cond in labels) }
  }

  datatype Gate = Gate(cond: Expr, owner: Parent)

  /** The expression one level up. */
  function Above(node: Expr, parent: Parent): Expr {
    match parent
    case ParenNode => Paren(node)
    case BinaryNode(op, left, sibling, ty, constant) =>
      if left then Binary(op, node, sibling, ty, constant) else Binary(op, sibling, node, ty, constant)
    case _ => node
  }

  function Plug(node: Expr, parents: seq<Parent>): Expr
    decreases |parents|
  {
    if parents == [] then node else Plug(Above(node, parents[0]), parents[1..])
  }

  /** The gate `k` levels above the anchor. */
  ghost predicate GateAtLevel(anchor: Expr, parents: seq<Parent>, k: nat, gate: Gate) {
    && k < |parents|
    && (forall i :: 0 <= i < k ==> parents[i].Transparent())
    && gate == Gate(Plug(anchor, parents[..k]), parents[k])
    && gate.owner.Gates(gate.cond)
  }

  lemma {:induction false} PlugExtends(node: Expr, parents: seq<Parent>, parent: Parent)
    ensures Plug(node, parents + [parent]) == Above(Plug(node, parents), parent)
    decreases |parents|
  {
    if parents == [] {
      assert parents + [parent] == [parent];
    } else {
      assert (parents + [parent])[1..] == parents[1..] + [parent];
      PlugExtends(Above(node, parents[0]), parents[1..], parent);
    }
  }

  /** The climb from an anchor to the body its condition gates. It finds the one gate reachable through
      parentheses and connectives, and answers nothing exactly when there is none. */
  method GatedBody(anchor: Expr, parents: seq<Parent>) returns (r: Option<Gate>, level: nat)
    ensures r.Some? ==> GateAtLevel(anchor, parents, level, r.value)
    ensures r.None? ==> forall k: nat, gate :: !GateAtLevel(anchor, parents, k, gate)
  {
    var node := anchor;
    level := 0;
    while level < |parents|
      invariant level <= |parents|
      invariant node == Plug(anchor, parents[..level])
      invariant forall i :: 0 <= i < level ==> parents[i].Transparent()
    {
      var parent := parents[level];
      if !parent.Transparent() {
        if parent.Gates(node) { return Some(Gate(node, parent)), level; }
        return None, level;
      }
      PlugExtends(anchor, parents[..level], parent);
      assert parents[..level + 1] == parents[..level] + [parent];
      node := Above(node, parent);
      level := level + 1;
    }
    r := None;
  }

  lemma GateIsUnique(anchor: Expr, parents: seq<Parent>, j: nat, k: nat, g: Gate, h: Gate)
    requires GateAtLevel(anchor, parents, j, g) && GateAtLevel(anchor, parents, k, h)
    ensures j == k && g == h
  {
  }

  /** When an edit carries a proof: a decreasing rule, a gate above it, an inert condition, honest positions. */
  ghost predicate Proved(rule: Rule, anchor: Expr, parents: seq<Parent>, k: nat, gate: Gate) {
    rule.Decreasing() && GateAtLevel(anchor, parents, k, gate) && Inert(gate.cond) && gate.owner.spelled
  }

  method BranchProof(rule: Rule, anchor: Expr, parents: seq<Parent>) returns (r: Option<Gate>, level: nat)
    ensures r.Some? ==> Proved(rule, anchor, parents, level, r.value)
    ensures r.None? ==> forall k: nat, gate :: !Proved(rule, anchor, parents, k, gate)
  {
    if !rule.Decreasing() { return None, 0; }
    r, level := GatedBody(anchor, parents);
    if r.Some? && !(Inert(r.value.cond) && r.value.owner.spelled) {
      forall k: nat, gate | GateAtLevel(anchor, parents, k, gate) ensures gate == r.value {
        GateIsUnique(anchor, parents, level, k, r.value, gate);
      }
      r := None;
    }
  }

  /** The proofs that are given: the rule is decreasing, only parentheses and connectives lie between the anchor and an `if`, a `for`
      or a `case` that is not empty and whose positions are its own, and the condition as a whole is inert. */
  lemma ProofIsGiven(rule: Rule, anchor: Expr, parents: seq<Parent>, k: nat)
    requires rule.Decreasing() && k < |parents|
    requires forall i :: 0 <= i < k ==>
               parents[i] == ParenNode || (parents[i].BinaryNode? && (parents[i].op == LAnd || parents[i].op == LOr))
    requires var owner, cond := parents[k], Plug(anchor, parents[..k]);
             && Inert(cond)
             && ((owner.IfNode? && owner.body != [] && owner.spelled) || (owner.ForNode? && owner.body != [] && owner.spelled)
                 || (owner.CaseNode? && owner.body != [] && owner.spelled && cond in owner.labels))
    ensures Proved(rule, anchor, parents, k, Gate(Plug(anchor, parents[..k]), parents[k]))
  {
    hide Inert, Plug;
  }

  // ----- inert conditions hide nothing

  lemma {:induction false} PlainTypesCompare(x: Value, y: Value, t: Type)
    requires Conforms(x, t) && ComparableWithoutPanic(t)
    ensures Compare(x, y) != Panics
    decreases t
  {
    match t
    case TStruct(fs) =>
      forall i, w | 0 <= i < |fs| ensures Compare(x.fields[i], w) != Panics { PlainTypesCompare(x.fields[i], w, fs[i]); }
      if y.Struct? { ElementsCompare(x.fields, y.fields); }
    case TArray(n, e) =>
      forall i, w | 0 <= i < n ensures Compare(x.elems[i], w) != Panics { PlainTypesCompare(x.elems[i], w, e); }
      if y.Array? { ElementsCompare(x.elems, y.elems); }
    case _ =>
  }

  /** No array of no elements, which always compares equal, and no bare nil. */
  predicate Inhabited(t: Type) {
    match t
    case TStruct(fs) => forall i :: 0 <= i < |fs| ==> Inhabited(fs[i])
    case TArray(n, e) => n > 0 && Inhabited(e)
    case TUntypedNil => false
    case _ => true
  }

  /** Among the types that Go compares at all, those the code takes for safe are exactly those whose values never panic. */
  lemma ComparableExact(t: Type)
    requires ComparableType(t) && Inhabited(t)
    ensures ComparableWithoutPanic(t) <==> forall x, y :: Conforms(x, t) && Conforms(y, t) ==> Compare(x, y) != Panics
  {
    if ComparableWithoutPanic(t) {
      forall x, y | Conforms(x, t) && Conforms(y, t) ensures Compare(x, y) != Panics { PlainTypesCompare(x, y, t); }
    } else {
      SampleCompares(t);
    }
  }

  /** A value that panics against itself if any value of its type can. */
  function Sample(t: Type): (v: Value)
    ensures Conforms(v, t)
  {
    match t
    case TStruct(fs) => Struct(seq(|fs|, i requires 0 <= i < |fs| => Sample(fs[i])))
    case TArray(n, e) => Array(seq(n, i => Sample(e)))
    case TInterface => Iface(TFunc, Nil)
    case TTypeParam => Iface(TFunc, Nil)
    case _ => Zero(t)
  }

  lemma {:induction false} SampleCompares(t: Type)
    requires ComparableType(t) && Inhabited(t)
    ensures Compare(Sample(t), Sample(t)) == if ComparableWithoutPanic(t) then Equal else Panics
    decreases t
  {
    if t.TStruct? {
      forall i | 0 <= i < |t.fields|
        ensures Compare(Sample(t.fields[i]), Sample(t.fields[i])) == if ComparableWithoutPanic(t.fields[i]) then Equal else Panics
      {
        SampleCompares(t.fields[i]);
      }
      SampleOfStruct(t);
    } else if t.TArray? {
      SampleCompares(t.elem);
      SampleOfArray(t);
    } else {
      SampleOfPlain(t);
    }
  }

  lemma SampleOfStruct(t: Type)
    requires t.TStruct?
    requires forall i :: 0 <= i < |t.fields| ==>
               Compare(Sample(t.fields[i]), Sample(t.fields[i])) == if ComparableWithoutPanic(t.fields[i]) then Equal else Panics
    ensures Compare(Sample(t), Sample(t)) == if ComparableWithoutPanic(t) then Equal else Panics
  {
    hide Conforms, Compare, CompareAll;
    var xs := Sample(t).fields;
    StructsCompare(xs);
    assert |xs| == |t.fields| && forall i :: 0 <= i < |xs| ==> xs[i] == Sample(t.fields[i]);
    SameCompares(xs);
    if ComparableWithoutPanic(t) {
      assert forall i :: 0 <= i < |xs| ==> Compare(xs[i], xs[i]) == Equal;
    } else {
      var i :| 0 <= i < |t.fields| && !ComparableWithoutPanic(t.fields[i]);
      assert Compare(xs[i], xs[i]) == Panics;
    }
  }

  lemma StructsCompare(xs: seq<Value>)
    ensures Compare(Struct(xs), Struct(xs)) == CompareAll(xs, xs)
  {
  }

  lemma SampleOfArray(t: Type)
    requires t.TArray? && t.size > 0
    requires Compare(Sample(t.elem), Sample(t.elem)) == if ComparableWithoutPanic(t.elem) then Equal else Panics
    ensures Compare(Sample(t), Sample(t)) == if ComparableWithoutPanic(t) then Equal else Panics
  {
    hide Conforms;
    SameCompares(Sample(t).elems);
    assert Sample(t).elems[0] == Sample(t.elem);
  }

  lemma SampleOfPlain(t: Type)
    requires ComparableType(t) && Inhabited(t) && !t.TStruct? && !t.TArray?
    ensures Compare(Sample(t), Sample(t)) == if ComparableWithoutPanic(t) then Equal else Panics
  {
    hide Conforms;
  }

  lemma {:induction false} SameCompares(xs: seq<Value>)
    requires forall i :: 0 <= i < |xs| ==> Compare(xs[i], xs[i]) == Equal || Compare(xs[i], xs[i]) == Panics
    ensures CompareAll(xs, xs) == if exists i :: 0 <= i < |xs| && Compare(xs[i], xs[i]) == Panics then Panics else Equal
    decreases |xs|
  {
    if xs != [] {
      SameCompares(xs[1..]);
      if i :| 0 <= i < |xs| && Compare(xs[i], xs[i]) == Panics {
        if i > 0 { assert xs[1..][i - 1] == xs[i]; }
      }
    }
  }

  lemma {:induction false} ElementsCompare(xs: seq<Value>, ys: seq<Value>)
    requires forall i, w :: 0 <= i < |xs| ==> Compare(xs[i], w) != Panics
    ensures CompareAll(xs, ys) != Panics
  {
    if xs != [] && ys != [] { ElementsCompare(xs[1..], ys[1..]); }
  }

  /** An inert expression always has a value, and evaluating it changes nothing. */
  lemma {:induction false} InertYieldsValue(c: Context, e: Expr, s: State, fuel: nat)
    requires c.edit.gate && Inert(e) && DivisorsCompile(e)
    ensures var r := Eval(c, e, s, fuel, false); r.out.Done? && r.st == s && r.ev == {}
    decreases e
  {
    match e
    case Paren(x) => InertYieldsValue(c, x, s, fuel);
    case Site(_, x) => InertYieldsValue(c, x, s, fuel);
    case Field(x, _, _, _) => InertYieldsValue(c, x, s, fuel);
    case Unary(_, x, _, _) => InertYieldsValue(c, x, s, fuel);
    case Convert(_, x) => InertYieldsValue(c, x, s, fuel);
    case Binary(_, _, _, _, _) => InertBinary(c, e, s, fuel);
    case CallBuiltin(_, args, _, _) => InertOperands(c, args, s, fuel);
    case _ =>
  }

  lemma {:induction false} InertBinary(c: Context, e: Expr, s: State, fuel: nat)
    requires e.Binary? && c.edit.gate && Inert(e) && DivisorsCompile(e)
    ensures var r := Eval(c, e, s, fuel, false); r.out.Done? && r.st == s && r.ev == {}
    ensures Eval(c, e.x, s, fuel, false).out.Done? && Eval(c, e.y, s, fuel, false).out.Done?
    ensures e.op.Connective() ==>
              var x, y := IsTrue(Eval(c, e.x, s, fuel, false).out.v), IsTrue(Eval(c, e.y, s, fuel, false).out.v);
              IsTrue(Eval(c, e, s, fuel, false).out.v) == if e.op.LAnd? then x && y else x || y
    decreases e, 0
  {
    InertYieldsValue(c, e.x, s, fuel);
    InertYieldsValue(c, e.y, s, fuel);
    var a, b := Eval(c, e.x, s, fuel, false).out.v, Eval(c, e.y, s, fuel, false).out.v;
    if e.op.Eql? || e.op.Neq? {
      EvalConforms(c, e.x, s, fuel, false);
      if !IsNilLiteral(e.x) && !IsNilLiteral(e.y) { PlainTypesCompare(a, b, TypeOf(e.x)); }
    }
  }

  lemma {:induction false} InertOperands(c: Context, es: seq<Expr>, s: State, fuel: nat)
    requires c.edit.gate && forall e :: e in es ==> Inert(e) && DivisorsCompile(e)
    ensures var r := EvalAll(c, es, s, fuel, false); r.out.Done? && r.st == s && r.ev == {}
    decreases es
  {
    if es != [] {
      InertYieldsValue(c, es[0], s, fuel);
      InertOperands(c, es[1..], s, fuel);
    }
  }

  // ----- decreasing edits only turn the condition from true to false

  predicate Quiet(e: Expr) { Inert(e) && DivisorsCompile(e) }

  /** Both conditions have a value here, and `to` is true only where `from` is. */
  ghost predicate Narrower(c: Context, from: Expr, to: Expr, s: State, fuel: nat) {
    var r, q := Eval(c, from, s, fuel, false), Eval(c, to, s, fuel, false);
    r.out.Done? && q.out.Done? && (IsTrue(q.out.v) ==> IsTrue(r.out.v))
  }

  /** An inert condition has inert parts, and stays inert when a part is replaced by an inert one. */
  lemma QuietAbove(from: Expr, to: Expr, p: Parent)
    requires p.Transparent() && Quiet(Above(from, p))
    ensures Quiet(from) && (Quiet(to) ==> Quiet(Above(to, p)))
  {
    hide Inert, DivisorsCompile;
    if p.ParenNode? {
      QuietParen(from);
      QuietParen(to);
    } else {
      QuietConnective(Above(from, p));
      QuietConnective(Above(to, p));
    }
  }

  lemma QuietParen(x: Expr)
    ensures Quiet(Paren(x)) == Quiet(x)
  {
  }

  lemma QuietConnective(e: Expr)
    requires e.Binary? && e.op.Connective()
    ensures Quiet(e) == (Quiet(e.x) && Quiet(e.y))
  {
  }

  lemma {:induction false} QuietPlug(from: Expr, to: Expr, parents: seq<Parent>)
    requires (forall p :: p in parents ==> p.Transparent()) && Quiet(Plug(from, parents))
    ensures Quiet(from) && (Quiet(to) ==> Quiet(Plug(to, parents)))
    decreases |parents|
  {
    if parents != [] {
      QuietPlug(Above(from, parents[0]), Above(to, parents[0]), parents[1..]);
      QuietAbove(from, to, parents[0]);
    }
  }

  lemma NarrowerAbove(c: Context, from: Expr, to: Expr, p: Parent, s: State, fuel: nat)
    requires c.edit.gate && Narrower(c, from, to, s, fuel)
    requires p.Transparent() && Quiet(Above(from, p)) && Quiet(Above(to, p))
    ensures Narrower(c, Above(from, p), Above(to, p), s, fuel)
  {
    hide Quiet, Eval;
    if p.ParenNode? {
      ParenReads(c, from, s, fuel);
      ParenReads(c, to, s, fuel);
    } else {
      NarrowerConnective(c, Above(from, p), Above(to, p), s, fuel);
    }
  }

  lemma NarrowerConnective(c: Context, f: Expr, t: Expr, s: State, fuel: nat)
    requires c.edit.gate && Quiet(f) && Quiet(t) && f.Binary? && t.Binary? && f.op == t.op && f.op.Connective()
    requires f.x == t.x || Narrower(c, f.x, t.x, s, fuel)
    requires f.y == t.y || Narrower(c, f.y, t.y, s, fuel)
    ensures Narrower(c, f, t, s, fuel)
  {
    hide Eval, Inert, DivisorsCompile;
    InertBinary(c, f, s, fuel);
    InertBinary(c, t, s, fuel);
  }

  lemma ParenReads(c: Context, x: Expr, s: State, fuel: nat)
    ensures Eval(c, Paren(x), s, fuel, false) == Eval(c, x, s, fuel, false)
  {
  }

  lemma {:induction false} NarrowerPlug(c: Context, from: Expr, to: Expr, parents: seq<Parent>, s: State, fuel: nat)
    requires c.edit.gate && Quiet(from) && Quiet(to) && Narrower(c, from, to, s, fuel)
    requires (forall p :: p in parents ==> p.Transparent()) && Quiet(Plug(from, parents)) && Quiet(Plug(to, parents))
    ensures Narrower(c, Plug(from, parents), Plug(to, parents), s, fuel)
    decreases |parents|
  {
    if parents != [] {
      var f, t := Above(from, parents[0]), Above(to, parents[0]);
      QuietPlug(f, t, parents[1..]);
      QuietPlug(t, f, parents[1..]);
      NarrowerAbove(c, from, to, parents[0], s, fuel);
      NarrowerPlug(c, f, t, parents[1..], s, fuel);
    }
  }

  /** Every decreasing rule narrows the expression it matched. */
  lemma RuleNarrows(c: Context, rule: Rule, anchor: Expr, s: State, fuel: nat)
    requires c.edit.gate && rule.Decreasing() && Replacement(rule, anchor).Some? && Quiet(anchor)
    ensures var to := Replacement(rule, anchor).value; Quiet(to) && Narrower(c, anchor, to, s, fuel)
  {
    hide Inert, DivisorsCompile, Eval, Quiet, Replacement;
    DecreasingReplacements(rule, anchor);
    if rule.SwapOperator? && !rule.op.LOr? { StricterNarrows(c, anchor, s, fuel); }
    else if rule.SwapOperator? { AndNarrows(c, anchor, s, fuel); }
    else {
      QuietHasValue(c, anchor, s, fuel);
      FalseReads(c, s, fuel);
    }
  }

  /** The rules that edit a condition. */
  predicate EditsCondition(rule: Rule) {
    || rule.Negate? || rule.RemoveNegation? || rule.Settle? || rule.NilErrorBranch? || rule.FlipLiteral?
    || (rule.SwapOperator? && (rule.op.Comparison() || rule.op.Connective()))
  }

  ghost predicate AlwaysNarrows(w: World, rule: Rule) {
    forall c: Context, anchor, s, fuel ::
      c.world == w && c.edit.gate && Replacement(rule, anchor).Some? && Quiet(anchor) ==>
        Narrower(c, anchor, Replacement(rule, anchor).value, s, fuel)
  }

  /** Main result for the table of rules: the decreasing ones are exactly those that narrow every condition they match. */
  lemma DecreasingExact(w: World, rule: Rule)
    requires EditsCondition(rule)
    ensures AlwaysNarrows(w, rule) <==> rule.Decreasing()
  {
    hide Quiet, Narrower, Replacement, EditsCondition;
    if rule.Decreasing() {
      forall c: Context, anchor, s, fuel | c.world == w && c.edit.gate && Replacement(rule, anchor).Some? && Quiet(anchor)
        ensures Narrower(c, anchor, Replacement(rule, anchor).value, s, fuel)
      {
        RuleNarrows(c, rule, anchor, s, fuel);
      }
    } else {
      var c := Context(map[], w, Edit(true, 0, FALSE, FALSE), false);
      Widens(c, rule, State(map[], map[], 0));
    }
  }

  const FALSE := Lit(Bool(false), TBool)
  const TRUE := Lit(Bool(true), TBool)
  const ZERO := Lit(Int(0), TInt(8, true))
  const ONE := Lit(Int(1), TInt(8, true))

  /** A condition that is false, and true after the edit. */
  function WidenedBy(rule: Rule): Expr {
    match rule
    case SwapOperator(op) =>
      if op.LAnd? then Binary(op, FALSE, TRUE, TBool, None) else Binary(op, ZERO, if op.Eql? then ONE else ZERO, TBool, None)
    case RemoveNegation => Unary(Not, TRUE, TBool, 0)
    case _ => FALSE
  }

  lemma Widens(c: Context, rule: Rule, s: State)
    requires EditsCondition(rule) && !rule.Decreasing() && c.edit.gate
    ensures var anchor := WidenedBy(rule);
            Replacement(rule, anchor).Some? && Quiet(anchor) && !Narrower(c, anchor, Replacement(rule, anchor).value, s, 0)
  {
    hide Eval, Inert, DivisorsCompile;
    ConstantRead(c, FALSE, s);
    ConstantRead(c, TRUE, s);
    if rule.SwapOperator? && rule.op.LAnd? { AndWidens(c, s); }
    else if rule.SwapOperator? { ComparisonWidens(c, rule, s); }
    else { NegationReads(c, s); }
  }

  lemma ConstantRead(c: Context, e: Expr, s: State)
    requires e.Lit? && Conforms(e.v, e.ty)
    ensures Eval(c, e, s, 0, false) == Res(Done(e.v), s, {}) && Quiet(e)
  {
  }

  lemma AndWidens(c: Context, s: State)
    ensures Eval(c, Binary(LAnd, FALSE, TRUE, TBool, None), s, 0, false).out == Done(Bool(false))
    ensures Eval(c, Binary(LOr, FALSE, TRUE, TBool, None), s, 0, false).out == Done(Bool(true))
    ensures Quiet(Binary(LAnd, FALSE, TRUE, TBool, None))
  {
    hide Quiet, Inert, DivisorsCompile;
    ConstantsAreQuiet(Binary(LAnd, FALSE, TRUE, TBool, None));
    AndOfConstants(c, s);
    OrOfConstants(c, s);
  }

  lemma AndOfConstants(c: Context, s: State)
    ensures Eval(c, Binary(LAnd, FALSE, TRUE, TBool, None), s, 0, false).out == Done(Bool(false))
  {
    hide Quiet, Inert, DivisorsCompile;
  }

  lemma OrOfConstants(c: Context, s: State)
    ensures Eval(c, Binary(LOr, FALSE, TRUE, TBool, None), s, 0, false).out == Done(Bool(true))
  {
    hide Quiet, Inert, DivisorsCompile;
  }

  lemma NegationReads(c: Context, s: State)
    ensures Eval(c, Unary(Not, TRUE, TBool, 0), s, 0, false).out == Done(Bool(false)) && Quiet(Unary(Not, TRUE, TBool, 0))
    ensures Eval(c, Unary(Not, Paren(FALSE), TBool, 0), s, 0, false).out == Done(Bool(true))
  {
  }

  lemma ComparisonWidens(c: Context, rule: Rule, s: State)
    requires rule.SwapOperator? && rule.op.Comparison() && !rule.Decreasing()
    ensures var anchor := WidenedBy(rule);
            Replacement(rule, anchor).Some? && Quiet(anchor) && !Narrower(c, anchor, Replacement(rule, anchor).value, s, 0)
  {
    hide Eval, Inert, DivisorsCompile;
    var anchor := WidenedBy(rule);
    ConstantsCompared(c, anchor, s);
    ConstantsCompared(c, Replacement(rule, anchor).value, s);
  }

  lemma ConstantsCompared(c: Context, e: Expr, s: State)
    requires e.Binary? && e.op.Comparison() && e.constant.None? && e.x == ZERO && (e.y == ZERO || e.y == ONE)
    ensures Eval(c, e, s, 0, false).out == ApplyComparison(e.op, e.x.v, e.y.v) && Quiet(e)
  {
    hide Quiet, ApplyComparison;
    ConstantRead(c, e.x, s);
    ConstantRead(c, e.y, s);
    ComparisonOfConstants(c, e, s);
    ConstantsAreQuiet(e);
  }

  lemma ComparisonOfConstants(c: Context, e: Expr, s: State)
    requires e.Binary? && e.op.Comparison() && e.constant.None? && e.x.Lit? && e.y.Lit?
    requires Eval(c, e.x, s, 0, false) == Res(Done(e.x.v), s, {}) && Eval(c, e.y, s, 0, false) == Res(Done(e.y.v), s, {})
    ensures Eval(c, e, s, 0, false).out == ApplyComparison(e.op, e.x.v, e.y.v)
  {
    hide ApplyComparison, Quiet, Inert, DivisorsCompile;
  }

  lemma ConstantsAreQuiet(e: Expr)
    requires e.Binary? && e.op.YieldsBool() && e.constant.None? && e.x.Lit? && e.y.Lit?
    requires e.op.Comparison() ==> ComparableWithoutPanic(e.x.ty) && ComparableWithoutPanic(e.y.ty)
    ensures Quiet(e)
  {
    hide Eval, ComparableWithoutPanic;
    assert Inert(e.x) && Inert(e.y) && DivisorsCompile(e.x) && DivisorsCompile(e.y);
    assert TypeOf(e.x) == e.x.ty && TypeOf(e.y) == e.y.ty;
    assert Inert(e) && DivisorsCompile(e);
  }

  lemma DecreasingReplacements(rule: Rule, anchor: Expr)
    requires rule.Decreasing() && Replacement(rule, anchor).Some?
    ensures var to := Replacement(rule, anchor).value;
            if !rule.SwapOperator? then to == Lit(Bool(false), TBool)
            else
              anchor.Binary? && anchor.op == rule.op && to == anchor.(op := if rule.op.Leq? then Lss else if rule.op.Geq? then Gtr else LAnd)
  {
    hide Inert, DivisorsCompile, Eval;
  }

  lemma QuietHasValue(c: Context, e: Expr, s: State, fuel: nat)
    requires c.edit.gate && Quiet(e)
    ensures Eval(c, e, s, fuel, false).out.Done?
  {
    hide Inert, DivisorsCompile, Eval;
    InertYieldsValue(c, e, s, fuel);
  }

  lemma FalseReads(c: Context, s: State, fuel: nat)
    ensures Quiet(Lit(Bool(false), TBool)) && Eval(c, Lit(Bool(false), TBool), s, fuel, false).out == Done(Bool(false))
  {
  }

  lemma AndNarrows(c: Context, or: Expr, s: State, fuel: nat)
    requires c.edit.gate && or.Binary? && or.op.LOr? && Quiet(or)
    ensures Quiet(or.(op := LAnd)) && Narrower(c, or, or.(op := LAnd), s, fuel)
  {
    InertBinary(c, or, s, fuel);
    InertBinary(c, or.(op := LAnd), s, fuel);
  }

  lemma StricterNarrows(c: Context, e: Expr, s: State, fuel: nat)
    requires c.edit.gate && e.Binary? && (e.op.Leq? || e.op.Geq?) && Quiet(e)
    ensures var to := e.(op := if e.op.Leq? then Lss else Gtr); Quiet(to) && Narrower(c, e, to, s, fuel)
  {
    InertYieldsValue(c, e.x, s, fuel);
    InertYieldsValue(c, e.y, s, fuel);
  }

  /** The mutant of a proved edit: the gate's condition with the anchor replaced. */
  function BranchEdit(rule: Rule, anchor: Expr, parents: seq<Parent>, k: nat, gate: Gate): Edit
    requires k <= |parents| && Replacement(rule, anchor).Some? && gate.owner.Owner()
  {
    Edit(true, gate.owner.id, gate.cond, Plug(Replacement(rule, anchor).value, parents[..k]))
  }

  /** A run of a proved edit's original in which the gated body is never entered, in a program where the clause that is the
      gate stands in a switch without a tag or with the constant `b` for its tag. */
  ghost predicate Promised(c: Context, rule: Rule, anchor: Expr, parents: seq<Parent>, k: nat, gate: Gate,
                           body: seq<Stmt>, s: State, fuel: nat, b: bool) {
    && Proved(rule, anchor, parents, k, gate) && Replacement(rule, anchor).Some? && DivisorsCompile(gate.cond)
    && !c.live && c.edit == BranchEdit(rule, anchor, parents, k, gate)
    && TaggedAll(body, c.edit, b) && (forall f :: f in c.prog ==> TaggedAll(c.prog[f].body, c.edit, b))
    && Entered(gate.owner.id) !in RunBlock(c, body, s, fuel).ev
  }

  /** Main result. Take any program in which no switch over the gate has a tag other than `true`, and any run of it that never
      enters the gated body: the mutant's run has the same outcome and the same final state. */
  lemma BranchProofSound(c: Context, rule: Rule, anchor: Expr, parents: seq<Parent>, k: nat, gate: Gate,
                         body: seq<Stmt>, s: State, fuel: nat)
    requires Promised(c, rule, anchor, parents, k, gate, body, s, fuel, true)
    ensures SameRun(RunBlock(c, body, s, fuel), RunBlock(Live(c), body, s, fuel))
  {
    var to := Replacement(rule, anchor).value;
    QuietPlug(anchor, to, parents[..k]);
    RuleNarrows(c, rule, anchor, s, fuel);
    forall live: bool, t: State, n: nat ensures GateAt(c.(live := live), t, n) {
      var d := c.(live := live);
      RuleNarrows(d, rule, anchor, t, n);
      NarrowerPlug(d, anchor, to, parents[..k], t, n);
      InertYieldsValue(d, gate.cond, t, n);
      InertYieldsValue(d, c.edit.to, t, n);
    }
    RunBlockAgrees(c, body, s, fuel);
  }

  // ----- why the tag must not be false

  /** Every program, every decreasing rule and every run, under a constant tag. */
  ghost predicate SoundUnder(w: World, b: bool) {
    forall prog: map<string, Function>, edit: Edit, rule: Rule, anchor: Expr, parents: seq<Parent>, k: nat, gate: Gate,
           body: seq<Stmt>, s: State, fuel: nat ::
      Promised(Context(prog, w, edit, false), rule, anchor, parents, k, gate, body, s, fuel, b) ==>
        SameRun(RunBlock(Context(prog, w, edit, false), body, s, fuel), RunBlock(Context(prog, w, edit, true), body, s, fuel))
  }

  /** Branch proofs over switches with a constant tag are right exactly when the tag is true. */
  lemma TagExact(w: World, b: bool)
    ensures SoundUnder(w, b) <==> b
  {
    hide Promised, RunBlock, Proved, Replacement, SameRun;
    if b {
      forall prog, edit, rule, anchor, parents, k: nat, gate, body, s, fuel: nat
        | Promised(Context(prog, w, edit, false), rule, anchor, parents, k, gate, body, s, fuel, true)
        ensures SameRun(RunBlock(Context(prog, w, edit, false), body, s, fuel), RunBlock(Context(prog, w, edit, true), body, s, fuel))
      {
        BranchProofSound(Context(prog, w, edit, false), rule, anchor, parents, k, gate, body, s, fuel);
      }
    } else {
      TaggedSwitchIsPromised(w);
      TaggedRunsDiffer(w);
    }
  }

  const COMPARED := Ident("x", TInt(8, true))
  const LABEL := Binary(Leq, COMPARED, COMPARED, TBool, None)
  const CLAUSE := Clause(7, [LABEL], [Return([])])
  const OWNER := CaseNode(7, CLAUSE.labels, CLAUSE.body, true)
  const TAGGED := Switch(Some(Lit(Bool(false), TBool)), [CLAUSE], [])

  function TaggedContext(w: World): Context {
    Context(map[], w, BranchEdit(SwapOperator(Leq), LABEL, [OWNER], 0, Gate(LABEL, OWNER)), false)
  }

  /** The code grants a proof to a clause of any switch, here to `case x <= x` under the tag `false`. */
  lemma TaggedSwitchIsProved()
    ensures Proved(SwapOperator(Leq), LABEL, [OWNER], 0, Gate(LABEL, OWNER)) && DivisorsCompile(LABEL)
  {
    assert [OWNER][..0] == [];
  }

  /** That proof is wrong: the original run skips the body, the mutant runs it. */
  lemma TaggedSwitchDefeatsProof(w: World)
    ensures
      var c, s := TaggedContext(w), State(map[], map[], 0);
      Run(c, TAGGED, s, 1) == Ran(Normal, s.(tick := 1), {}) && Run(Live(c), TAGGED, s, 1).flow == Returned([])
  {
    hide Run;
    OriginalSkips(w);
    MutantEnters(w);
  }

  lemma OriginalSkips(w: World)
    ensures Run(TaggedContext(w), TAGGED, State(map[], map[], 0), 1) == Ran(Normal, State(map[], map[], 1), {})
  {
    var c, t := TaggedContext(w), State(map[], map[], 1);
    hide Eval, Matches, RunBlock, Run;
    LabelReadings(c, t);
    TagReads(c, t);
    MatchesLabel(c, t, Bool(true));
    RunsTagged(c, t);
  }

  lemma MutantEnters(w: World)
    ensures Run(Live(TaggedContext(w)), TAGGED, State(map[], map[], 0), 1).flow == Returned([])
  {
    var c, t := TaggedContext(w), State(map[], map[], 1);
    hide Eval, Matches, RunBlock, Run, TaggedContext, Live;
    MutantCondition(w);
    LabelReadings(c, t);
    TagReads(Live(c), t);
    MatchesLabel(Live(c), t, Bool(false));
    RunsTagged(Live(c), t);
    NothingReturned(Live(c), t);
  }

  lemma MutantCondition(w: World)
    ensures GateCondition(Live(TaggedContext(w)), 7, LABEL) == LABEL.(op := Lss)
  {
    assert [OWNER][..0] == [];
  }

  /** The whole program is that switch. */
  lemma TaggedSwitchIsPromised(w: World)
    ensures Promised(TaggedContext(w), SwapOperator(Leq), LABEL, [OWNER], 0, Gate(LABEL, OWNER), [TAGGED], State(map[], map[], 0), 1, false)
  {
    hide Proved, RunBlock, Run;
    TaggedSwitchIsProved();
    TaggedSwitchDefeatsProof(w);
    AloneRuns(TaggedContext(w), TAGGED, State(map[], map[], 0), 1);
    var edit := TaggedContext(w).edit;
    assert Replacement(SwapOperator(Leq), LABEL).Some?;
    assert TaggedAll(CLAUSE.body, edit, false) && ConstantTag(TAGGED.tag, false);
    assert Tagged(TAGGED, edit, false);
  }

  lemma TaggedRunsDiffer(w: World)
    ensures var c, s := TaggedContext(w), State(map[], map[], 0);
            !SameRun(RunBlock(c, [TAGGED], s, 1), RunBlock(Live(c), [TAGGED], s, 1))
  {
    hide Run;
    TaggedSwitchDefeatsProof(w);
    AloneRuns(TaggedContext(w), TAGGED, State(map[], map[], 0), 1);
    AloneRuns(Live(TaggedContext(w)), TAGGED, State(map[], map[], 0), 1);
  }

  /** A block of one statement runs as the statement does. */
  lemma AloneRuns(c: Context, stmt: Stmt, s: State, fuel: nat)
    ensures var r, q := Run(c, stmt, s, fuel), RunBlock(c, [stmt], s, fuel); q.flow == r.flow && q.st == r.st && q.ev == r.ev
  {
    hide Run;
    assert [stmt][1..] == [];
    var r := Run(c, stmt, s, fuel);
    assert RunBlock(c, [stmt][1..], r.st, fuel) == Ran(Normal, r.st, {});
    assert r.ev + {} == r.ev;
  }

  lemma LabelReadings(c: Context, t: State)
    ensures Eval(c, LABEL, t, 1, false) == Res(Done(Bool(true)), t, {})
    ensures Eval(Live(c), LABEL.(op := Lss), t, 1, false) == Res(Done(Bool(false)), t, {})
  {
    hide Eval, Live, ApplyComparison, Fit, Load;
    ComparisonReads(c, LABEL, t);
    ComparisonReads(Live(c), LABEL.(op := Lss), t);
    EqualInOrder(Variable(COMPARED, t));
  }

  lemma EqualInOrder(v: Value)
    requires v.Int?
    ensures ApplyComparison(Leq, v, v) == Done(Bool(true)) && ApplyComparison(Lss, v, v) == Done(Bool(false))
  {
  }

  function Variable(x: Expr, t: State): Value
    requires x.Ident?
  {
    if x.name in t.vars then Fit(t.vars[x.name], x.ty) else Load(Global(x.name), t.heap, x.ty)
  }

  lemma ComparisonReads(c: Context, e: Expr, t: State)
    requires e.Binary? && e.op.Comparison() && e.x.Ident? && e.y.Ident? && e.constant.None?
    ensures Eval(c, e, t, 1, false) == Res(ApplyComparison(e.op, Variable(e.x, t), Variable(e.y, t)), t, {})
  {
  }

  lemma TagReads(c: Context, t: State)
    ensures Eval(c, TAGGED.tag.value, t, 1, false) == Res(Done(Bool(false)), t, {})
  {
  }

  lemma MatchesLabel(c: Context, t: State, v: Value)
    requires Eval(c, GateCondition(c, 7, LABEL), t, 1, false) == Res(Done(v), t, {}) && v.Bool?
    ensures Matches(c, 7, CLAUSE.labels, Bool(false), t, 1) == Res(Done(Bool(!v.b)), t, {})
  {
    hide Eval;
    assert CLAUSE.labels[1..] == [];
  }

  lemma RunsTagged(c: Context, t: State)
    requires Eval(c, TAGGED.tag.value, t, 1, false) == Res(Done(Bool(false)), t, {}) && t.tick > 0
    ensures var m := Matches(c, 7, CLAUSE.labels, Bool(false), t, 1);
            var r := Run(c, TAGGED, t.(tick := t.tick - 1), 1);
            && (m == Res(Done(Bool(false)), t, {}) ==> r == Ran(Normal, t, {}))
            && (m == Res(Done(Bool(true)), t, {}) ==> r.flow == EndSwitch(RunBlock(c, CLAUSE.body, t, 1)).flow)
  {
    hide Eval, Matches;
    assert RunClauses(c, TAGGED, 1, Bool(false), t, 1) == RunBlock(c, [], t, 1);
  }

  lemma NothingReturned(c: Context, t: State)
    ensures RunBlock(c, CLAUSE.body, t, 1).flow == Returned([])
  {
    assert Run(c, Return([]), t, 1).flow == Returned([]);
  }
}
