/** What a statement leaves alone: a variable it does not assign, and everything when only scalars are read. The code
    looks for assignments by name, anywhere inside a loop; `RunKeeps` is what that search is worth. It looks for
    the names in a bound without asking what kind of expression it is; `ScalarReads` says for which expressions the
    names are all there is to look at. */
module LoopFrames {
  import opened GoValues
  import opened GoProgram
  import opened Purity
  import opened Wrappers

  predicate Assigns(stmt: Stmt, x: string) {
    match stmt
    case Assign(name, _, _, _) => name == x
    case IncDec(name, _, _) => name == x
    case Block(body) => AssignsAny(body, x)
    case If(_, _, thn, els) => AssignsAny(thn, x) || AssignsAny(els, x)
    case For(_, _, post, body) => (post.Some? && Assigns(post.value, x)) || AssignsAny(body, x)
    case Switch(_, clauses, dflt) =>
      (exists k :: 0 <= k < |clauses| && AssignsAny(clauses[k].body, x)) || AssignsAny(dflt, x)
    case _ => false
  }

  predicate AssignsAny(body: seq<Stmt>, x: string) { exists s :: s in body && Assigns(s, x) }

  /** An assignment to a part of `x`, which has no `x` for its target. */
  predicate StoresInto(stmt: Stmt, x: string) {
    match stmt
    case Store(target, _) => Root(target) == Some(x)
    case Block(body) => StoresIntoAny(body, x)
    case If(_, _, thn, els) => StoresIntoAny(thn, x) || StoresIntoAny(els, x)
    case For(_, _, post, body) => (post.Some? && StoresInto(post.value, x)) || StoresIntoAny(body, x)
    case Switch(_, clauses, dflt) =>
      (exists k :: 0 <= k < |clauses| && StoresIntoAny(clauses[k].body, x)) || StoresIntoAny(dflt, x)
    case _ => false
  }

  predicate StoresIntoAny(body: seq<Stmt>, x: string) { exists s :: s in body && StoresInto(s, x) }

  predicate Changes(stmt: Stmt, x: string) { Assigns(stmt, x) || StoresInto(stmt, x) }

  predicate ChangesAny(body: seq<Stmt>, x: string) { AssignsAny(body, x) || StoresIntoAny(body, x) }

  predicate Continues(stmt: Stmt) {
    match stmt
    case Continue => true
    case Block(body) => ContinuesAny(body)
    case If(_, _, thn, els) => ContinuesAny(thn) || ContinuesAny(els)
    case For(_, _, post, body) => (post.Some? && Continues(post.value)) || ContinuesAny(body)
    case Switch(_, clauses, dflt) =>
      (exists k :: 0 <= k < |clauses| && ContinuesAny(clauses[k].body)) || ContinuesAny(dflt)
    case _ => false
  }

  predicate ContinuesAny(body: seq<Stmt>) { exists s :: s in body && Continues(s) }

  // ----- what the two searches look at

  /** `t` is the statement, or somewhere inside it. */
  ghost predicate Inside(t: Stmt, stmt: Stmt) {
    t == stmt
    || match stmt
       case Block(body) => InsideAny(t, body)
       case If(_, _, thn, els) => InsideAny(t, thn) || InsideAny(t, els)
       case For(_, _, post, body) => (post.Some? && Inside(t, post.value)) || InsideAny(t, body)
       case Switch(_, clauses, dflt) =>
         (exists k :: 0 <= k < |clauses| && InsideAny(t, clauses[k].body)) || InsideAny(t, dflt)
       case _ => false
  }

  ghost predicate InsideAny(t: Stmt, body: seq<Stmt>) { exists s :: s in body && Inside(t, s) }

  predicate AssignsHere(t: Stmt, x: string) { (t.Assign? || t.IncDec?) && t.name == x }

  ghost predicate AssignmentInside(stmt: Stmt, x: string) { exists t :: Inside(t, stmt) && AssignsHere(t, x) }

  ghost predicate AssignmentInsideAny(body: seq<Stmt>, x: string) { exists t :: InsideAny(t, body) && AssignsHere(t, x) }

  ghost predicate ContinueInside(stmt: Stmt) { exists t :: Inside(t, stmt) && t.Continue? }

  ghost predicate ContinueInsideAny(body: seq<Stmt>) { exists t :: InsideAny(t, body) && t.Continue? }

  /** The searches find an assignment to a name, and a `continue`, exactly when there is one anywhere inside. */
  lemma {:induction false} SearchExact(stmt: Stmt, x: string)
    ensures Assigns(stmt, x) <==> AssignmentInside(stmt, x)
    ensures Continues(stmt) <==> ContinueInside(stmt)
    decreases stmt, 1
  {
    assert Inside(stmt, stmt);
    match stmt
    case Block(body) => SearchAny(body, x);
    case If(_, _, thn, els) =>
      SearchAny(thn, x);
      SearchAny(els, x);
    case For(_, _, post, body) =>
      if post.Some? { SearchExact(post.value, x); }
      SearchAny(body, x);
    case Switch(_, clauses, dflt) =>
      forall k | 0 <= k < |clauses|
        ensures AssignsAny(clauses[k].body, x) <==> AssignmentInsideAny(clauses[k].body, x)
        ensures ContinuesAny(clauses[k].body) <==> ContinueInsideAny(clauses[k].body)
      {
        SearchAny(clauses[k].body, x);
      }
      SearchAny(dflt, x);
      SwitchSearched(stmt, x);
    case _ =>
  }

  lemma {:induction false} SearchAny(body: seq<Stmt>, x: string)
    ensures AssignsAny(body, x) <==> AssignmentInsideAny(body, x)
    ensures ContinuesAny(body) <==> ContinueInsideAny(body)
    decreases body
  {
    hide Inside, Assigns, Continues;
    forall s | s in body
      ensures Assigns(s, x) <==> AssignmentInside(s, x)
      ensures Continues(s) <==> ContinueInside(s)
    {
      SearchExact(s, x);
    }
    if ContinuesAny(body) {
      var s :| s in body && Continues(s);
      var t :| Inside(t, s) && t.Continue?;
      assert InsideAny(t, body);
    }
    if AssignsAny(body, x) {
      var s :| s in body && Assigns(s, x);
      var t :| Inside(t, s) && AssignsHere(t, x);
      assert InsideAny(t, body);
    }
  }

  lemma SwitchSearched(stmt: Stmt, x: string)
    requires stmt.Switch?
    requires forall k :: 0 <= k < |stmt.clauses| ==>
               (AssignsAny(stmt.clauses[k].body, x) <==> AssignmentInsideAny(stmt.clauses[k].body, x))
    requires AssignsAny(stmt.dflt, x) <==> AssignmentInsideAny(stmt.dflt, x)
    requires forall k :: 0 <= k < |stmt.clauses| ==>
               (ContinuesAny(stmt.clauses[k].body) <==> ContinueInsideAny(stmt.clauses[k].body))
    requires ContinuesAny(stmt.dflt) <==> ContinueInsideAny(stmt.dflt)
    ensures Assigns(stmt, x) <==> AssignmentInside(stmt, x)
    ensures Continues(stmt) <==> ContinueInside(stmt)
  {
    hide InsideAny, AssignsAny, ContinuesAny;
    if Continues(stmt) {
      if ContinuesAny(stmt.dflt) {
        var t :| InsideAny(t, stmt.dflt) && t.Continue?;
        assert Inside(t, stmt);
      } else {
        var k :| 0 <= k < |stmt.clauses| && ContinuesAny(stmt.clauses[k].body);
        var t :| InsideAny(t, stmt.clauses[k].body) && t.Continue?;
        assert Inside(t, stmt);
      }
    }
    if Assigns(stmt, x) {
      if AssignsAny(stmt.dflt, x) {
        var t :| InsideAny(t, stmt.dflt) && AssignsHere(t, x);
        assert Inside(t, stmt);
      } else {
        var k :| 0 <= k < |stmt.clauses| && AssignsAny(stmt.clauses[k].body, x);
        var t :| InsideAny(t, stmt.clauses[k].body) && AssignsHere(t, x);
        assert Inside(t, stmt);
      }
    }
  }

  // ----- expressions never assign a variable

  lemma {:induction false} EvalKeepsVars(c: Context, e: Expr, s: State, fuel: nat, inside: bool)
    ensures Eval(c, e, s, fuel, inside).st.vars == s.vars
    decreases if inside then 0 else 1, e, 1
  {
    hide Eval, EvalAll;
    if e.Paren? || e.Field? || e.Star? || e.TypeAssert? || e.Unary? || e.Convert? { OperandKeepsVars(c, e, s, fuel, inside); }
    else if e.Site? { SiteKeepsVars(c, e, s, fuel, inside); }
    else if e.CallBuiltin? || e.Call? { ArgumentsKeepVars(c, e, s, fuel, inside); }
    else if e.Index? || e.SliceOf? || e.Binary? || e.Composite? { PartsKeepVars(c, e, s, fuel, inside); }
    else { LeafKeepsVars(c, e, s, fuel, inside); }
  }

  lemma LeafKeepsVars(c: Context, e: Expr, s: State, fuel: nat, inside: bool)
    requires e.Ident? || e.Lit? || e.FuncLit? || e.PkgName?
    ensures Eval(c, e, s, fuel, inside).st.vars == s.vars
  {
  }

  lemma {:induction false} OperandKeepsVars(c: Context, e: Expr, s: State, fuel: nat, inside: bool)
    requires e.Paren? || e.Field? || e.Star? || e.TypeAssert? || e.Unary? || e.Convert?
    ensures Eval(c, e, s, fuel, inside).st.vars == s.vars
    decreases if inside then 0 else 1, e, 0
  {
    EvalKeepsVars(c, e.x, s, fuel, inside);
  }

  lemma {:induction false} SiteKeepsVars(c: Context, e: Expr, s: State, fuel: nat, inside: bool)
    requires e.Site?
    ensures Eval(c, e, s, fuel, inside).st.vars == s.vars
    decreases if inside then 0 else 1, e, 0
  {
    EvalKeepsVars(c, e.x, s, fuel, inside);
    if !inside { EvalKeepsVars(c, c.edit.to, s, fuel, true); }
  }

  lemma {:induction false} ArgumentsKeepVars(c: Context, e: Expr, s: State, fuel: nat, inside: bool)
    requires e.CallBuiltin? || e.Call?
    ensures Eval(c, e, s, fuel, inside).st.vars == s.vars
    decreases if inside then 0 else 1, e, 0
  {
    OperandsKeepVars(c, e.args, s, fuel, inside);
  }

  lemma {:induction false} PartsKeepVars(c: Context, e: Expr, s: State, fuel: nat, inside: bool)
    requires e.Index? || e.SliceOf? || e.Binary? || e.Composite?
    ensures Eval(c, e, s, fuel, inside).st.vars == s.vars
    decreases if inside then 0 else 1, e, 0
  {
    if e.Composite? {
      OperandsKeepVars(c, e.keys, s, fuel, inside);
      var k := EvalAll(c, e.keys, s, fuel, inside);
      if k.out.Done? { OperandsKeepVars(c, e.values, k.st, fuel, inside); }
    } else {
      EvalKeepsVars(c, e.x, s, fuel, inside);
      var a := Eval(c, e.x, s, fuel, inside);
      if e.SliceOf? { OperandsKeepVars(c, e.bounds, a.st, fuel, inside); }
      if e.Index? { EvalKeepsVars(c, e.i, a.st, fuel, inside); }
      if e.Binary? { EvalKeepsVars(c, e.y, a.st, fuel, inside); }
    }
  }

  lemma {:induction false} OperandsKeepVars(c: Context, es: seq<Expr>, s: State, fuel: nat, inside: bool)
    ensures EvalAll(c, es, s, fuel, inside).st.vars == s.vars
    decreases if inside then 0 else 1, es
  {
    if es != [] {
      EvalKeepsVars(c, es[0], s, fuel, inside);
      var a := Eval(c, es[0], s, fuel, inside);
      if a.out.Done? { OperandsKeepVars(c, es[1..], a.st, fuel, inside); }
    }
  }

  // ----- statements keep the variables they do not assign, and stay on course without `continue`

  predicate Kept(s: State, t: State, x: string) { x in s.vars ==> x in t.vars && t.vars[x] == s.vars[x] }

  predicate Untouched(s: State, r: Ran, x: string, changes: bool, continues: bool) {
    (!changes ==> Kept(s, r.st, x)) && (!continues ==> !r.flow.Continued?)
  }

  lemma {:induction false} RunKeeps(c: Context, stmt: Stmt, st0: State, fuel: nat, x: string)
    ensures Untouched(st0, Run(c, stmt, st0, fuel), x, Changes(stmt, x), Continues(stmt))
    decreases fuel, 3, stmt, if stmt.Switch? then |stmt.clauses| + 1 else 1
  {
    hide Eval;
    var s := st0.(tick := st0.tick + 1);
    match stmt
    case ExprStmt(e) => EvalKeepsVars(c, e, s, fuel, false);
    case Assign(name, tok, e, ty) => EvalKeepsVars(c, Assigned(name, tok, e, ty), s, fuel, false);
    case IncDec(name, _, ty) => IdentReads(c, name, ty, s, fuel);
    case Store(target, e) => OperandsKeepVars(c, Operands(target) + [e], s, fuel, false);
    case Block(body) => BlockKeeps(c, body, s, fuel, x);
    case If(_, _, _, _) | For(_, _, _, _) | Switch(_, _, _) => BranchKeeps(c, stmt, s, fuel, x);
    case Return(results) => OperandsKeepVars(c, results, s, fuel, false);
    case _ =>
  }

  lemma IdentReads(c: Context, x: string, ty: Type, s: State, fuel: nat)
    ensures var r := Eval(c, Ident(x, ty), s, fuel, false);
            r == Res(Done(if x in s.vars then Fit(s.vars[x], ty) else Load(Global(x), s.heap, ty)), s, {})
  {
  }

  lemma {:induction false} BranchKeeps(c: Context, stmt: Stmt, s: State, fuel: nat, x: string)
    requires (stmt.If? || stmt.For? || stmt.Switch?) && s.tick > 0
    ensures Untouched(s, Run(c, stmt, s.(tick := s.tick - 1), fuel), x, Changes(stmt, x), Continues(stmt))
    decreases fuel, 3, stmt, if stmt.Switch? then |stmt.clauses| + 1 else 1, 0
  {
    hide Eval;
    match stmt
    case If(id, cond, thn, els) =>
      EvalKeepsVars(c, GateCondition(c, id, cond), s, fuel, false);
      var r := Eval(c, GateCondition(c, id, cond), s, fuel, false);
      BlockKeeps(c, thn, r.st, fuel, x);
      BlockKeeps(c, els, r.st, fuel, x);
    case For(_, _, _, _) =>
      if fuel > 0 {
        IterateKeeps(c, stmt, s, fuel, x);
        RunKeeps(c, stmt, Iterate(c, stmt, s, fuel).st, fuel - 1, x);
      }
    case Switch(tag, clauses, dflt) =>
      if tag.Some? { EvalKeepsVars(c, tag.value, s, fuel, false); }
      var r := if tag.None? then Res(Done(Bool(true)), s, {}) else Eval(c, tag.value, s, fuel, false);
      if r.out.Done? { ClausesKeep(c, stmt, 0, r.out.v, r.st, fuel, x); }
  }

  lemma {:induction false} IterateKeeps(c: Context, loop: Stmt, s: State, fuel: nat, x: string)
    requires loop.For?
    ensures Untouched(s, Iterate(c, loop, s, fuel), x, Changes(loop, x), Continues(loop))
    decreases fuel, 3, loop, 0
  {
    hide Eval;
    if loop.test.Some? { EvalKeepsVars(c, GateCondition(c, loop.id, loop.test.value), s, fuel, false); }
    var r := if loop.test.None? then Res(Done(Bool(true)), s, {})
             else Eval(c, GateCondition(c, loop.id, loop.test.value), s, fuel, false);
    BlockKeeps(c, loop.body, r.st, fuel, x);
    if loop.post.Some? { RunKeeps(c, loop.post.value, RunBlock(c, loop.body, r.st, fuel).st, fuel, x); }
  }

  lemma {:induction false} BlockKeeps(c: Context, body: seq<Stmt>, s: State, fuel: nat, x: string)
    ensures Untouched(s, RunBlock(c, body, s, fuel), x, ChangesAny(body, x), ContinuesAny(body))
    decreases fuel, 3, body
  {
    hide Run, Assigns, StoresInto, Continues;
    if body != [] {
      RunKeeps(c, body[0], s, fuel, x);
      BlockKeeps(c, body[1..], Run(c, body[0], s, fuel).st, fuel, x);
      assert ChangesAny(body[1..], x) ==> ChangesAny(body, x);
      assert ContinuesAny(body[1..]) ==> ContinuesAny(body);
    }
  }

  lemma {:induction false} ClausesKeep(c: Context, sw: Stmt, k: nat, tag: Value, s: State, fuel: nat, x: string)
    requires sw.Switch? && k <= |sw.clauses|
    ensures Untouched(s, RunClauses(c, sw, k, tag, s, fuel), x, Changes(sw, x), Continues(sw))
    decreases fuel, 3, sw, |sw.clauses| - k
  {
    hide Eval, Matches;
    if k == |sw.clauses| {
      BlockKeeps(c, sw.dflt, s, fuel, x);
    } else {
      var clause := sw.clauses[k];
      MatchesKeep(c, clause.id, clause.labels, tag, s, fuel);
      var r := Matches(c, clause.id, clause.labels, tag, s, fuel);
      BlockKeeps(c, clause.body, r.st, fuel, x);
      ClausesKeep(c, sw, k + 1, tag, r.st, fuel, x);
    }
  }

  lemma {:induction false} MatchesKeep(c: Context, id: nat, labels: seq<Expr>, tag: Value, s: State, fuel: nat)
    ensures Matches(c, id, labels, tag, s, fuel).st.vars == s.vars
    decreases labels
  {
    hide Eval;
    if labels != [] {
      EvalKeepsVars(c, GateCondition(c, id, labels[0]), s, fuel, false);
      MatchesKeep(c, id, labels[1..], tag, Eval(c, GateCondition(c, id, labels[0]), s, fuel, false).st, fuel);
    }
  }

  // ----- bounds over scalars

  /** The identifiers of an expression. */
  function Names(e: Expr): set<string> {
    match e
    case Ident(x, _) => {x}
    case Paren(x) => Names(x)
    case Site(_, x) => Names(x)
    case Field(x, _, _, _) => Names(x)
    case Star(x, _) => Names(x)
    case TypeAssert(x, _) => Names(x)
    case Unary(_, x, _, _) => Names(x)
    case Convert(_, x) => Names(x)
    case Index(x, i, _) => Names(x) + Names(i)
    case Binary(_, x, y, _, _) => Names(x) + Names(y)
    case SliceOf(x, bounds, _) => Names(x) + set b, n | b in bounds && n in Names(b) :: n
    case Composite(keys, values, _, _) =>
      (set k, n | k in keys && n in Names(k) :: n) + set v, n | v in values && n in Names(v) :: n
    case CallBuiltin(_, args, _, _) => set a, n | a in args && n in Names(a) :: n
    case Call(_, args, _) => set a, n | a in args && n in Names(a) :: n
    case _ => {}
  }

  /** A value of this type can be a reference to something that has a length of its own. */
  predicate Refers(t: Type) { t.TMap? || t.TChan? || t.TPointer? || t.TTypeParam? }

  /** Nothing behind a pointer, a slice, a map, a channel or a call: the value depends on the variables alone. */
  predicate Scalar(e: Expr) {
    match e
    case Ident(_, _) | Lit(_, _) => true
    case Paren(x) => Scalar(x)
    case Field(x, _, sel, _) => sel.Direct? && Scalar(x)
    case Unary(op, x, _, _) => !op.Receive? && !op.AddressOf? && Scalar(x)
    case Convert(_, x) => Scalar(x) && !TypeOf(x).TSlice? && !TypeOf(x).TTypeParam?
    case Binary(_, x, y, _, _) => Scalar(x) && Scalar(y)
    case CallBuiltin(b, args, _, _) =>
      !b.Effectful? && !b.New? && !b.Make? && forall a :: a in args ==> Scalar(a) && !Refers(TypeOf(a))
    case _ => false
  }

  predicate SameOn(names: set<string>, s: State, t: State) {
    forall n :: n in names ==> n in s.vars && n in t.vars && t.vars[n] == s.vars[n]
  }

  lemma {:induction false} ScalarReads(c: Context, e: Expr, s: State, t: State, f: nat, g: nat)
    requires Scalar(e) && SameOn(Names(e), s, t)
    ensures Eval(c, e, s, f, false).out == Eval(c, e, t, g, false).out
    ensures Eval(c, e, s, f, false).st == s && Eval(c, e, t, g, false).st == t
    ensures Eval(c, e, s, f, false).ev == {} && !Eval(c, e, s, f, false).out.Starved?
    decreases e, 1
  {
    hide Eval, EvalAll;
    if e.Binary? { BinaryReads(c, e, s, t, f, g); }
    else if e.CallBuiltin? { BuiltinReads(c, e, s, t, f, g); }
    else if e.Ident? || e.Lit? { LeafReads(c, e, s, t, f, g); }
    else { OperandReads(c, e, s, t, f, g); }
  }

  lemma LeafReads(c: Context, e: Expr, s: State, t: State, f: nat, g: nat)
    requires (e.Ident? || e.Lit?) && SameOn(Names(e), s, t)
    ensures Eval(c, e, s, f, false).out == Eval(c, e, t, g, false).out
    ensures Eval(c, e, s, f, false).st == s && Eval(c, e, t, g, false).st == t
    ensures Eval(c, e, s, f, false).ev == {} && !Eval(c, e, s, f, false).out.Starved?
  {
  }

  lemma {:induction false} OperandReads(c: Context, e: Expr, s: State, t: State, f: nat, g: nat)
    requires e.Paren? || e.Field? || e.Unary? || e.Convert?
    requires Scalar(e) && SameOn(Names(e), s, t)
    ensures Eval(c, e, s, f, false).out == Eval(c, e, t, g, false).out
    ensures Eval(c, e, s, f, false).st == s && Eval(c, e, t, g, false).st == t
    ensures Eval(c, e, s, f, false).ev == {} && !Eval(c, e, s, f, false).out.Starved?
    decreases e, 0
  {
    hide EvalAll;
    ScalarReads(c, e.x, s, t, f, g);
    EvalConforms(c, e.x, s, f, false);
  }

  lemma {:induction false} BuiltinReads(c: Context, e: Expr, s: State, t: State, f: nat, g: nat)
    requires e.CallBuiltin? && Scalar(e) && SameOn(Names(e), s, t)
    ensures Eval(c, e, s, f, false).out == Eval(c, e, t, g, false).out
    ensures Eval(c, e, s, f, false).st == s && Eval(c, e, t, g, false).st == t
    ensures Eval(c, e, s, f, false).ev == {} && !Eval(c, e, s, f, false).out.Starved?
    decreases e, 0
  {
    hide EvalAll;
    OperandsRead(c, e.args, s, t, f, g);
    OperandsAreNoReferences(c, e.args, s, f);
  }

  lemma {:induction false} OperandsAreNoReferences(c: Context, es: seq<Expr>, s: State, f: nat)
    requires forall e :: e in es ==> !Refers(TypeOf(e))
    ensures var r := EvalAll(c, es, s, f, false); r.out.Done? ==> forall v :: v in r.out.v ==> !v.MapRef? && !v.Ref?
    decreases es
  {
    hide Eval;
    if es != [] {
      var a := Eval(c, es[0], s, f, false);
      EvalConforms(c, es[0], s, f, false);
      OperandsAreNoReferences(c, es[1..], a.st, f);
    }
  }

  lemma {:induction false} BinaryReads(c: Context, e: Expr, s: State, t: State, f: nat, g: nat)
    requires e.Binary? && Scalar(e) && SameOn(Names(e), s, t)
    ensures Eval(c, e, s, f, false).out == Eval(c, e, t, g, false).out
    ensures Eval(c, e, s, f, false).st == s && Eval(c, e, t, g, false).st == t
    ensures Eval(c, e, s, f, false).ev == {} && !Eval(c, e, s, f, false).out.Starved?
    decreases e, 0
  {
    hide EvalAll, ApplyComparison, ApplyArithmetic, Fit;
    ScalarReads(c, e.x, s, t, f, g);
    ScalarReads(c, e.y, s, t, f, g);
  }

  lemma {:induction false} OperandsRead(c: Context, es: seq<Expr>, s: State, t: State, f: nat, g: nat)
    requires forall e :: e in es ==> Scalar(e) && SameOn(Names(e), s, t)
    ensures EvalAll(c, es, s, f, false).out == EvalAll(c, es, t, g, false).out
    ensures EvalAll(c, es, s, f, false).st == s && EvalAll(c, es, t, g, false).st == t
    ensures EvalAll(c, es, s, f, false).ev == {} && !EvalAll(c, es, s, f, false).out.Starved?
    decreases es
  {
    if es != [] {
      ScalarReads(c, es[0], s, t, f, g);
      OperandsRead(c, es[1..], s, t, f, g);
    }
  }
}
