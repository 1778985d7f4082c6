/** One edit, two runs. An edit that is harmless wherever it is evaluated is harmless to every whole run of a
    program with nested loops, switches and recursive calls, unless the original run records the event that
    would have betrayed it: for a gate, that the gated body ran; for a site, that its two readings differ. The
    proof goes by induction over fuel, then over the syntax, with one lemma for each kind of expression and
    statement. */
module EditRuns {
  import opened GoValues
  import opened GoProgram
  import opened Wrappers

  function Live(c: Context): Context { c.(live := true) }

  /** The original run recorded nothing about this edit. */
  predicate Silent(edit: Edit, ev: set<Event>) {
    (if edit.gate then Entered(edit.id) else Differs(edit.id)) !in ev
  }

  /** At a gate: both conditions yield a value and change nothing, and the edited one is true only where the
      original is. */
  ghost predicate GateAt(c: Context, s: State, fuel: nat) {
    var r, q := Eval(c, c.edit.from, s, fuel, false), Eval(c, c.edit.to, s, fuel, false);
    && r.out.Done? && r.st == s && r.ev == {}
    && q.out.Done? && q.st == s
    && (IsTrue(q.out.v) ==> IsTrue(r.out.v))
  }

  /** At a site: both readings yield a value and change nothing, and readings that compare equal are the same. */
  ghost predicate SiteAt(c: Context, s: State, fuel: nat) {
    var r, q := Eval(c, c.edit.from, s, fuel, false), Eval(c, c.edit.to, s, fuel, true);
    && r.out.Done? && r.st == s
    && q.out.Done? && q.st == s && q.ev == {}
    && (SameReading(r, q) ==> Fit(q.out.v, TypeOf(c.edit.from)) == r.out.v)
  }

  ghost predicate Harmless(c: Context) {
    && (forall f :: f in c.prog ==> TaggedAll(c.prog[f].body, c.edit, true))
    && (c.edit.gate ==> forall live: bool, s: State, fuel: nat :: GateAt(c.(live := live), s, fuel))
    && (!c.edit.gate ==> forall s: State, fuel: nat :: SiteAt(c, s, fuel))
  }

  /** A case clause that is the edited gate belongs to a switch without a tag, or with the constant `b` for its tag. */
  predicate Tagged(stmt: Stmt, edit: Edit, b: bool) {
    edit.gate ==>
    match stmt
    case Block(body) => TaggedAll(body, edit, b)
    case If(_, _, thn, els) => TaggedAll(thn, edit, b) && TaggedAll(els, edit, b)
    case For(_, _, post, body) => (post.Some? ==> Tagged(post.value, edit, b)) && TaggedAll(body, edit, b)
    case Switch(tag, clauses, dflt) =>
      && (forall k :: 0 <= k < |clauses| ==>
            (clauses[k].id == edit.id ==> ConstantTag(tag, b)) && TaggedAll(clauses[k].body, edit, b))
      && TaggedAll(dflt, edit, b)
    case _ => true
  }

  predicate TaggedAll(body: seq<Stmt>, edit: Edit, b: bool) {
    forall s :: s in body ==> Tagged(s, edit, b)
  }

  predicate ConstantTag(tag: Option<Expr>, b: bool) { tag.None? || tag.value == Lit(Bool(b), TBool) }

  /** The value a switch compares its labels with. */
  ghost function TagOf(c: Context, tag: Option<Expr>, s: State, fuel: nat): Res<Value> {
    if tag.None? then Res(Done(Bool(true)), s, {}) else Eval(c, tag.value, s, fuel, false)
  }

  lemma ConstantTagReads(c: Context, tag: Option<Expr>, s: State, fuel: nat)
    requires ConstantTag(tag, true)
    ensures TagOf(c, tag, s, fuel) == Res(Done(Bool(true)), s, {})
  {
  }

  /** Only the edit of a gate asks anything of a program. */
  lemma SiteIsTagged(c: Context)
    requires !c.edit.gate
    ensures forall body: seq<Stmt> :: TaggedAll(body, c.edit, true)
  {
  }

  ghost predicate Same<T>(r: Res<T>, q: Res<T>) { q.out == r.out && q.st == r.st }

  ghost predicate SameRun(r: Ran, q: Ran) { q.flow == r.flow && q.st == r.st }

  // ----- expressions

  lemma {:induction false} EvalAgrees(c: Context, e: Expr, s: State, fuel: nat, inside: bool)
    requires !c.live && Harmless(c)
    requires Silent(c.edit, Eval(c, e, s, fuel, inside).ev)
    ensures Same(Eval(c, e, s, fuel, inside), Eval(Live(c), e, s, fuel, inside))
    decreases fuel, if inside then 0 else 1, e, 1
  {
    hide Harmless, Eval, EvalAll;
    if e.Paren? || e.Field? || e.Star? || e.TypeAssert? || e.Unary? || e.Convert? { OperandAgrees(c, e, s, fuel, inside); }
    else if e.Index? || e.SliceOf? || e.Binary? { PairAgrees(c, e, s, fuel, inside); }
    else if e.Composite? { CompositeAgrees(c, e, s, fuel, inside); }
    else if e.CallBuiltin? { BuiltinAgrees(c, e, s, fuel, inside); }
    else if e.Call? { CallAgrees(c, e, s, fuel, inside); }
    else if e.Site? { SiteAgrees(c, e, s, fuel, inside); }
    else { LeafAgrees(c, e, s, fuel, inside); }
  }

  lemma LeafAgrees(c: Context, e: Expr, s: State, fuel: nat, inside: bool)
    requires e.Ident? || e.Lit? || e.FuncLit? || e.PkgName?
    ensures Same(Eval(c, e, s, fuel, inside), Eval(Live(c), e, s, fuel, inside))
  {
  }

  lemma {:induction false} OperandAgrees(c: Context, e: Expr, s: State, fuel: nat, inside: bool)
    requires !c.live && Harmless(c)
    requires e.Paren? || e.Field? || e.Star? || e.TypeAssert? || e.Unary? || e.Convert?
    requires Silent(c.edit, Eval(c, e, s, fuel, inside).ev)
    ensures Same(Eval(c, e, s, fuel, inside), Eval(Live(c), e, s, fuel, inside))
    decreases fuel, if inside then 0 else 1, e, 0
  {
    hide Harmless, EvalAll;
    EvalAgrees(c, e.x, s, fuel, inside);
  }

  lemma {:induction false} BuiltinAgrees(c: Context, e: Expr, s: State, fuel: nat, inside: bool)
    requires !c.live && Harmless(c)
    requires e.CallBuiltin? && Silent(c.edit, Eval(c, e, s, fuel, inside).ev)
    ensures Same(Eval(c, e, s, fuel, inside), Eval(Live(c), e, s, fuel, inside))
    decreases fuel, if inside then 0 else 1, e, 0
  {
    hide Harmless, EvalAll;
    EvalAllAgrees(c, e.args, s, fuel, inside);
  }

  lemma {:induction false} PairAgrees(c: Context, e: Expr, s: State, fuel: nat, inside: bool)
    requires !c.live && Harmless(c)
    requires e.Index? || e.SliceOf? || e.Binary?
    requires Silent(c.edit, Eval(c, e, s, fuel, inside).ev)
    ensures Same(Eval(c, e, s, fuel, inside), Eval(Live(c), e, s, fuel, inside))
    decreases fuel, if inside then 0 else 1, e, 0
  {
    hide Harmless, EvalAll;
    EvalAgrees(c, e.x, s, fuel, inside);
    var a := Eval(c, e.x, s, fuel, inside);
    if a.out.Done? {
      match e
      case SliceOf(_, bounds, _) => EvalAllAgrees(c, bounds, a.st, fuel, inside);
      case Index(_, i, _) => EvalAgrees(c, i, a.st, fuel, inside);
      case Binary(op, _, y, _, constant) =>
        if !LeftDecides(op, a.out.v, constant) { EvalAgrees(c, y, a.st, fuel, inside); }
    }
  }

  lemma {:induction false} CompositeAgrees(c: Context, e: Expr, s: State, fuel: nat, inside: bool)
    requires !c.live && Harmless(c)
    requires e.Composite? && Silent(c.edit, Eval(c, e, s, fuel, inside).ev)
    ensures Same(Eval(c, e, s, fuel, inside), Eval(Live(c), e, s, fuel, inside))
    decreases fuel, if inside then 0 else 1, e, 0
  {
    hide Harmless, EvalAll;
    EvalAllAgrees(c, e.keys, s, fuel, inside);
    var k := EvalAll(c, e.keys, s, fuel, inside);
    if k.out.Done? { EvalAllAgrees(c, e.values, k.st, fuel, inside); }
  }

  lemma {:induction false} CallAgrees(c: Context, e: Expr, s: State, fuel: nat, inside: bool)
    requires !c.live && Harmless(c)
    requires e.Call? && Silent(c.edit, Eval(c, e, s, fuel, inside).ev)
    ensures Same(Eval(c, e, s, fuel, inside), Eval(Live(c), e, s, fuel, inside))
    decreases fuel, if inside then 0 else 1, e, 0
  {
    EvalAllAgrees(c, e.args, s, fuel, inside);
    var r := EvalAll(c, e.args, s, fuel, inside);
    if r.out.Done? && e.fn in c.prog && |c.prog[e.fn].params| == |e.args| && fuel > 0 {
      RunBlockAgrees(c, c.prog[e.fn].body, Entry(c.prog[e.fn].params, r.out.v, r.st), fuel - 1);
    }
  }

  lemma {:induction false} SiteAgrees(c: Context, e: Expr, s: State, fuel: nat, inside: bool)
    requires !c.live && Harmless(c)
    requires e.Site? && Silent(c.edit, Eval(c, e, s, fuel, inside).ev)
    ensures Same(Eval(c, e, s, fuel, inside), Eval(Live(c), e, s, fuel, inside))
    decreases fuel, if inside then 0 else 1, e, 0
  {
    if inside || c.edit.gate || e.id != c.edit.id || e.x != c.edit.from {
      EvalAgrees(c, e.x, s, fuel, inside);
    } else {
      assert SiteAt(c, s, fuel);
      EvalAgrees(c, c.edit.to, s, fuel, true);
    }
  }

  lemma {:induction false} EvalAllAgrees(c: Context, es: seq<Expr>, s: State, fuel: nat, inside: bool)
    requires !c.live && Harmless(c)
    requires Silent(c.edit, EvalAll(c, es, s, fuel, inside).ev)
    ensures Same(EvalAll(c, es, s, fuel, inside), EvalAll(Live(c), es, s, fuel, inside))
    decreases fuel, if inside then 0 else 1, es, 0
  {
    hide Harmless;
    if es != [] {
      EvalAgrees(c, es[0], s, fuel, inside);
      var a := Eval(c, es[0], s, fuel, inside);
      if a.out.Done? { EvalAllAgrees(c, es[1..], a.st, fuel, inside); }
    }
  }

  // ----- statements

  /** The two conditions lead the same way. */
  ghost predicate SameWay(r: Res<Value>, q: Res<Value>) {
    q.st == r.st && (q.out == r.out || (r.out.Done? && q.out.Done? && !IsTrue(r.out.v) && !IsTrue(q.out.v)))
  }

  /** The condition of a gate, when the original run does not go through it. */
  lemma {:induction false} GateAgrees(c: Context, id: nat, cond: Expr, s: State, fuel: nat)
    requires !c.live && Harmless(c)
    requires Silent(c.edit, Eval(c, cond, s, fuel, false).ev)
    requires c.edit.gate && id == c.edit.id ==>
               var r := Eval(c, cond, s, fuel, false); r.out.Done? ==> !IsTrue(r.out.v)
    ensures var r, q := Eval(c, cond, s, fuel, false), Eval(Live(c), GateCondition(Live(c), id, cond), s, fuel, false);
            if c.edit.gate && id == c.edit.id then SameWay(r, q) else Same(r, q)
    decreases fuel, 2, 0
  {
    EvalAgrees(c, cond, s, fuel, false);
    if c.edit.gate {
      assert GateAt(c.(live := true), s, fuel) && GateAt(c.(live := false), s, fuel);
      assert c.(live := false) == c;
    }
  }

  lemma {:induction false} RunAgrees(c: Context, stmt: Stmt, st0: State, fuel: nat)
    requires !c.live && Harmless(c) && Tagged(stmt, c.edit, true)
    requires Silent(c.edit, Run(c, stmt, st0, fuel).ev)
    ensures SameRun(Run(c, stmt, st0, fuel), Run(Live(c), stmt, st0, fuel))
    decreases fuel, 3, stmt, if stmt.Switch? then |stmt.clauses| + 1 else 1
  {
    hide Harmless, Run;
    if stmt.If? || stmt.For? || stmt.Switch? {
      BranchingAgrees(c, stmt, st0.(tick := st0.tick + 1), fuel);
    } else if stmt.Block? {
      BlockAgrees(c, stmt, st0, fuel);
    } else {
      SimpleAgrees(c, stmt, st0, fuel);
    }
  }

  lemma {:induction false} BlockAgrees(c: Context, stmt: Stmt, st0: State, fuel: nat)
    requires !c.live && Harmless(c) && Tagged(stmt, c.edit, true)
    requires stmt.Block? && Silent(c.edit, Run(c, stmt, st0, fuel).ev)
    ensures SameRun(Run(c, stmt, st0, fuel), Run(Live(c), stmt, st0, fuel))
    decreases fuel, 3, stmt, 0
  {
    hide Harmless, RunBlock;
    RunBlockAgrees(c, stmt.body, st0.(tick := st0.tick + 1), fuel);
  }

  lemma {:induction false} SimpleAgrees(c: Context, stmt: Stmt, st0: State, fuel: nat)
    requires !c.live && Harmless(c)
    requires !stmt.If? && !stmt.For? && !stmt.Switch? && !stmt.Block?
    requires Silent(c.edit, Run(c, stmt, st0, fuel).ev)
    ensures SameRun(Run(c, stmt, st0, fuel), Run(Live(c), stmt, st0, fuel))
    decreases fuel, 2, 1
  {
    hide Harmless, Run;
    if stmt.ExprStmt? || stmt.Assign? || stmt.IncDec? { ValueAgrees(c, stmt, st0, fuel); }
    else if stmt.Store? || stmt.Return? { ListAgrees(c, stmt, st0, fuel); }
    else { JumpAgrees(c, stmt, st0, fuel); }
  }

  lemma JumpAgrees(c: Context, stmt: Stmt, st0: State, fuel: nat)
    requires stmt.Break? || stmt.Continue?
    ensures SameRun(Run(c, stmt, st0, fuel), Run(Live(c), stmt, st0, fuel))
  {
    hide Eval, EvalAll, Iterate, RunBlock, RunClauses;
  }

  lemma {:induction false} ValueAgrees(c: Context, stmt: Stmt, st0: State, fuel: nat)
    requires !c.live && Harmless(c)
    requires stmt.ExprStmt? || stmt.Assign? || stmt.IncDec?
    requires Silent(c.edit, Run(c, stmt, st0, fuel).ev)
    ensures SameRun(Run(c, stmt, st0, fuel), Run(Live(c), stmt, st0, fuel))
    decreases fuel, 2, 0
  {
    hide Harmless, Eval, EvalAll, Iterate, RunBlock, RunClauses;
    var s := st0.(tick := st0.tick + 1);
    if stmt.ExprStmt? { EvalAgrees(c, stmt.e, s, fuel, false); }
    else if stmt.Assign? { EvalAgrees(c, Assigned(stmt.name, stmt.tok, stmt.e, stmt.ty), s, fuel, false); }
    else { EvalAgrees(c, Ident(stmt.name, stmt.ty), s, fuel, false); }
  }

  lemma {:induction false} ListAgrees(c: Context, stmt: Stmt, st0: State, fuel: nat)
    requires !c.live && Harmless(c)
    requires stmt.Store? || stmt.Return?
    requires Silent(c.edit, Run(c, stmt, st0, fuel).ev)
    ensures SameRun(Run(c, stmt, st0, fuel), Run(Live(c), stmt, st0, fuel))
    decreases fuel, 2, 0
  {
    hide Harmless, Eval, EvalAll, Iterate, RunBlock, RunClauses, Operands, Replaced, Root;
    var s := st0.(tick := st0.tick + 1);
    EvalAllAgrees(c, if stmt.Store? then Operands(stmt.target) + [stmt.e] else stmt.results, s, fuel, false);
  }

  lemma {:induction false} BranchingAgrees(c: Context, stmt: Stmt, s: State, fuel: nat)
    requires !c.live && Harmless(c) && Tagged(stmt, c.edit, true)
    requires (stmt.If? || stmt.For? || stmt.Switch?) && s.tick > 0
    requires Silent(c.edit, Run(c, stmt, s.(tick := s.tick - 1), fuel).ev)
    ensures SameRun(Run(c, stmt, s.(tick := s.tick - 1), fuel), Run(Live(c), stmt, s.(tick := s.tick - 1), fuel))
    decreases fuel, 3, stmt, if stmt.Switch? then |stmt.clauses| + 1 else 1, 0
  {
    hide Harmless, Eval;
    match stmt
    case If(id, cond, thn, els) =>
      GateAgrees(c, id, cond, s, fuel);
      var r := Eval(c, cond, s, fuel, false);
      if r.out.Done? { RunBlockAgrees(c, if IsTrue(r.out.v) then thn else els, r.st, fuel); }
    case For(_, _, _, _) =>
      if fuel > 0 {
        IterateAgrees(c, stmt, s, fuel);
        var it := Iterate(c, stmt, s, fuel);
        if it.flow.Normal? { RunAgrees(c, stmt, it.st, fuel - 1); }
      }
    case Switch(tag, clauses, dflt) =>
      if tag.Some? { EvalAgrees(c, tag.value, s, fuel, false); }
      var r := TagOf(c, tag, s, fuel);
      if ConstantTag(tag, true) { ConstantTagReads(c, tag, s, fuel); }
      if r.out.Done? { RunClausesAgrees(c, stmt, 0, r.out.v, r.st, fuel); }
  }

  lemma {:induction false} IterateAgrees(c: Context, loop: Stmt, s: State, fuel: nat)
    requires !c.live && Harmless(c) && Tagged(loop, c.edit, true)
    requires loop.For? && Silent(c.edit, Iterate(c, loop, s, fuel).ev)
    ensures SameRun(Iterate(c, loop, s, fuel), Iterate(Live(c), loop, s, fuel))
    decreases fuel, 3, loop, 0
  {
    hide Harmless;
    if loop.test.Some? { GateAgrees(c, loop.id, loop.test.value, s, fuel); }
    var r := if loop.test.None? then Res(Done(Bool(true)), s, {}) else Eval(c, loop.test.value, s, fuel, false);
    if r.out.Done? && IsTrue(r.out.v) {
      RunBlockAgrees(c, loop.body, r.st, fuel);
      var body := RunBlock(c, loop.body, r.st, fuel);
      if (body.flow.Normal? || body.flow.Continued?) && loop.post.Some? {
        RunAgrees(c, loop.post.value, body.st, fuel);
      }
    }
  }

  lemma {:induction false} RunBlockAgrees(c: Context, body: seq<Stmt>, s: State, fuel: nat)
    requires !c.live && Harmless(c) && TaggedAll(body, c.edit, true)
    requires Silent(c.edit, RunBlock(c, body, s, fuel).ev)
    ensures SameRun(RunBlock(c, body, s, fuel), RunBlock(Live(c), body, s, fuel))
    decreases fuel, 3, body
  {
    hide Harmless;
    if body != [] {
      RunAgrees(c, body[0], s, fuel);
      var r := Run(c, body[0], s, fuel);
      if r.flow.Normal? { RunBlockAgrees(c, body[1..], r.st, fuel); }
    }
  }

  lemma {:induction false} RunClausesAgrees(c: Context, sw: Stmt, k: nat, tag: Value, s: State, fuel: nat)
    requires !c.live && Harmless(c) && Tagged(sw, c.edit, true)
    requires sw.Switch? && k <= |sw.clauses| && (ConstantTag(sw.tag, true) ==> tag == Bool(true))
    requires Silent(c.edit, RunClauses(c, sw, k, tag, s, fuel).ev)
    ensures SameRun(RunClauses(c, sw, k, tag, s, fuel), RunClauses(Live(c), sw, k, tag, s, fuel))
    decreases fuel, 3, sw, |sw.clauses| - k
  {
    hide Harmless, Eval;
    if k == |sw.clauses| {
      RunBlockAgrees(c, sw.dflt, s, fuel);
    } else {
      var clause := sw.clauses[k];
      var r := Matches(c, clause.id, clause.labels, tag, s, fuel);
      MatchesAgrees(c, clause.id, clause.labels, tag, s, fuel);
      if r.out.Done? {
        if IsTrue(r.out.v) { RunBlockAgrees(c, clause.body, r.st, fuel); }
        else { RunClausesAgrees(c, sw, k + 1, tag, r.st, fuel); }
      }
    }
  }

  lemma ComparedWithTrue(v: Value)
    ensures Compare(Bool(true), v) == (if IsTrue(v) then Equal else Unequal)
  {
  }

  lemma {:induction false} MatchesAgrees(c: Context, id: nat, labels: seq<Expr>, tag: Value, s: State, fuel: nat)
    requires !c.live && Harmless(c)
    requires Silent(c.edit, Matches(c, id, labels, tag, s, fuel).ev)
    requires c.edit.gate && id == c.edit.id ==>
               tag == Bool(true) && var r := Matches(c, id, labels, tag, s, fuel); r.out.Done? ==> !IsTrue(r.out.v)
    ensures Same(Matches(c, id, labels, tag, s, fuel), Matches(Live(c), id, labels, tag, s, fuel))
    decreases fuel, 3, labels
  {
    hide Harmless, Eval;
    if labels != [] {
      var r := Eval(c, labels[0], s, fuel, false);
      if c.edit.gate && id == c.edit.id {
        if r.out.Done? { ComparedWithTrue(r.out.v); }
      }
      GateAgrees(c, id, labels[0], s, fuel);
      var q := Eval(Live(c), GateCondition(Live(c), id, labels[0]), s, fuel, false);
      if q.out.Done? { ComparedWithTrue(q.out.v); }
      if r.out.Done? && Compare(tag, r.out.v) == Unequal { MatchesAgrees(c, id, labels[1..], tag, r.st, fuel); }
    }
  }
}
