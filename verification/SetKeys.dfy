/** The key under which a selection of tests is verified once (internal/engine/setverifier.go). Two selections share a verdict
    exactly when they name the same tests, as long as no name holds one of the three separators. */
module SetKeys {
  import Sorting

  // ----- order

  predicate Leq(a: string, b: string) {
    a == "" || (b != "" && (a[0] < b[0] || (a[0] == b[0] && Leq(a[1..], b[1..]))))
  }

  lemma {:induction false} LeqTotal(a: string, b: string)
    ensures Leq(a, b) || Leq(b, a)
    ensures Leq(a, b) && Leq(b, a) ==> a == b
  {
    if a != "" && b != "" && a[0] == b[0] {
      LeqTotal(a[1..], b[1..]);
      assert a == [a[0]] + a[1..] && b == [b[0]] + b[1..];
    }
  }

  lemma {:induction false} LeqTransitive(a: string, b: string, c: string)
    requires Leq(a, b) && Leq(b, c)
    ensures Leq(a, c)
  {
    if a != "" && a[0] == b[0] == c[0] { LeqTransitive(a[1..], b[1..], c[1..]); }
  }

  lemma LeqIsTotal()
    ensures Sorting.TotalOrder(Leq)
  {
    forall a, b ensures Leq(a, b) || Leq(b, a) { LeqTotal(a, b); }
    forall a, b, c | Leq(a, b) && Leq(b, c) ensures Leq(a, c) { LeqTransitive(a, b, c); }
  }

  function Sort(s: seq<string>): (r: seq<string>)
    ensures multiset(r) == multiset(s) && Sorted(r)
  {
    LeqIsTotal();
    Sorting.SortSorts(s, Leq);
    Sorting.Sort(s, Leq)
  }

  predicate Sorted(s: seq<string>) { Sorting.Sorted(s, Leq) }

  lemma SortedAt(s: seq<string>, i: nat)
    requires Sorted(s) && i < |s|
    ensures Leq(s[0], s[i])
  {
    if i == 0 { LeqTotal(s[0], s[0]); }
  }

  lemma TailIsSorted(s: seq<string>)
    requires Sorted(s) && s != []
    ensures Sorted(s[1..]) && multiset(s[1..]) == multiset(s) - multiset{s[0]}
  {
    hide Leq;
    assert s == [s[0]] + s[1..];
  }

  lemma SameFirst(a: seq<string>, b: seq<string>)
    requires Sorted(a) && Sorted(b) && multiset(a) == multiset(b) && a != [] && b != []
    ensures a[0] == b[0]
  {
    hide Sorted, Leq;
    assert a[0] in multiset(a) && b[0] in multiset(b);
    var i: nat :| i < |a| && a[i] == b[0];
    var j: nat :| j < |b| && b[j] == a[0];
    SortedAt(a, i);
    SortedAt(b, j);
    LeqTotal(a[0], b[0]);
  }

  /** Sorting forgets the order and nothing else. */
  lemma {:induction false} SortedUnique(a: seq<string>, b: seq<string>)
    requires Sorted(a) && Sorted(b) && multiset(a) == multiset(b)
    ensures a == b
  {
    hide Sorted, Leq;
    assert |a| == |multiset(a)| == |multiset(b)| == |b|;
    if a != [] {
      SameFirst(a, b);
      TailIsSorted(a);
      TailIsSorted(b);
      SortedUnique(a[1..], b[1..]);
      assert a == [a[0]] + a[1..] && b == [b[0]] + b[1..];
    }
  }

  // ----- the key

  const AFTER_PATH: char := 0 as char
  const AFTER_NAME: char := 1 as char
  const AFTER_SET: char := 2 as char

  type Selection = map<string, seq<string>>

  function RenderNames(names: seq<string>): string {
    if names == [] then "" else names[0] + [AFTER_NAME] + RenderNames(names[1..])
  }

  function RenderSet(path: string, names: seq<string>): string {
    path + ([AFTER_PATH] + (RenderNames(Sort(names)) + [AFTER_SET]))
  }

  function RenderSets(paths: seq<string>, tests: Selection): string
    requires forall p :: p in paths ==> p in tests
  {
    if paths == [] then "" else RenderSet(paths[0], tests[paths[0]]) + RenderSets(paths[1..], tests)
  }

  /** The import paths of a selection, in the order a map yields them. */
  predicate Lists(paths: seq<string>, tests: Selection) {
    (forall p :: p in paths ==> p in tests) && (forall p :: p in tests ==> p in paths) && forall i, j :: 0 <= i < j < |paths| ==> paths[i] != paths[j]
  }

  function KeyOf(paths: seq<string>, tests: Selection): string
    requires Lists(paths, tests)
  {
    SortMembers(paths);
    RenderSets(Sort(paths), tests)
  }

  lemma SortMembers(s: seq<string>)
    ensures forall p :: p in Sort(s) <==> p in s
  {
    forall p ensures p in Sort(s) <==> p in s { assert p in Sort(s) <==> p in multiset(Sort(s)); }
  }

  lemma {:induction false} RenderNamesLast(names: seq<string>, name: string)
    ensures RenderNames(names + [name]) == RenderNames(names) + name + [AFTER_NAME]
  {
    if names == [] {
      assert [name][1..] == [] && [] + [name] == [name];
      assert name + [AFTER_NAME] + "" == name + [AFTER_NAME] && "" + name == name;
    } else {
      assert (names + [name])[1..] == names[1..] + [name];
      RenderNamesLast(names[1..], name);
    }
  }

  lemma {:induction false} RenderSetsLast(paths: seq<string>, path: string, tests: Selection)
    requires path in tests && forall p :: p in paths ==> p in tests
    ensures forall p :: p in paths + [path] ==> p in tests
    ensures RenderSets(paths + [path], tests) == RenderSets(paths, tests) + RenderSet(path, tests[path])
  {
    hide RenderSet;
    var last := RenderSet(path, tests[path]);
    if paths == [] {
      assert [path][1..] == [] && [] + [path] == [path] && last + "" == last == "" + last;
    } else {
      var first, more := RenderSet(paths[0], tests[paths[0]]), RenderSets(paths[1..], tests);
      assert (paths + [path])[1..] == paths[1..] + [path];
      RenderSetsLast(paths[1..], path, tests);
      assert first + (more + last) == first + more + last;
    }
  }

  /** Writes one package. */
  method WriteSet(path: string, tests: seq<string>) returns (text: string)
    ensures text == RenderSet(path, tests)
  {
    hide Sort;
    var names := Sort(tests);
    text := path + [AFTER_PATH];
    assert names[..0] == [];
    for k := 0 to |names|
      invariant text == path + [AFTER_PATH] + RenderNames(names[..k])
    {
      assert names[..k + 1] == names[..k] + [names[k]];
      RenderNamesLast(names[..k], names[k]);
      text := text + names[k] + [AFTER_NAME];
    }
    assert names[..|names|] == names;
    text := text + [AFTER_SET];
  }

  method SetKey(paths: seq<string>, tests: Selection) returns (key: string)
    requires Lists(paths, tests)
    ensures key == KeyOf(paths, tests)
  {
    hide Sort, RenderSet;
    key := "";
    var sorted := Sort(paths);
    SortMembers(paths);
    for i := 0 to |sorted|
      invariant forall p :: p in sorted[..i] ==> p in tests
      invariant key == RenderSets(sorted[..i], tests)
    {
      assert sorted[i] in sorted;
      var text := WriteSet(sorted[i], tests[sorted[i]]);
      RenderSetsLast(sorted[..i], sorted[i], tests);
      assert sorted[..i + 1] == sorted[..i] + [sorted[i]];
      key := key + text;
    }
    assert sorted[..|sorted|] == sorted;
  }

  // ----- keys and tests

  /** Names without separators. */
  predicate Clean(tests: Selection) {
    && (forall p :: p in tests ==> AFTER_PATH !in p)
    && forall p, n :: p in tests && n in tests[p] ==> AFTER_NAME !in n && AFTER_SET !in n
  }

  /** The same packages, and in each the same tests as often. */
  predicate SameTests(a: Selection, b: Selection) {
    a.Keys == b.Keys && forall p :: p in a ==> multiset(a[p]) == multiset(b[p])
  }

  function At(s: string, i: int): char { if 0 <= i < |s| then s[i] else ' ' }

  lemma SplitAt(a: string, b: string, x: string, y: string, c: char)
    requires c !in a && c !in b && a + ([c] + x) == b + ([c] + y)
    ensures a == b && x == y
  {
    var l, r := a + ([c] + x), b + ([c] + y);
    assert At(l, |a|) == c && At(r, |b|) == c;
    assert |a| < |b| ==> At(r, |a|) == At(b, |a|);
    assert |b| < |a| ==> At(l, |b|) == At(a, |b|);
    assert |a| == |b|;
    assert a == l[..|a|] && b == r[..|b|];
    assert x == l[|a| + 1..] && y == r[|b| + 1..];
  }

  predicate CleanNames(names: seq<string>) { forall n :: n in names ==> AFTER_NAME !in n && AFTER_SET !in n }

  /** The names of one package can be read back, and so can what follows them. */
  lemma {:induction false} NamesBack(a: seq<string>, b: seq<string>, x: string, y: string)
    requires CleanNames(a) && CleanNames(b)
    requires RenderNames(a) + [AFTER_SET] + x == RenderNames(b) + [AFTER_SET] + y
    ensures a == b && x == y
  {
    var l, r := RenderNames(a) + [AFTER_SET] + x, RenderNames(b) + [AFTER_SET] + y;
    if a != [] { FirstIsName(a); }
    if b != [] { FirstIsName(b); }
    assert l[0] == if a == [] then AFTER_SET else RenderNames(a)[0];
    assert r[0] == if b == [] then AFTER_SET else RenderNames(b)[0];
    if a != [] && b != [] {
      var s, t := RenderNames(a[1..]) + [AFTER_SET] + x, RenderNames(b[1..]) + [AFTER_SET] + y;
      assert l == a[0] + ([AFTER_NAME] + s) && r == b[0] + ([AFTER_NAME] + t);
      SplitAt(a[0], b[0], s, t, AFTER_NAME);
      NamesBack(a[1..], b[1..], x, y);
      assert a == [a[0]] + a[1..] && b == [b[0]] + b[1..];
    } else if a == [] && b == [] {
      assert l[1..] == x && r[1..] == y;
    }
  }

  lemma FirstIsName(names: seq<string>)
    requires names != [] && CleanNames(names)
    ensures RenderNames(names) != "" && RenderNames(names)[0] != AFTER_SET
  {
    assert names[0] in names;
    if names[0] != "" { assert names[0][0] in names[0]; }
  }

  lemma SortClean(names: seq<string>)
    requires CleanNames(names)
    ensures CleanNames(Sort(names))
  {
    SortMembers(names);
  }

  /** The first package can be read back, and so can the rest. */
  lemma SetBack(p: string, q: string, m: seq<string>, n: seq<string>, x: string, y: string)
    requires AFTER_PATH !in p && AFTER_PATH !in q && CleanNames(m) && CleanNames(n)
    requires RenderSet(p, m) + x == RenderSet(q, n) + y
    ensures p == q && multiset(m) == multiset(n) && x == y
  {
    hide Sort, RenderNames;
    SortClean(m);
    SortClean(n);
    var u, v := RenderNames(Sort(m)) + [AFTER_SET] + x, RenderNames(Sort(n)) + [AFTER_SET] + y;
    assert RenderSet(p, m) + x == p + ([AFTER_PATH] + u) && RenderSet(q, n) + y == q + ([AFTER_PATH] + v);
    SplitAt(p, q, u, v, AFTER_PATH);
    NamesBack(Sort(m), Sort(n), x, y);
  }

  lemma NotEmpty(path: string, names: seq<string>, rest: string)
    ensures RenderSet(path, names) + rest != ""
  {
    assert |RenderSet(path, names)| > 0;
  }

  lemma {:induction false} SetsBack(p: seq<string>, q: seq<string>, a: Selection, b: Selection)
    requires (forall x :: x in p ==> x in a) && (forall x :: x in q ==> x in b) && Clean(a) && Clean(b)
    requires RenderSets(p, a) == RenderSets(q, b)
    ensures p == q && forall x :: x in p ==> multiset(a[x]) == multiset(b[x])
  {
    hide RenderSet;
    if p != [] { NotEmpty(p[0], a[p[0]], RenderSets(p[1..], a)); }
    if q != [] { NotEmpty(q[0], b[q[0]], RenderSets(q[1..], b)); }
    if p != [] && q != [] {
      assert p[0] in p && q[0] in q;
      SetBack(p[0], q[0], a[p[0]], b[q[0]], RenderSets(p[1..], a), RenderSets(q[1..], b));
      SetsBack(p[1..], q[1..], a, b);
      assert p == [p[0]] + p[1..] && q == [q[0]] + q[1..];
    }
  }

  lemma {:induction false} SameSetsRender(p: seq<string>, a: Selection, b: Selection)
    requires (forall x :: x in p ==> x in a && x in b) && forall x :: x in p ==> multiset(a[x]) == multiset(b[x])
    ensures RenderSets(p, a) == RenderSets(p, b)
  {
    hide Sort, RenderNames;
    if p != [] {
      assert p[0] in p;
      SortedUnique(Sort(a[p[0]]), Sort(b[p[0]]));
      SameSetsRender(p[1..], a, b);
    }
  }

  /** Two selections have one key, and so one verdict, exactly when they name the same tests. */
  lemma KeyExact(p: seq<string>, q: seq<string>, a: Selection, b: Selection)
    requires Lists(p, a) && Lists(q, b) && Clean(a) && Clean(b)
    ensures KeyOf(p, a) == KeyOf(q, b) <==> SameTests(a, b)
  {
    hide Sort, RenderSets, Clean;
    SortMembers(p);
    SortMembers(q);
    if KeyOf(p, a) == KeyOf(q, b) {
      SetsBack(Sort(p), Sort(q), a, b);
      forall x ensures x in a <==> x in b { assert x in p <==> x in Sort(p); assert x in q <==> x in Sort(q); }
    }
    if SameTests(a, b) {
      SameMembers(p, q);
      SortedUnique(Sort(p), Sort(q));
      SameSetsRender(Sort(p), a, b);
    }
  }

  lemma {:induction false} SameMembers(p: seq<string>, q: seq<string>)
    requires (forall i, j :: 0 <= i < j < |p| ==> p[i] != p[j]) && (forall i, j :: 0 <= i < j < |q| ==> q[i] != q[j])
    requires forall x :: x in p <==> x in q
    ensures multiset(p) == multiset(q)
  {
    OncePer(p);
    OncePer(q);
    forall x ensures multiset(p)[x] == multiset(q)[x] { assert x in p <==> x in q; }
  }

  lemma {:induction false} OncePer(p: seq<string>)
    requires forall i, j :: 0 <= i < j < |p| ==> p[i] != p[j]
    ensures forall x :: multiset(p)[x] == if x in p then 1 else 0
  {
    if p != [] {
      var n := |p| - 1;
      OncePer(p[..n]);
      assert p == p[..n] + [p[n]];
    }
  }

  /** A name that `go test -list` can report: it begins with `Test` and holds no white space. */
  const WHOLE: string := "TestA" + [AFTER_NAME] + "TestB"

  /** With a separator in a name, one test and two tests share a key. */
  lemma SeparatorsCollide()
    ensures var a: Selection, b: Selection := map["p" := [WHOLE]], map["p" := ["TestA", "TestB"]];
            !SameTests(a, b) && KeyOf(["p"], a) == KeyOf(["p"], b)
  {
    var a: Selection, b: Selection := map["p" := [WHOLE]], map["p" := ["TestA", "TestB"]];
    assert |multiset(a["p"])| == 1 && |multiset(b["p"])| == 2;
    SortedUnique(Sort(["p"]), ["p"]);
    SortedUnique(Sort([WHOLE]), [WHOLE]);
    SortedUnique(Sort(["TestA", "TestB"]), ["TestA", "TestB"]);
    OneSet("p", a);
    OneSet("p", b);
    CollidingNames();
  }

  lemma OneSet(path: string, tests: Selection)
    requires path in tests
    ensures RenderSets([path], tests) == RenderSet(path, tests[path])
  {
    assert [path][1..] == [] && RenderSets([], tests) == "";
  }

  lemma CollidingNames()
    ensures RenderNames([WHOLE]) == RenderNames(["TestA", "TestB"])
  {
    assert [WHOLE][1..] == [] && ["TestA", "TestB"][1..] == ["TestB"] && ["TestB"][1..] == [];
    assert RenderNames([]) == "" && RenderNames(["TestB"]) == "TestB" + [AFTER_NAME];
  }

  // ----- the verifier

  datatype Wanted = Wanted(tests: Selection, known: bool)

  function CountTests(paths: seq<string>, tests: Selection): nat
    requires forall p :: p in paths ==> p in tests
  {
    if paths == [] then 0 else |tests[paths[0]]| + CountTests(paths[1..], tests)
  }

  /** One test in all. */
  lemma {:induction false} OneTest(paths: seq<string>, tests: Selection)
    requires (forall p :: p in paths ==> p in tests) && forall i, j :: 0 <= i < j < |paths| ==> paths[i] != paths[j]
    ensures CountTests(paths, tests) == 0 <==> forall p :: p in paths ==> tests[p] == []
    ensures CountTests(paths, tests) == 1
            <==> exists p :: p in paths && |tests[p]| == 1 && forall q :: q in paths && q != p ==> tests[q] == []
  {
    if paths != [] {
      var first, rest := paths[0], paths[1..];
      OneTest(rest, tests);
      assert first !in rest;
      assert forall p :: p in paths <==> p == first || p in rest;
    }
  }

  class SetVerifier {
    var sets: map<string, Wanted>

    constructor ()
      ensures sets == map[]
    {
      sets := map[];
    }

    /** The first selection of a key stands for all; a single test without arguments is known to pass. */
    method Want(paths: seq<string>, tests: Selection, plain: bool)
      requires Lists(paths, tests)
      modifies this
      ensures var key := KeyOf(paths, tests);
              sets == if key in old(sets) then old(sets)
                      else old(sets)[key := Wanted(tests, plain && CountTests(paths, tests) == 1)]
    {
      var key := SetKey(paths, tests);
      if key in sets { return; }
      sets := sets[key := Wanted(tests, plain && CountTests(paths, tests) == 1)];
    }

    /** A set is reliable when it is known to be, or when its control passed. */
    method Run(passes: Selection -> bool) returns (reliable: set<string>)
      ensures reliable == set key | key in sets && (sets[key].known || passes(sets[key].tests))
    {
      reliable := {};
      var left := sets.Keys;
      while left != {}
        invariant left <= sets.Keys
        invariant reliable == set key | key in sets.Keys - left && (sets[key].known || passes(sets[key].tests))
        decreases |left|
      {
        var key :| key in left;
        if sets[key].known || passes(sets[key].tests) { reliable := reliable + {key}; }
        left := left - {key};
      }
    }
  }

  /** The verdict on a selection; an empty one needs none. */
  predicate Ok(reliable: set<string>, paths: seq<string>, tests: Selection)
    requires Lists(paths, tests)
  {
    tests == map[] || KeyOf(paths, tests) in reliable
  }

  // ----- every selection gets the verdict of a control over its own tests

  /** A selection that is to be verified; `plain` says that its tests run without arguments. */
  datatype Wish = Wish(paths: seq<string>, tests: Selection, plain: bool)
  {
    ghost predicate Proper() { Lists(paths, tests) && Clean(tests) }
  }

  ghost predicate AllProper(ws: seq<Wish>) { forall i :: 0 <= i < |ws| ==> ws[i].Proper() }

  /** The table after all of them were asked for. */
  ghost function Wants(ws: seq<Wish>): map<string, Wanted>
    requires AllProper(ws)
  {
    if ws == [] then map[]
    else
      var n := |ws| - 1;
      var key := KeyOf(ws[n].paths, ws[n].tests);
      if key in Wants(ws[..n]) then Wants(ws[..n])
      else Wants(ws[..n])[key := Wanted(ws[n].tests, ws[n].plain && CountTests(ws[n].paths, ws[n].tests) == 1)]
  }

  /** The first selection of the same tests. */
  ghost predicate FirstAlike(ws: seq<Wish>, j: nat, i: nat) {
    j <= i < |ws| && SameTests(ws[j].tests, ws[i].tests) && forall k :: 0 <= k < j ==> !SameTests(ws[k].tests, ws[i].tests)
  }

  lemma {:induction false} WantedIsFirst(ws: seq<Wish>, n: nat, i: nat) returns (j: nat)
    requires AllProper(ws) && i < n <= |ws|
    ensures FirstAlike(ws, j, i)
    ensures var key := KeyOf(ws[i].paths, ws[i].tests);
            && key in Wants(ws[..n])
            && Wants(ws[..n])[key] == Wanted(ws[j].tests, ws[j].plain && CountTests(ws[j].paths, ws[j].tests) == 1)
    decreases n
  {
    hide KeyOf, CountTests, Clean, Lists, SameTests;
    var m := n - 1;
    assert ws[..n][..m] == ws[..m] && ws[..n][m] == ws[m];
    var key := KeyOf(ws[i].paths, ws[i].tests);
    if i < m {
      j := WantedIsFirst(ws, m, i);
    } else if k: nat :| k < i && SameTests(ws[k].tests, ws[i].tests) {
      KeyExact(ws[k].paths, ws[i].paths, ws[k].tests, ws[i].tests);
      j := WantedIsFirst(ws, m, k);
      forall l | 0 <= l < |ws| ensures SameTests(ws[l].tests, ws[k].tests) <==> SameTests(ws[l].tests, ws[i].tests) {
        Equivalent(ws[l].tests, ws[k].tests, ws[i].tests);
      }
    } else {
      j := i;
      Equivalent(ws[i].tests, ws[i].tests, ws[i].tests);
      NotWantedYet(ws, i);
    }
  }

  lemma Equivalent(a: Selection, b: Selection, c: Selection)
    ensures SameTests(a, a) && (SameTests(b, c) ==> (SameTests(a, b) <==> SameTests(a, c)))
  {
  }

  lemma {:induction false} NotWantedYet(ws: seq<Wish>, i: nat)
    requires AllProper(ws) && i < |ws|
    requires forall k :: 0 <= k < i ==> !SameTests(ws[k].tests, ws[i].tests)
    ensures KeyOf(ws[i].paths, ws[i].tests) !in Wants(ws[..i])
  {
    hide KeyOf, CountTests, Clean, Lists, SameTests;
    var n: nat := 0;
    assert ws[..0] == [];
    while n < i
      invariant n <= i && KeyOf(ws[i].paths, ws[i].tests) !in Wants(ws[..n])
    {
      assert ws[..n + 1][..n] == ws[..n] && ws[..n + 1][n] == ws[n];
      KeyExact(ws[n].paths, ws[i].paths, ws[n].tests, ws[i].tests);
      n := n + 1;
    }
  }

  /** Main result. However many selections are asked for, each gets the verdict of one control, that of the first selection of the
      very same tests: it passed, or it was a single test without arguments, or there was nothing to run. */
  lemma VerdictIsItsControl(ws: seq<Wish>, passes: Selection -> bool, reliable: set<string>, i: nat) returns (j: nat)
    requires AllProper(ws) && i < |ws|
    requires reliable == set key | key in Wants(ws) && (Wants(ws)[key].known || passes(Wants(ws)[key].tests))
    ensures FirstAlike(ws, j, i)
    ensures Ok(reliable, ws[i].paths, ws[i].tests)
            <==> ws[i].tests == map[] || passes(ws[j].tests) || (ws[j].plain && CountTests(ws[j].paths, ws[j].tests) == 1)
  {
    hide KeyOf, CountTests, Clean, FirstAlike;
    assert ws[..|ws|] == ws;
    j := WantedIsFirst(ws, |ws|, i);
  }

  lemma VerdictIsShared(reliable: set<string>, p: seq<string>, q: seq<string>, a: Selection, b: Selection)
    requires Lists(p, a) && Lists(q, b) && Clean(a) && Clean(b) && SameTests(a, b)
    ensures Ok(reliable, p, a) == Ok(reliable, q, b)
  {
    KeyExact(p, q, a, b);
    assert a == map[] <==> a.Keys == {};
    assert b == map[] <==> b.Keys == {};
  }
}
