/** Test-level narrowing (internal/engine/testcoverage.go): per mutant, which binaries run, and which of their tests. */
module Narrowing {
  import opened Coverage
  import opened Wrappers

  /** A scheduled mutant. Without `binaries` every binary runs; a binary without an entry in `tests` runs whole. */
  datatype Run = Run(id: string, binaries: Option<seq<nat>>, tests: map<string, seq<string>>)

  /** What profiling one test on its own gave. */
  datatype TestData = TestData(importPath: string, name: string, passed: bool, profile: Profile)

  datatype Plan = Plan(tests: map<string, seq<string>>, binaries: seq<string>)

  // ----- what a run executes

  predicate Selects(run: Run, bins: seq<string>, path: string) {
    if run.binaries.None? then path in bins
    else exists i :: i in run.binaries.value && i < |bins| && bins[i] == path
  }

  predicate RunsWhole(run: Run, bins: seq<string>, path: string) { Selects(run, bins, path) && path !in run.tests }

  /** The test runs by name, or inside a binary that runs whole. */
  predicate RunsTest(run: Run, bins: seq<string>, t: TestKey) {
    Selects(run, bins, t.importPath) && (t.importPath in run.tests ==> t.name in run.tests[t.importPath])
  }

  // ----- which binaries can be narrowed

  predicate Dirty(collected: seq<TestData>, path: string) { exists d :: d in collected && !d.passed && d.importPath == path }

  predicate Profiled(collected: seq<TestData>, path: string) { exists d :: d in collected && d.importPath == path }

  predicate Whole(bins: seq<string>, collected: seq<TestData>, path: string) {
    path in bins && (Dirty(collected, path) || !Profiled(collected, path))
  }

  /** A binary with a test that fails on its own, or without profiled tests, runs whole. */
  method WholeBinaries(bins: seq<string>, collected: seq<TestData>) returns (whole: set<string>)
    ensures forall path :: path in whole <==> Whole(bins, collected, path)
    ensures forall path :: path in bins ==>
              (path !in whole <==> (exists d :: d in collected && d.importPath == path)
                                   && forall d :: d in collected && d.importPath == path ==> d.passed)
  {
    var dirty, profiled: set<string> := {}, {};
    for k := 0 to |collected|
      invariant forall path :: path in dirty <==> Dirty(collected[..k], path)
      invariant forall path :: path in profiled <==> Profiled(collected[..k], path)
    {
      var d := collected[k];
      assert collected[..k + 1] == collected[..k] + [d];
      profiled := profiled + {d.importPath};
      if !d.passed { dirty := dirty + {d.importPath}; }
    }
    assert collected[..|collected|] == collected;
    whole := {};
    for k := 0 to |bins|
      invariant forall path :: path in whole <==> path in bins[..k] && (path in dirty || path !in profiled)
    {
      assert bins[..k + 1] == bins[..k] + [bins[k]];
      if bins[k] in dirty || bins[k] !in profiled { whole := whole + {bins[k]}; }
    }
    assert bins[..|bins|] == bins;
  }

  /** A test that may be selected by name: it passed on its own, in a binary that is not run whole. */
  predicate Narrowable(bins: seq<string>, collected: seq<TestData>, d: TestData) {
    d in collected && d.passed && !Whole(bins, collected, d.importPath)
  }

  method TestProfiles(bins: seq<string>, collected: seq<TestData>, whole: set<string>) returns (profiles: map<TestKey, Profile>)
    requires forall path :: path in whole <==> Whole(bins, collected, path)
    requires forall i, j :: 0 <= i < j < |collected| ==>
               collected[i].importPath != collected[j].importPath || collected[i].name != collected[j].name
    ensures forall d :: Narrowable(bins, collected, d) ==>
              TestKey(d.importPath, d.name) in profiles && profiles[TestKey(d.importPath, d.name)] == d.profile
    ensures forall t :: t in profiles ==>
              exists d :: Narrowable(bins, collected, d) && t == TestKey(d.importPath, d.name) && profiles[t] == d.profile
  {
    profiles := map[];
    for k := 0 to |collected|
      invariant forall i :: 0 <= i < k && Narrowable(bins, collected, collected[i]) ==>
                  TestKey(collected[i].importPath, collected[i].name) in profiles
                  && profiles[TestKey(collected[i].importPath, collected[i].name)] == collected[i].profile
      invariant forall t :: t in profiles ==>
                  exists d :: Narrowable(bins, collected, d) && t == TestKey(d.importPath, d.name) && profiles[t] == d.profile
    {
      var d := collected[k];
      if d.passed && d.importPath !in whole {
        assert Narrowable(bins, collected, d);
        profiles := profiles[TestKey(d.importPath, d.name) := d.profile];
      }
    }
  }

  // ----- plans

  /** The plan groups the covering tests by binary. */
  predicate Plans(p: Plan, tests: seq<TestKey>, binaries: seq<string>) {
    && p.binaries == binaries
    && (forall t :: t in tests ==> t.importPath in p.tests && t.name in p.tests[t.importPath])
    && (forall path :: path in p.tests ==> p.tests[path] != [] && forall n :: n in p.tests[path] ==> TestKey(path, n) in tests)
  }

  method NarrowingPlan(tests: seq<TestKey>, binaries: seq<string>) returns (p: Plan)
    ensures Plans(p, tests, binaries)
  {
    var grouped: map<string, seq<string>> := map[];
    for k := 0 to |tests|
      invariant Plans(Plan(grouped, binaries), tests[..k], binaries)
    {
      var t := tests[k];
      assert tests[..k + 1] == tests[..k] + [t];
      grouped := grouped[t.importPath := (if t.importPath in grouped then grouped[t.importPath] else []) + [t.name]];
    }
    assert tests[..|tests|] == tests;
    p := Plan(grouped, binaries);
  }

  function Covering(p: Plan): set<string> { p.tests.Keys + set b | b in p.binaries }

  method CoveringBinaries(p: Plan) returns (paths: seq<string>)
    ensures forall path :: path in paths <==> path in Covering(p)
    ensures paths == [] <==> Covering(p) == {}
  {
    paths := [];
    var left := p.tests.Keys;
    while left != {}
      invariant left <= p.tests.Keys
      invariant forall path :: path in paths <==> path in p.tests.Keys - left
      decreases |left|
    {
      var path :| path in left;
      paths := paths + [path];
      left := left - {path};
    }
    for k := 0 to |p.binaries|
      invariant forall path :: path in paths <==> path in p.tests.Keys || path in p.binaries[..k]
    {
      assert p.binaries[..k + 1] == p.binaries[..k] + [p.binaries[k]];
      if p.binaries[k] !in paths { paths := paths + [p.binaries[k]]; }
    }
    assert p.binaries[..|p.binaries|] == p.binaries;
    if paths != [] { assert paths[0] in Covering(p); }
  }

  /** The index of a binary, the last one if its path is not unique. */
  method BinaryIndex(bins: seq<string>) returns (index: map<string, nat>)
    ensures forall path :: path in index <==> path in bins
    ensures forall path :: path in index ==> index[path] < |bins| && bins[index[path]] == path
  {
    index := map[];
    for i := 0 to |bins|
      invariant forall path :: path in index <==> path in bins[..i]
      invariant forall path :: path in index ==> index[path] < i && bins[index[path]] == path
    {
      assert bins[..i + 1] == bins[..i] + [bins[i]];
      index := index[bins[i] := i];
    }
    assert bins[..|bins|] == bins;
  }

  /** Paths that are not binaries drop out, and nothing left means every binary. */
  method IndicesOf(covering: seq<string>, index: map<string, nat>) returns (indices: Option<seq<nat>>)
    ensures indices.Some? ==> forall i :: i in indices.value <==> exists p :: p in covering && p in index && index[p] == i
    ensures indices.None? <==> forall p :: p in covering ==> p !in index
  {
    var found: seq<nat> := [];
    for k := 0 to |covering|
      invariant forall i :: i in found <==> exists p :: p in covering[..k] && p in index && index[p] == i
      invariant found == [] <==> forall p :: p in covering[..k] ==> p !in index
    {
      assert covering[..k + 1] == covering[..k] + [covering[k]];
      if covering[k] in index { found := found + [index[covering[k]]]; }
    }
    assert covering[..|covering|] == covering;
    indices := if found == [] then None else Some(found);
  }

  // ----- the decision

  /** What the plan turns a run into: `asked` says that the mutant has a place in the source, `reliable` that the selected
      tests pass together. */
  predicate Decides(run: Run, decided: Run, asked: bool, p: Plan, reliable: bool, bins: seq<string>) {
    && decided.id == run.id
    && if !asked then decided == run
       else
         && Covering(p) != {}
         && decided.tests == (if reliable then p.tests else map[])
         && (decided.binaries.None? <==> forall path :: path in Covering(p) ==> path !in bins)
         && (forall path :: path in Covering(p) && path in bins ==> Selects(decided, bins, path))
         && (decided.binaries.Some? ==> forall i :: i in decided.binaries.value ==> i < |bins| && bins[i] in Covering(p))
  }

  predicate Drops(asked: bool, p: Plan) { asked && Covering(p) == {} }

  method DecideRun(run: Run, asked: bool, p: Plan, reliable: bool, index: map<string, nat>, ghost bins: seq<string>)
    returns (decided: Option<Run>)
    requires forall path :: path in index <==> path in bins
    requires forall path :: path in index ==> index[path] < |bins| && bins[index[path]] == path
    ensures decided.None? <==> Drops(asked, p)
    ensures decided.Some? ==> Decides(run, decided.value, asked, p, reliable || p.tests == map[], bins)
  {
    var usable := p.tests;
    if p.tests != map[] && !reliable { usable := map[]; }
    var paths := CoveringBinaries(p);
    if !asked { return Some(run); }
    if paths == [] { return None; }
    var indices := IndicesOf(paths, index);
    decided := Some(run.(binaries := indices, tests := usable));
    assert forall path :: path in Covering(p) <==> path in paths;
    if indices.Some? {
      forall i | i in indices.value ensures i < |bins| && bins[i] in Covering(p) {
        var path :| path in paths && path in index && index[path] == i;
      }
    }
    forall path | path in Covering(p) && path in bins ensures Selects(decided.value, bins, path) {
      assert path in paths && index[path] in indices.value;
    }
  }

  function Ids(runs: seq<Run>): multiset<string> {
    if runs == [] then multiset{} else Ids(runs[..|runs| - 1]) + multiset{runs[|runs| - 1].id}
  }

  function IdSet(runs: seq<Run>): set<string> { set r | r in runs :: r.id }

  lemma {:induction false} IdsMembers(runs: seq<Run>)
    ensures forall id :: id in Ids(runs) <==> id in IdSet(runs)
    decreases |runs|
  {
    if runs != [] {
      IdsMembers(runs[..|runs| - 1]);
      assert runs == runs[..|runs| - 1] + [runs[|runs| - 1]];
    }
  }

  /** `c` is the decision about `r`. */
  predicate DecidedFrom(r: Run, c: Run, asked: set<string>, plans: map<string, Plan>, reliable: Plan -> bool, bins: seq<string>)
    requires r.id in plans
  {
    var p := plans[r.id];
    !Drops(r.id in asked, p) && Decides(r, c, r.id in asked, p, reliable(p) || p.tests == map[], bins)
  }

  ghost predicate Answered(r: Run, covered: seq<Run>, asked: set<string>, plans: map<string, Plan>, reliable: Plan -> bool,
                           bins: seq<string>)
    requires r.id in plans
  {
    exists c :: c in covered && DecidedFrom(r, c, asked, plans, reliable, bins)
  }

  ghost predicate Comes(c: Run, runs: seq<Run>, asked: set<string>, plans: map<string, Plan>, reliable: Plan -> bool,
                        bins: seq<string>)
    requires forall r :: r in runs ==> r.id in plans
  {
    exists r :: r in runs && DecidedFrom(r, c, asked, plans, reliable, bins)
  }

  /** The runs so far are decided or dropped. */
  ghost predicate Partitioned(runs: seq<Run>, k: nat, covered: seq<Run>, uncovered: seq<string>, asked: set<string>,
                              plans: map<string, Plan>, reliable: Plan -> bool, bins: seq<string>)
    requires k <= |runs| && forall r :: r in runs ==> r.id in plans
  {
    && Ids(runs[..k]) == Ids(covered) + multiset(uncovered)
    && (forall c :: c in covered ==> Comes(c, runs, asked, plans, reliable, bins))
    && (forall i :: 0 <= i < k && !Drops(runs[i].id in asked, plans[runs[i].id]) ==>
          Answered(runs[i], covered, asked, plans, reliable, bins))
    && (forall id :: id in uncovered ==> exists r :: r in runs && r.id == id && Drops(id in asked, plans[id]))
  }

  lemma PartitionedNext(runs: seq<Run>, k: nat, covered: seq<Run>, uncovered: seq<string>, asked: set<string>,
                        plans: map<string, Plan>, reliable: Plan -> bool, bins: seq<string>, decided: Option<Run>)
    requires k < |runs| && forall r :: r in runs ==> r.id in plans
    requires Partitioned(runs, k, covered, uncovered, asked, plans, reliable, bins)
    requires decided.None? <==> Drops(runs[k].id in asked, plans[runs[k].id])
    requires decided.Some? ==> DecidedFrom(runs[k], decided.value, asked, plans, reliable, bins) && decided.value.id == runs[k].id
    ensures if decided.None? then Partitioned(runs, k + 1, covered, uncovered + [runs[k].id], asked, plans, reliable, bins)
            else Partitioned(runs, k + 1, covered + [decided.value], uncovered, asked, plans, reliable, bins)
  {
    hide Drops, DecidedFrom, Partitioned;
    if decided.Some? {
      PartitionedKept(runs, k, covered, uncovered, asked, plans, reliable, bins, decided.value);
    } else {
      PartitionedDropped(runs, k, covered, uncovered, asked, plans, reliable, bins);
    }
  }

  lemma PartitionedKept(runs: seq<Run>, k: nat, covered: seq<Run>, uncovered: seq<string>, asked: set<string>,
                        plans: map<string, Plan>, reliable: Plan -> bool, bins: seq<string>, decided: Run)
    requires k < |runs| && forall r :: r in runs ==> r.id in plans
    requires Partitioned(runs, k, covered, uncovered, asked, plans, reliable, bins)
    requires DecidedFrom(runs[k], decided, asked, plans, reliable, bins) && decided.id == runs[k].id
    ensures Partitioned(runs, k + 1, covered + [decided], uncovered, asked, plans, reliable, bins)
  {
    hide Drops, DecidedFrom, Comes, Answered;
    var after := covered + [decided];
    assert runs[k] in runs && runs[..k + 1][..k] == runs[..k] && after[..|after| - 1] == covered;
    ComesFrom(runs, k, asked, plans, reliable, bins, decided);
    forall i | 0 <= i < k + 1 && !Drops(runs[i].id in asked, plans[runs[i].id])
      ensures Answered(runs[i], after, asked, plans, reliable, bins)
    {
      AnsweredStill(runs[i], covered, asked, plans, reliable, bins, decided);
    }
  }

  lemma AnsweredStill(r: Run, covered: seq<Run>, asked: set<string>, plans: map<string, Plan>, reliable: Plan -> bool,
                      bins: seq<string>, decided: Run)
    requires r.id in plans
    requires Answered(r, covered, asked, plans, reliable, bins) || DecidedFrom(r, decided, asked, plans, reliable, bins)
    ensures Answered(r, covered + [decided], asked, plans, reliable, bins)
  {
    hide DecidedFrom;
    if DecidedFrom(r, decided, asked, plans, reliable, bins) {
      assert decided in covered + [decided];
    } else {
      var c :| c in covered && DecidedFrom(r, c, asked, plans, reliable, bins);
      assert c in covered + [decided];
    }
  }

  lemma ComesFrom(runs: seq<Run>, k: nat, asked: set<string>, plans: map<string, Plan>, reliable: Plan -> bool,
                  bins: seq<string>, decided: Run)
    requires k < |runs| && (forall r :: r in runs ==> r.id in plans)
    requires DecidedFrom(runs[k], decided, asked, plans, reliable, bins)
    ensures Comes(decided, runs, asked, plans, reliable, bins)
  {
    hide DecidedFrom;
    assert runs[k] in runs;
  }

  lemma PartitionedDropped(runs: seq<Run>, k: nat, covered: seq<Run>, uncovered: seq<string>, asked: set<string>,
                           plans: map<string, Plan>, reliable: Plan -> bool, bins: seq<string>)
    requires k < |runs| && forall r :: r in runs ==> r.id in plans
    requires Partitioned(runs, k, covered, uncovered, asked, plans, reliable, bins)
    requires Drops(runs[k].id in asked, plans[runs[k].id])
    ensures Partitioned(runs, k + 1, covered, uncovered + [runs[k].id], asked, plans, reliable, bins)
  {
    hide Drops, Comes, Answered;
    assert runs[k] in runs && runs[..k + 1][..k] == runs[..k];
  }

  /** Every run is decided or dropped, none is lost and none is added. */
  method DecideRuns(bins: seq<string>, runs: seq<Run>, asked: set<string>, plans: map<string, Plan>, reliable: Plan -> bool)
    returns (covered: seq<Run>, uncovered: seq<string>)
    requires forall r :: r in runs ==> r.id in plans
    ensures Partitioned(runs, |runs|, covered, uncovered, asked, plans, reliable, bins)
  {
    var index := BinaryIndex(bins);
    covered, uncovered := [], [];
    assert runs[..0] == [];
    for k := 0 to |runs|
      invariant Partitioned(runs, k, covered, uncovered, asked, plans, reliable, bins)
    {
      hide Partitioned;
      var run := runs[k];
      var decided := DecideRun(run, run.id in asked, plans[run.id], reliable(plans[run.id]), index, bins);
      PartitionedNext(runs, k, covered, uncovered, asked, plans, reliable, bins, decided);
      if decided.None? { uncovered := uncovered + [run.id]; } else { covered := covered + [decided.value]; }
    }
  }

  // ----- main result

  /** What the plan of a mutant is made from: the narrowable tests and the whole binaries whose blocks touch it. */
  ghost predicate PlanOf(p: Plan, m: Mutant, runModule: string, tests: map<TestKey, Profile>, whole: map<string, Profile>) {
    && (forall t :: t in tests && CoversMutant(tests[t], runModule, m) ==> t.importPath in p.tests && t.name in p.tests[t.importPath])
    && (forall path, n :: path in p.tests && n in p.tests[path] ==> TestKey(path, n) in tests && CoversMutant(tests[TestKey(path, n)], runModule, m))
    && (forall path :: path in p.tests ==> p.tests[path] != [])
    && (forall path :: path in p.binaries <==> path in whole && CoversMutant(whole[path], runModule, m))
  }

  /** Narrowing never drops a covering test. Whatever the verdict on the selected tests, the decided run executes every
      narrowable test that touches the mutant, by name or inside a binary that runs whole, and runs whole every
      whole binary that touches it. A mutant is dropped exactly when nothing touches it. */
  lemma CoveringTestsRun(bins: seq<string>, run: Run, decided: Run, p: Plan, reliable: bool, m: Mutant, runModule: string,
                         tests: map<TestKey, Profile>, whole: map<string, Profile>)
    requires PlanOf(p, m, runModule, tests, whole)
    requires forall t :: t in tests ==> t.importPath in bins && t.importPath !in whole
    requires forall path :: path in whole ==> path in bins
    ensures Drops(true, p)
            <==> (forall t :: t in tests ==> !CoversMutant(tests[t], runModule, m))
                 && (forall path :: path in whole ==> !CoversMutant(whole[path], runModule, m))
    ensures Decides(run, decided, true, p, reliable, bins) ==>
              && (forall t :: t in tests && CoversMutant(tests[t], runModule, m) ==> RunsTest(decided, bins, t))
              && (forall path :: path in whole && CoversMutant(whole[path], runModule, m) ==> RunsWhole(decided, bins, path))
              && (forall path :: path in decided.tests ==> forall n :: n in decided.tests[path] ==>
                    TestKey(path, n) in tests && CoversMutant(tests[TestKey(path, n)], runModule, m))
  {
    hide CoversMutant, Selects;
    forall t | t in tests && CoversMutant(tests[t], runModule, m) ensures t.importPath in Covering(p) {}
    forall path | path in p.tests ensures path !in whole { assert TestKey(path, p.tests[path][0]) in tests; }
    forall path | path in whole && CoversMutant(whole[path], runModule, m) ensures path in Covering(p) {}
    forall path | path in Covering(p)
      ensures (exists t :: t in tests && CoversMutant(tests[t], runModule, m))
              || (path in whole && CoversMutant(whole[path], runModule, m))
    {
      if path in p.tests { assert TestKey(path, p.tests[path][0]) in tests; }
    }
  }

  /** The plan built from the two coverage maps is the plan of the mutant. */
  lemma PlanIsExact(p: Plan, m: Mutant, runModule: string, keys: seq<TestKey>, tests: map<TestKey, Profile>,
                    paths: seq<TestKey>, wholes: map<TestKey, Profile>, whole: map<string, Profile>, binaries: seq<string>)
    requires (forall t :: t in keys <==> t in tests) && (forall t :: t in paths <==> t in wholes)
    requires forall path :: path in whole <==> TestKey(path, "") in wholes
    requires forall path :: path in whole ==> wholes[TestKey(path, "")] == whole[path]
    requires forall path :: path in binaries <==> TestKey(path, "") in Naive(paths, wholes, runModule, m)
    requires Plans(p, Naive(keys, tests, runModule, m), binaries)
    ensures PlanOf(p, m, runModule, tests, whole)
  {
    hide CoversMutant, Naive;
    forall t ensures t in Naive(keys, tests, runModule, m) <==> t in tests && CoversMutant(tests[t], runModule, m) {
      NaiveIsExact(keys, tests, runModule, m, t);
    }
    forall path ensures path in p.binaries <==> path in whole && CoversMutant(whole[path], runModule, m) {
      NaiveIsExact(paths, wholes, runModule, m, TestKey(path, ""));
    }
  }

  // ----- all of it together

  predicate Lists(keys: seq<TestKey>, tests: map<TestKey, Profile>) {
    (forall t :: t in keys ==> t in tests) && forall t :: t in tests ==> t in keys
  }

  method Enumerate(tests: map<TestKey, Profile>) returns (list: seq<TestKey>)
    ensures Lists(list, tests)
  {
    list := [];
    var left := tests.Keys;
    while left != {}
      invariant left <= tests.Keys && forall t :: t in list <==> t in tests.Keys - left
      decreases |left|
    {
      var t :| t in left;
      list := list + [t];
      left := left - {t};
    }
  }

  method Paths(keys: seq<TestKey>) returns (paths: seq<string>)
    requires forall t :: t in keys ==> t.name == ""
    ensures forall path :: path in paths <==> TestKey(path, "") in keys
  {
    paths := [];
    for k := 0 to |keys|
      invariant forall path :: path in paths <==> TestKey(path, "") in keys[..k]
    {
      assert keys[..k + 1] == keys[..k] + [keys[k]];
      assert keys[k] in keys;
      paths := paths + [keys[k].importPath];
    }
    assert keys[..|keys|] == keys;
  }

  /** The mutants that have a place in the source, with the runs they belong to. */
  method CoverageMutants(runs: seq<Run>, place: map<string, Mutant>) returns (decided: seq<Mutant>, ids: seq<string>)
    ensures |ids| == |decided| && forall i :: 0 <= i < |ids| ==> ids[i] in place && decided[i] == place[ids[i]]
    ensures forall r :: r in runs && r.id in place ==> r.id in ids
    ensures forall m :: m in decided <==> exists r :: r in runs && r.id in place && place[r.id] == m
  {
    decided, ids := [], [];
    for k := 0 to |runs|
      invariant |ids| == |decided| && forall i :: 0 <= i < |ids| ==> ids[i] in place && decided[i] == place[ids[i]]
      invariant forall i :: 0 <= i < k && runs[i].id in place ==> runs[i].id in ids
      invariant forall m :: m in decided <==> exists i :: 0 <= i < k && runs[i].id in place && place[runs[i].id] == m
    {
      if runs[k].id in place { decided, ids := decided + [place[runs[k].id]], ids + [runs[k].id]; }
    }
  }

  method EmptyPlans(runs: seq<Run>) returns (plans: map<string, Plan>)
    ensures forall r :: r in runs ==> r.id in plans
  {
    plans := map[];
    for k := 0 to |runs|
      invariant forall i :: 0 <= i < k ==> runs[i].id in plans
    {
      plans := plans[runs[k].id := Plan(map[], [])];
    }
  }

  /** A module that is measured: that of the run, or one of a placed mutant. */
  ghost predicate MeasuredModule(m: string, runs: seq<Run>, place: map<string, Mutant>, runModule: string) {
    m != "" && (m == runModule || exists r :: r in runs && r.id in place && place[r.id].modulePath == m)
  }

  /** The profile names a file of a measured module; when no module is known every file counts. */
  ghost predicate NamesOurs(profile: Profile, runs: seq<Run>, place: map<string, Mutant>, runModule: string) {
    exists b :: b in profile && b.file != ""
                && ((forall m :: !MeasuredModule(m, runs, place, runModule))
                    || exists m :: MeasuredModule(m, runs, place, runModule) && m + "/" <= b.file)
  }

  ghost predicate Keyed(wholes: map<TestKey, Profile>, whole: map<string, Profile>) {
    wholes == map path | path in whole :: TestKey(path, "") := whole[path]
  }

  function KeyedBy(whole: map<string, Profile>): (wholes: map<TestKey, Profile>)
    ensures Keyed(wholes, whole)
  {
    map path | path in whole :: TestKey(path, "") := whole[path]
  }

  /** Both mappings: of the tests, and of the whole binaries. */
  method MapBoth(ghost runs: seq<Run>, ghost place: map<string, Mutant>, decided: seq<Mutant>, keys: seq<TestKey>,
                 tests: map<TestKey, Profile>, paths: seq<TestKey>, wholes: map<TestKey, Profile>,
                 ghost whole: map<string, Profile>, runModule: string)
    returns (testsOf: seq<seq<TestKey>>, binariesOf: seq<seq<TestKey>>, matched: set<string>)
    requires Lists(keys, tests) && Lists(paths, wholes)
    requires Keyed(wholes, whole)
    requires forall m :: m in decided <==> exists r :: r in runs && r.id in place && place[r.id] == m
    ensures |testsOf| == |binariesOf| == |decided|
    ensures forall i :: 0 <= i < |decided| ==> testsOf[i] == Naive(keys, tests, runModule, decided[i])
    ensures forall i :: 0 <= i < |decided| ==> binariesOf[i] == Naive(paths, wholes, runModule, decided[i])
    ensures matched != {} <==> (exists t :: t in tests && NamesOurs(tests[t], runs, place, runModule))
                               || exists path :: path in whole && NamesOurs(whole[path], runs, place, runModule)
  {
    hide Naive, Matched, Uncovered, NamesOurs;
    var modules := ModulesOf(runModule, decided);
    ModulesMeasured(runs, place, runModule, decided, modules);
    MatchedExact(keys, tests, runs, place, runModule, modules);
    MatchedExact(paths, wholes, runs, place, runModule, modules);
    assert forall path :: path in whole <==> TestKey(path, "") in wholes;
    var uncovered: seq<string>, matchedTests: set<string>, matchedBinaries: set<string>;
    testsOf, uncovered, matchedTests := MapTests(keys, tests, decided, runModule, modules);
    binariesOf, matchedBinaries := Map(paths, wholes, decided, runModule, modules);
    matched := matchedTests + matchedBinaries;
  }

  method MutantPlan(testsOf: seq<TestKey>, binariesOf: seq<TestKey>, ghost m: Mutant, ghost keys: seq<TestKey>,
                    ghost tests: map<TestKey, Profile>, ghost paths: seq<TestKey>, ghost wholes: map<TestKey, Profile>,
                    ghost whole: map<string, Profile>, ghost runModule: string)
    returns (p: Plan)
    requires Lists(keys, tests) && Lists(paths, wholes)
    requires Keyed(wholes, whole)
    requires testsOf == Naive(keys, tests, runModule, m) && binariesOf == Naive(paths, wholes, runModule, m)
    ensures PlanOf(p, m, runModule, tests, whole)
  {
    hide PlanOf, Naive, CoversMutant, Plans;
    OnlyWholes(paths, wholes, runModule, m);
    var names := Paths(binariesOf);
    p := NarrowingPlan(testsOf, names);
    PlanIsExact(p, m, runModule, keys, tests, paths, wholes, whole, names);
  }

  /** The plans of all runs. A run without a place in the source has an empty plan. */
  method NarrowingPlans(runs: seq<Run>, place: map<string, Mutant>, tests: map<TestKey, Profile>, whole: map<string, Profile>,
                        runModule: string)
    returns (plans: map<string, Plan>, matched: set<string>)
    ensures matched != {} <==> (exists t :: t in tests && NamesOurs(tests[t], runs, place, runModule))
                               || exists path :: path in whole && NamesOurs(whole[path], runs, place, runModule)
    ensures forall r :: r in runs ==> r.id in plans
    ensures forall r :: r in runs && r.id in place ==> PlanOf(plans[r.id], place[r.id], runModule, tests, whole)
  {
    hide PlanOf, Naive, NamesOurs, Lists, Keyed, KeyedBy;
    var keys := Enumerate(tests);
    var wholes := KeyedBy(whole);
    var paths := Enumerate(wholes);
    var decided, ids := CoverageMutants(runs, place);
    var testsOf: seq<seq<TestKey>>, binariesOf: seq<seq<TestKey>>;
    testsOf, binariesOf, matched := MapBoth(runs, place, decided, keys, tests, paths, wholes, whole, runModule);
    plans := FillPlans(runs, place, decided, ids, testsOf, binariesOf, keys, tests, paths, wholes, whole, runModule);
  }

  method FillPlans(runs: seq<Run>, ghost place: map<string, Mutant>, ghost decided: seq<Mutant>, ids: seq<string>,
                   testsOf: seq<seq<TestKey>>, binariesOf: seq<seq<TestKey>>, ghost keys: seq<TestKey>,
                   ghost tests: map<TestKey, Profile>, ghost paths: seq<TestKey>, ghost wholes: map<TestKey, Profile>,
                   ghost whole: map<string, Profile>, ghost runModule: string)
    returns (plans: map<string, Plan>)
    requires |ids| == |decided| == |testsOf| == |binariesOf|
    requires forall i :: 0 <= i < |ids| ==> ids[i] in place && decided[i] == place[ids[i]]
    requires Lists(keys, tests) && Lists(paths, wholes)
    requires Keyed(wholes, whole)
    requires forall i :: 0 <= i < |ids| ==> testsOf[i] == Naive(keys, tests, runModule, decided[i])
    requires forall i :: 0 <= i < |ids| ==> binariesOf[i] == Naive(paths, wholes, runModule, decided[i])
    ensures forall r :: r in runs ==> r.id in plans
    ensures forall id :: id in ids ==> id in plans && PlanOf(plans[id], place[id], runModule, tests, whole)
  {
    hide PlanOf, Naive, Keyed;
    plans := EmptyPlans(runs);
    for k := 0 to |ids|
      invariant forall r :: r in runs ==> r.id in plans
      invariant forall i :: 0 <= i < k ==> ids[i] in plans && PlanOf(plans[ids[i]], place[ids[i]], runModule, tests, whole)
    {
      var p := MutantPlan(testsOf[k], binariesOf[k], decided[k], keys, tests, paths, wholes, whole, runModule);
      plans := plans[ids[k] := p];
    }
  }

  lemma ModulesMeasured(runs: seq<Run>, place: map<string, Mutant>, runModule: string, decided: seq<Mutant>, modules: seq<string>)
    requires forall m :: m in decided <==> exists r :: r in runs && r.id in place && place[r.id] == m
    requires forall m :: m in modules <==> m != "" && (m == runModule || exists x :: x in decided && x.modulePath == m)
    ensures forall m :: m in modules <==> MeasuredModule(m, runs, place, runModule)
  {
    forall m ensures m in modules <==> MeasuredModule(m, runs, place, runModule) {
      if r :| r in runs && r.id in place && place[r.id].modulePath == m { assert place[r.id] in decided; }
    }
  }

  lemma MatchedExact(tests: seq<TestKey>, profiles: map<TestKey, Profile>, runs: seq<Run>, place: map<string, Mutant>,
                     runModule: string, modules: seq<string>)
    requires (forall t :: t in tests <==> t in profiles)
    requires forall m :: m in modules <==> MeasuredModule(m, runs, place, runModule)
    ensures Matched(tests, profiles, modules) != {} <==> exists t :: t in profiles && NamesOurs(profiles[t], runs, place, runModule)
  {
    hide MeasuredModule;
    if file :| file in Matched(tests, profiles, modules) {
      var t, b :| t in tests && b in profiles[t] && b.file == file && UnderModule(b.file, modules);
      assert NamesOurs(profiles[t], runs, place, runModule);
    }
    if t :| t in profiles && NamesOurs(profiles[t], runs, place, runModule) {
      var b :| b in profiles[t] && b.file != ""
               && ((forall m :: !MeasuredModule(m, runs, place, runModule))
                   || exists m :: MeasuredModule(m, runs, place, runModule) && m + "/" <= b.file);
      assert modules != [] ==> modules[0] in modules;
      assert b.file in Matched(tests, profiles, modules);
    }
  }

  lemma OnlyWholes(paths: seq<TestKey>, wholes: map<TestKey, Profile>, runModule: string, m: Mutant)
    requires (forall t :: t in paths <==> t in wholes) && forall t :: t in wholes ==> t.name == ""
    ensures forall t :: t in Naive(paths, wholes, runModule, m) ==> t.name == ""
  {
    hide CoversMutant, Naive;
    forall t | t in Naive(paths, wholes, runModule, m) ensures t.name == "" { NaiveIsExact(paths, wholes, runModule, m, t); }
  }

  /** Some decided run of this mutant does so. */
  ghost predicate Tested(covered: seq<Run>, id: string, bins: seq<string>, t: TestKey) {
    exists c :: c in covered && c.id == id && RunsTest(c, bins, t)
  }

  ghost predicate TestedWhole(covered: seq<Run>, id: string, bins: seq<string>, path: string) {
    exists c :: c in covered && c.id == id && RunsWhole(c, bins, path)
  }

  /** What profiling promises: every test belongs to a binary and is profiled once, and exactly the whole binaries have a profile
      of their own. */
  ghost predicate WellCollected(bins: seq<string>, collected: seq<TestData>, ofWhole: map<string, Profile>) {
    && (forall d :: d in collected ==> d.importPath in bins)
    && (forall i, j :: 0 <= i < j < |collected| ==>
          collected[i].importPath != collected[j].importPath || collected[i].name != collected[j].name)
    && (forall path :: path in ofWhole <==> Whole(bins, collected, path))
  }

  /** No narrowable test and no whole binary ran a block that shares a line with the mutant. */
  ghost predicate Untouched(bins: seq<string>, collected: seq<TestData>, ofWhole: map<string, Profile>, runModule: string, m: Mutant) {
    && (forall d :: Narrowable(bins, collected, d) ==> !CoversMutant(d.profile, runModule, m))
    && (forall path :: path in ofWhole ==> !CoversMutant(ofWhole[path], runModule, m))
  }

  /** Every profiled test and every whole binary whose blocks touch a mutant still runs against it, whatever the verdicts on
      the selected sets; no run is lost, and exactly the placed mutants that nothing touches are dropped. */
  method NarrowToTests(bins: seq<string>, runs: seq<Run>, collected: seq<TestData>, ofWhole: map<string, Profile>,
                       place: map<string, Mutant>, runModule: string, reliable: Plan -> bool)
    returns (narrowed: bool, covered: seq<Run>, uncovered: seq<string>)
    requires WellCollected(bins, collected, ofWhole)
    ensures narrowed <==> Informative(bins, runs, collected, ofWhole, place, runModule)
    ensures !narrowed ==> covered == runs && uncovered == []
    ensures Ids(runs) == Ids(covered) + multiset(uncovered)
    ensures narrowed ==> forall r, d :: r in runs && r.id in place && Narrowable(bins, collected, d)
                                        && CoversMutant(d.profile, runModule, place[r.id]) ==>
              Tested(covered, r.id, bins, TestKey(d.importPath, d.name))
    ensures narrowed ==> forall r, path :: r in runs && r.id in place && path in ofWhole
                                           && CoversMutant(ofWhole[path], runModule, place[r.id]) ==>
              TestedWhole(covered, r.id, bins, path)
    ensures narrowed ==> forall r :: r in runs ==>
              (r.id in uncovered <==> r.id in place && Untouched(bins, collected, ofWhole, runModule, place[r.id]))
    ensures narrowed ==> forall r :: r in runs && r.id !in place ==> r in covered
    ensures narrowed ==> forall c, t :: c in covered && c.id in place && RunsTest(c, bins, t) ==>
              (exists n :: Chosen(bins, collected, ofWhole, runModule, place[c.id], TestKey(t.importPath, n)))
              && ((forall p :: reliable(p)) ==> Chosen(bins, collected, ofWhole, runModule, place[c.id], t))
  {
    hide PlanOf, Partitioned, CoversMutant, Untouched, Drops, NamesOurs, Chosen, RunsTest;
    var whole := WholeBinaries(bins, collected);
    var tests := TestProfiles(bins, collected, whole);
    var plans, matched := NarrowingPlans(runs, place, tests, ofWhole, runModule);
    if matched == {} { return false, runs, []; }
    covered, uncovered := DecideRuns(bins, runs, place.Keys, plans, reliable);
    narrowed := true;
    NoneLost(runs, covered, uncovered, place.Keys, plans, reliable, bins);
    forall r, d | r in runs && r.id in place && Narrowable(bins, collected, d) && CoversMutant(d.profile, runModule, place[r.id])
      ensures Tested(covered, r.id, bins, TestKey(d.importPath, d.name))
    {
      DecidedRunTests(bins, runs, covered, uncovered, place, plans, reliable, runModule, tests, ofWhole, r,
                      TestKey(d.importPath, d.name));
    }
    forall r, path | r in runs && r.id in place && path in ofWhole && CoversMutant(ofWhole[path], runModule, place[r.id])
      ensures TestedWhole(covered, r.id, bins, path)
    {
      DecidedRunTests(bins, runs, covered, uncovered, place, plans, reliable, runModule, tests, ofWhole, r, TestKey(path, ""));
    }
    forall r | r in runs
      ensures r.id in uncovered <==> r.id in place && Untouched(bins, collected, ofWhole, runModule, place[r.id])
      ensures r.id !in place ==> r in covered
    {
      DroppedExact(runs, covered, uncovered, place.Keys, plans, reliable, bins, r);
      UntouchedDrops(bins, collected, ofWhole, runModule, place, plans[r.id], tests, r.id);
    }
    forall c, t | c in covered && c.id in place && RunsTest(c, bins, t)
      ensures exists n :: Chosen(bins, collected, ofWhole, runModule, place[c.id], TestKey(t.importPath, n))
      ensures (forall p :: reliable(p)) ==> Chosen(bins, collected, ofWhole, runModule, place[c.id], t)
    {
      NothingElseRuns(bins, runs, covered, uncovered, collected, ofWhole, place, plans, reliable, runModule, tests, c, t);
    }
  }

  /** What runs against a mutant because of coverage: a test that touches it, or any test of a whole binary that does. */
  ghost predicate Chosen(bins: seq<string>, collected: seq<TestData>, ofWhole: map<string, Profile>, runModule: string, m: Mutant,
                         t: TestKey) {
    || (exists d :: Narrowable(bins, collected, d) && t == TestKey(d.importPath, d.name) && CoversMutant(d.profile, runModule, m))
    || (t.importPath in ofWhole && CoversMutant(ofWhole[t.importPath], runModule, m))
  }

  /** Some profile names a file of a measured module. */
  ghost predicate Informative(bins: seq<string>, runs: seq<Run>, collected: seq<TestData>, ofWhole: map<string, Profile>,
                              place: map<string, Mutant>, runModule: string) {
    || (exists d :: Narrowable(bins, collected, d) && NamesOurs(d.profile, runs, place, runModule))
    || exists path :: path in ofWhole && NamesOurs(ofWhole[path], runs, place, runModule)
  }

  /** A narrowed run runs nothing but chosen tests; while its set of tests is not reliable, nothing but binaries with one. */
  lemma NothingElseRuns(bins: seq<string>, runs: seq<Run>, covered: seq<Run>, uncovered: seq<string>, collected: seq<TestData>,
                        ofWhole: map<string, Profile>, place: map<string, Mutant>, plans: map<string, Plan>, reliable: Plan -> bool,
                        runModule: string, tests: map<TestKey, Profile>, c: Run, t: TestKey)
    requires WellCollected(bins, collected, ofWhole) && forall x :: x in runs ==> x.id in plans
    requires Partitioned(runs, |runs|, covered, uncovered, place.Keys, plans, reliable, bins)
    requires forall r :: r in runs && r.id in place ==> PlanOf(plans[r.id], place[r.id], runModule, tests, ofWhole)
    requires forall t :: t in tests ==>
               exists d :: Narrowable(bins, collected, d) && t == TestKey(d.importPath, d.name) && tests[t] == d.profile
    requires c in covered && c.id in place && RunsTest(c, bins, t)
    ensures exists n :: Chosen(bins, collected, ofWhole, runModule, place[c.id], TestKey(t.importPath, n))
    ensures (forall p :: reliable(p)) ==> Chosen(bins, collected, ofWhole, runModule, place[c.id], t)
  {
    hide Decides, Chosen, PlanOf, Covering, RunsTest, Ids, Drops, Narrowable;
    assert Comes(c, runs, place.Keys, plans, reliable, bins);
    var r :| r in runs && DecidedFrom(r, c, place.Keys, plans, reliable, bins);
    SameId(r, c, r.id in place.Keys, plans[r.id], reliable(plans[r.id]) || plans[r.id].tests == map[], bins);
    var p := plans[r.id];
    OnlyPlannedRuns(bins, r, c, p, reliable(p) || p.tests == map[], collected, ofWhole, place[c.id], runModule, tests, t);
  }

  lemma OnlyPlannedRuns(bins: seq<string>, r: Run, c: Run, p: Plan, reliable: bool, collected: seq<TestData>,
                        ofWhole: map<string, Profile>, m: Mutant, runModule: string, tests: map<TestKey, Profile>, t: TestKey)
    requires WellCollected(bins, collected, ofWhole) && PlanOf(p, m, runModule, tests, ofWhole)
    requires forall t :: t in tests ==>
               exists d :: Narrowable(bins, collected, d) && t == TestKey(d.importPath, d.name) && tests[t] == d.profile
    requires Decides(r, c, true, p, reliable, bins) && RunsTest(c, bins, t)
    ensures exists n :: Chosen(bins, collected, ofWhole, runModule, m, TestKey(t.importPath, n))
    ensures reliable ==> Chosen(bins, collected, ofWhole, runModule, m, t)
  {
    hide CoversMutant, Whole, Narrowable, WellCollected;
    forall path | path in Covering(p) ensures path in bins { CoveringIsHere(bins, collected, ofWhole, p, m, runModule, tests, path); }
    assert t.importPath in Covering(p);
    if t.importPath in p.tests {
      var n := p.tests[t.importPath][0];
      assert TestKey(t.importPath, n) in tests;
      assert Chosen(bins, collected, ofWhole, runModule, m, TestKey(t.importPath, n));
      assert reliable ==> t in tests;
    } else {
      assert Chosen(bins, collected, ofWhole, runModule, m, t);
    }
  }

  lemma CoveringIsHere(bins: seq<string>, collected: seq<TestData>, ofWhole: map<string, Profile>, p: Plan, m: Mutant,
                       runModule: string, tests: map<TestKey, Profile>, path: string)
    requires WellCollected(bins, collected, ofWhole) && PlanOf(p, m, runModule, tests, ofWhole) && path in Covering(p)
    requires forall t :: t in tests ==>
               exists d :: Narrowable(bins, collected, d) && t == TestKey(d.importPath, d.name) && tests[t] == d.profile
    ensures path in bins
  {
    hide CoversMutant;
    if path in p.tests {
      var t := TestKey(path, p.tests[path][0]);
      assert t in tests;
    }
  }

  lemma NoneLost(runs: seq<Run>, covered: seq<Run>, uncovered: seq<string>, asked: set<string>, plans: map<string, Plan>,
                 reliable: Plan -> bool, bins: seq<string>)
    requires forall r :: r in runs ==> r.id in plans
    requires Partitioned(runs, |runs|, covered, uncovered, asked, plans, reliable, bins)
    ensures Ids(runs) == Ids(covered) + multiset(uncovered)
  {
    assert runs[..|runs|] == runs;
  }

  /** A run is dropped exactly when its plan names nothing; one without a place is kept as it is. */
  lemma DroppedExact(runs: seq<Run>, covered: seq<Run>, uncovered: seq<string>, asked: set<string>, plans: map<string, Plan>,
                     reliable: Plan -> bool, bins: seq<string>, r: Run)
    requires forall r :: r in runs ==> r.id in plans
    requires Partitioned(runs, |runs|, covered, uncovered, asked, plans, reliable, bins) && r in runs
    ensures r.id in uncovered <==> Drops(r.id in asked, plans[r.id])
    ensures r.id !in asked ==> r in covered
  {
    hide Selects, Ids;
    if Drops(r.id in asked, plans[r.id]) {
      NoneLost(runs, covered, uncovered, asked, plans, reliable, bins);
      IdsMembers(runs);
      IdsMembers(covered);
      forall c | c in covered ensures c.id != r.id {
        var from :| from in runs && DecidedFrom(from, c, asked, plans, reliable, bins);
        assert from.id == c.id;
      }
      assert r.id in Ids(runs);
    } else {
      assert Answered(r, covered, asked, plans, reliable, bins);
    }
  }

  /** The plan of a placed mutant names nothing exactly when nothing touches the mutant. */
  lemma UntouchedDrops(bins: seq<string>, collected: seq<TestData>, ofWhole: map<string, Profile>, runModule: string,
                       place: map<string, Mutant>, p: Plan, tests: map<TestKey, Profile>, id: string)
    requires WellCollected(bins, collected, ofWhole)
    requires forall d :: Narrowable(bins, collected, d) ==>
               TestKey(d.importPath, d.name) in tests && tests[TestKey(d.importPath, d.name)] == d.profile
    requires forall t :: t in tests ==>
               exists d :: Narrowable(bins, collected, d) && t == TestKey(d.importPath, d.name) && tests[t] == d.profile
    requires id in place ==> PlanOf(p, place[id], runModule, tests, ofWhole)
    ensures Drops(id in place, p) <==> id in place && Untouched(bins, collected, ofWhole, runModule, place[id])
  {
    hide CoversMutant, PlanOf, RunsTest, RunsWhole, Decides;
    if id in place {
      CoveringTestsRun(bins, Run(id, None, map[]), Run(id, None, map[]), p, true, place[id], runModule, tests, ofWhole);
    }
  }

  lemma DecidedRunTests(bins: seq<string>, runs: seq<Run>, covered: seq<Run>, uncovered: seq<string>, place: map<string, Mutant>,
                        plans: map<string, Plan>, reliable: Plan -> bool, runModule: string, tests: map<TestKey, Profile>,
                        whole: map<string, Profile>, r: Run, t: TestKey)
    requires r in runs && r.id in place && forall x :: x in runs ==> x.id in plans
    requires Partitioned(runs, |runs|, covered, uncovered, place.Keys, plans, reliable, bins)
    requires PlanOf(plans[r.id], place[r.id], runModule, tests, whole)
    requires forall t :: t in tests ==> t.importPath in bins && t.importPath !in whole
    requires forall path :: path in whole ==> path in bins
    ensures t in tests && CoversMutant(tests[t], runModule, place[r.id]) ==> Tested(covered, r.id, bins, t)
    ensures t.importPath in whole && CoversMutant(whole[t.importPath], runModule, place[r.id]) ==>
              TestedWhole(covered, r.id, bins, t.importPath)
  {
    hide CoversMutant, Selects, PlanOf, Drops, Decides;
    var p, m := plans[r.id], place[r.id];
    CoveringTestsRun(bins, r, r, p, true, m, runModule, tests, whole);
    if !Drops(true, p) {
      assert Answered(r, covered, place.Keys, plans, reliable, bins);
      var c :| c in covered && DecidedFrom(r, c, place.Keys, plans, reliable, bins);
      CoveringTestsRun(bins, r, c, p, reliable(p) || p.tests == map[], m, runModule, tests, whole);
      SameId(r, c, true, p, reliable(p) || p.tests == map[], bins);
    }
  }

  lemma SameId(r: Run, c: Run, asked: bool, p: Plan, reliable: bool, bins: seq<string>)
    requires Decides(r, c, asked, p, reliable, bins)
    ensures c.id == r.id
  {
  }

  // ----- the coverage phase

  /** What profiling gave: nothing, a profile of every binary, or one of every test beside those of the whole binaries. */
  datatype Profiles =
    | Unavailable
    | OfBinaries(ofWhole: map<string, Profile>)
    | OfTests(collected: seq<TestData>, ofWhole: map<string, Profile>)

  function Collected(p: Profiles): seq<TestData> { if p.OfTests? then p.collected else [] }

  function OfWhole(p: Profiles): map<string, Profile> { if p.Unavailable? then map[] else p.ofWhole }

  ghost predicate WellProfiled(bins: seq<string>, p: Profiles) { p.Unavailable? || WellCollected(bins, Collected(p), OfWhole(p)) }

  /** The test, or the binary it runs in as a whole, ran a block that shares a line with the mutant. */
  ghost predicate Exercises(bins: seq<string>, p: Profiles, runModule: string, m: Mutant, t: TestKey) {
    Chosen(bins, Collected(p), OfWhole(p), runModule, m, t)
  }

  ghost predicate Unexercised(bins: seq<string>, p: Profiles, runModule: string, m: Mutant) {
    forall t :: !Exercises(bins, p, runModule, m, t)
  }

  /** There is something to narrow, and some profile names a file of a measured module. */
  ghost predicate Narrows(bins: seq<string>, runs: seq<Run>, p: Profiles, place: map<string, Mutant>, runModule: string) {
    runs != [] && bins != [] && !p.Unavailable? && Informative(bins, runs, Collected(p), OfWhole(p), place, runModule)
  }

  /** A narrowed run has only binaries with a test that exercises the mutant, and when the selected sets are reliable only such
      tests. */
  ghost predicate NothingElse(covered: seq<Run>, bins: seq<string>, p: Profiles, place: map<string, Mutant>, runModule: string,
                              reliable: Plan -> bool) {
    forall c, t :: c in covered && c.id in place && RunsTest(c, bins, t) ==>
      (exists n :: Exercises(bins, p, runModule, place[c.id], TestKey(t.importPath, n)))
      && ((forall plan :: reliable(plan)) ==> Exercises(bins, p, runModule, place[c.id], t))
  }

  /** A run as selection makes it, before anything narrowed it. */
  predicate Unnarrowed(run: Run) { run.binaries.None? && run.tests == map[] }

  /** Under either mode of narrowing every test that exercises a mutant runs against it, no run is lost, and exactly the placed
      mutants that no test exercises are dropped. Per binary is per test with every binary run whole. */
  method CoveragePhase(bins: seq<string>, runs: seq<Run>, profiles: Profiles, place: map<string, Mutant>, runModule: string,
                       reliable: Plan -> bool)
    returns (narrowed: bool, covered: seq<Run>, uncovered: seq<string>)
    requires WellProfiled(bins, profiles) && forall r :: r in runs ==> Unnarrowed(r)
    ensures narrowed <==> Narrows(bins, runs, profiles, place, runModule)
    ensures narrowed ==> NothingElse(covered, bins, profiles, place, runModule, reliable)
    ensures !narrowed ==> covered == runs && uncovered == []
    ensures Ids(runs) == Ids(covered) + multiset(uncovered)
    ensures forall r, t :: r in runs && r.id in place && Exercises(bins, profiles, runModule, place[r.id], t) ==>
              Tested(covered, r.id, bins, t)
    ensures forall r :: r in runs ==>
              (r.id in uncovered <==> narrowed && r.id in place && Unexercised(bins, profiles, runModule, place[r.id]))
    ensures forall r :: r in runs && r.id !in place ==> r in covered
  {
    hide CoversMutant, WellCollected, Untouched, Ids, Informative, Chosen;
    narrowed, covered, uncovered := false, runs, [];
    if runs != [] && bins != [] && !profiles.Unavailable? {
      narrowed, covered, uncovered :=
        NarrowToTests(bins, runs, Collected(profiles), OfWhole(profiles), place, runModule, reliable);
    }
    forall r, t | r in runs && r.id in place && Exercises(bins, profiles, runModule, place[r.id], t)
      ensures Tested(covered, r.id, bins, t)
    {
      if narrowed {
        ExercisedIsTested(bins, profiles, covered, runModule, r.id, place[r.id], t);
      } else {
        ExercisedIsHere(bins, profiles, runModule, place[r.id], t);
        assert Tested(covered, r.id, bins, t) by { assert Unnarrowed(r); }
      }
    }
    forall r | r in runs && r.id in place
      ensures Untouched(bins, Collected(profiles), OfWhole(profiles), runModule, place[r.id])
              <==> Unexercised(bins, profiles, runModule, place[r.id])
    {
      UntouchedIsUnexercised(bins, profiles, runModule, place[r.id]);
    }
  }

  /** What exercises a mutant of a known module names a file of that module: coverage narrows whenever it can tell. */
  lemma ExercisedNarrows(bins: seq<string>, runs: seq<Run>, p: Profiles, place: map<string, Mutant>, runModule: string, r: Run,
                         t: TestKey)
    requires WellProfiled(bins, p) && r in runs && r.id in place && Exercises(bins, p, runModule, place[r.id], t)
    requires runModule != "" || place[r.id].modulePath != ""
    ensures Narrows(bins, runs, p, place, runModule)
  {
    hide WellCollected, NamesOurs, MeasuredModule, CoversMutant;
    ExercisedIsHere(bins, p, runModule, place[r.id], t);
    var m := place[r.id];
    var owner := if m.modulePath == "" then runModule else m.modulePath;
    assert MeasuredModule(owner, runs, place, runModule) by { IsMeasured(runs, place, runModule, r); }
    if t.importPath in OfWhole(p) && CoversMutant(OfWhole(p)[t.importPath], runModule, m) {
      CoveringNamesOurs(OfWhole(p)[t.importPath], runs, place, runModule, m, owner);
    } else {
      var d :| Narrowable(bins, Collected(p), d) && t == TestKey(d.importPath, d.name) && CoversMutant(d.profile, runModule, m);
      CoveringNamesOurs(d.profile, runs, place, runModule, m, owner);
    }
  }

  lemma IsMeasured(runs: seq<Run>, place: map<string, Mutant>, runModule: string, r: Run)
    requires r in runs && r.id in place && (runModule != "" || place[r.id].modulePath != "")
    ensures var m := place[r.id]; MeasuredModule(if m.modulePath == "" then runModule else m.modulePath, runs, place, runModule)
  {
  }

  lemma CoveringNamesOurs(profile: Profile, runs: seq<Run>, place: map<string, Mutant>, runModule: string, m: Mutant, owner: string)
    requires CoversMutant(profile, runModule, m) && owner == (if m.modulePath == "" then runModule else m.modulePath)
    requires owner != "" && MeasuredModule(owner, runs, place, runModule)
    ensures NamesOurs(profile, runs, place, runModule)
  {
    hide MeasuredModule;
    var b :| b in profile && Touches(b, ProfilePath(runModule, m), m.start, m.end);
    assert b.file == owner + "/" + m.path && b.file[..|owner| + 1] == owner + "/";
  }

  lemma ExercisedIsTested(bins: seq<string>, p: Profiles, covered: seq<Run>, runModule: string, id: string, m: Mutant, t: TestKey)
    requires Exercises(bins, p, runModule, m, t)
    requires forall d :: Narrowable(bins, Collected(p), d) && CoversMutant(d.profile, runModule, m) ==>
               Tested(covered, id, bins, TestKey(d.importPath, d.name))
    requires forall path :: path in OfWhole(p) && CoversMutant(OfWhole(p)[path], runModule, m) ==>
               TestedWhole(covered, id, bins, path)
    ensures Tested(covered, id, bins, t)
  {
    hide CoversMutant, Narrowable, Collected, OfWhole;
    if TestedWhole(covered, id, bins, t.importPath) {
      var c :| c in covered && c.id == id && RunsWhole(c, bins, t.importPath);
      assert RunsTest(c, bins, t);
    }
  }

  lemma ExercisedIsHere(bins: seq<string>, p: Profiles, runModule: string, m: Mutant, t: TestKey)
    requires WellProfiled(bins, p) && Exercises(bins, p, runModule, m, t)
    ensures t.importPath in bins
  {
    hide CoversMutant;
  }

  lemma UntouchedIsUnexercised(bins: seq<string>, p: Profiles, runModule: string, m: Mutant)
    ensures Untouched(bins, Collected(p), OfWhole(p), runModule, m) <==> Unexercised(bins, p, runModule, m)
  {
    hide CoversMutant;
    if Unexercised(bins, p, runModule, m) {
      forall d | Narrowable(bins, Collected(p), d) ensures !CoversMutant(d.profile, runModule, m) {
        assert !Exercises(bins, p, runModule, m, TestKey(d.importPath, d.name));
      }
      forall path | path in OfWhole(p) ensures !CoversMutant(OfWhole(p)[path], runModule, m) {
        assert !Exercises(bins, p, runModule, m, TestKey(path, ""));
      }
    }
  }
}
