/** Which tests cover which mutants (internal/coverage): an index of merged intervals per file, searched file by file, finds
    what a plain scan of every block of every profile for every mutant finds, in the same order. */
module Coverage {
  import opened Intervals

  datatype Block = Block(file: string, span: Interval, count: nat)

  type Profile = seq<Block>

  datatype TestKey = TestKey(importPath: string, name: string)

  datatype Mutant = Mutant(id: string, path: string, modulePath: string, start: int, end: int)

  function ProfilePath(runModule: string, m: Mutant): string {
    var owner := if m.modulePath == "" then runModule else m.modulePath;
    if owner == "" then m.path else owner + "/" + m.path
  }

  // ----- the plain reading

  /** A block that ran shares a line with the mutant. */
  predicate Touches(b: Block, path: string, start: int, end: int) {
    b.file == path && path != "" && b.count > 0 && start <= end && b.span.start <= end && start <= b.span.end
  }

  predicate Covers(profile: Profile, path: string, start: int, end: int) {
    exists b :: b in profile && Touches(b, path, start, end)
  }

  predicate CoversMutant(profile: Profile, runModule: string, m: Mutant) {
    Covers(profile, ProfilePath(runModule, m), m.start, m.end)
  }

  /** The tests that cover a mutant, in the order of the tests. */
  function Naive(tests: seq<TestKey>, profiles: map<TestKey, Profile>, runModule: string, m: Mutant): seq<TestKey>
    requires forall t :: t in tests ==> t in profiles
  {
    if tests == [] then []
    else
      var last := tests[|tests| - 1];
      assert last in tests;
      Naive(tests[..|tests| - 1], profiles, runModule, m)
      + (if CoversMutant(profiles[last], runModule, m) then [last] else [])
  }

  // ----- the index of one profile

  type FileIndex = map<string, seq<Interval>>

  /** The index holds exactly the lines of the blocks that ran. */
  ghost predicate Indexes(index: FileIndex, profile: Profile) {
    forall path, line :: (path in index && Holds(index[path], line)) <==> Covers(profile, path, line, line)
  }

  predicate Searchable(index: FileIndex) { forall path :: path in index ==> Separated(index[path]) }

  /** The module of the run, and those of the mutants that have one. */
  method ModulesOf(runModule: string, mutants: seq<Mutant>) returns (modules: seq<string>)
    ensures forall m :: m in modules <==> m != "" && (m == runModule || exists x :: x in mutants && x.modulePath == m)
  {
    modules := if runModule == "" then [] else [runModule];
    for k := 0 to |mutants|
      invariant forall m :: m in modules <==> m != "" && (m == runModule || exists x :: x in mutants[..k] && x.modulePath == m)
    {
      assert mutants[..k + 1] == mutants[..k] + [mutants[k]];
      if mutants[k].modulePath != "" && mutants[k].modulePath !in modules { modules := modules + [mutants[k].modulePath]; }
    }
    assert mutants[..|mutants|] == mutants;
  }

  predicate UnderModule(file: string, modules: seq<string>) {
    modules == [] || exists m :: m in modules && m + "/" <= file
  }

  lemma IndexedBlock(index: FileIndex, index': FileIndex, profile: Profile, b: Block)
    requires Indexes(index, profile)
    requires b.file == "" || b.count == 0 ==>
               index' == index || (b.file != "" && b.file !in index && index' == index[b.file := []])
    requires b.file != "" && b.count > 0 ==>
               index' == index[b.file := (if b.file in index then index[b.file] else []) + [b.span]]
    ensures Indexes(index', profile + [b])
  {
    forall path, line
      ensures (path in index' && Holds(index'[path], line)) <==> Covers(profile + [b], path, line, line)
    {
      assert Covers(profile + [b], path, line, line) <==> Covers(profile, path, line, line) || Touches(b, path, line, line) by {
        if x :| x in profile && Touches(x, path, line, line) { assert x in profile + [b]; }
        if Touches(b, path, line, line) { assert b in profile + [b]; }
      }
      if b.file != "" && b.count > 0 && path == b.file {
        var spans := if b.file in index then index[b.file] else [];
        HoldsAppend(spans, b.span, line);
      }
    }
  }

  lemma HoldsAppend(s: seq<Interval>, x: Interval, line: int)
    ensures Holds(s + [x], line) <==> Holds(s, line) || x.start <= line <= x.end
  {
    var t := s + [x];
    if i :| 0 <= i < |s| && s[i].start <= line <= s[i].end { assert t[i].start <= line <= t[i].end; }
    if x.start <= line <= x.end { assert t[|s|].start <= line <= t[|s|].end; }
  }

  method NewFileIndex(profile: Profile, modules: seq<string>, matched: set<string>) returns (index: FileIndex, matched': set<string>)
    ensures Indexes(index, profile) && Searchable(index)
    ensures matched' == matched + set b | b in profile && b.file != "" && UnderModule(b.file, modules) :: b.file
  {
    var raw: FileIndex := map[];
    matched' := matched;
    assert profile[..0] == [];
    for k := 0 to |profile|
      invariant Indexes(raw, profile[..k])
      invariant matched' == matched + set b | b in profile[..k] && b.file != "" && UnderModule(b.file, modules) :: b.file
    {
      var b := profile[k];
      ghost var before := raw;
      assert profile[..k + 1] == profile[..k] + [b];
      if b.file != "" {
        if UnderModule(b.file, modules) { matched' := matched' + {b.file}; }
        if b.count == 0 {
          if b.file !in raw { raw := raw[b.file := []]; }
        } else {
          raw := raw[b.file := (if b.file in raw then raw[b.file] else []) + [b.span]];
        }
      }
      IndexedBlock(before, raw, profile[..k], b);
    }
    assert profile[..|profile|] == profile;
    index := MergeAll(raw);
  }

  method MergeAll(raw: FileIndex) returns (index: FileIndex)
    ensures index.Keys == raw.Keys && Searchable(index)
    ensures forall path, line :: path in raw ==> (Holds(index[path], line) <==> Holds(raw[path], line))
  {
    index := map[];
    var left := raw.Keys;
    while left != {}
      invariant left <= raw.Keys && index.Keys == raw.Keys - left && Searchable(index)
      invariant forall path, line :: path in index ==> (Holds(index[path], line) <==> Holds(raw[path], line))
      decreases |left|
    {
      var path :| path in left;
      var merged := Merge(raw[path]);
      index := index[path := merged];
      left := left - {path};
    }
  }

  /** The index answers as the blocks do. */
  method IndexCovers(index: FileIndex, ghost profile: Profile, path: string, start: int, end: int) returns (r: bool)
    requires Indexes(index, profile) && Searchable(index)
    ensures r == Covers(profile, path, start, end)
  {
    if path in index { r := Overlaps(index[path], start, end); } else { r := false; }
    LineByLine(index, profile, path, start, end);
  }

  lemma LineByLine(index: FileIndex, profile: Profile, path: string, start: int, end: int)
    requires Indexes(index, profile)
    ensures Covers(profile, path, start, end)
            <==> path in index && exists line :: start <= line <= end && Holds(index[path], line)
  {
    if b :| b in profile && Touches(b, path, start, end) {
      var line := if b.span.start >= start then b.span.start else start;
      assert Touches(b, path, line, line);
      assert Covers(profile, path, line, line) && start <= line <= end;
    }
    if path in index {
      if line :| start <= line <= end && Holds(index[path], line) {
        assert Covers(profile, path, line, line);
        var b :| b in profile && Touches(b, path, line, line);
        assert Touches(b, path, start, end);
      }
    }
  }

  // ----- mutants grouped by file

  datatype Placed = Placed(at: nat, start: int, end: int)

  datatype FileGroup = FileGroup(path: string, mutants: seq<Placed>)

  /** Where a mutant is: group `g`, place `p`. */
  predicate PlacedAt(groups: seq<FileGroup>, g: int, p: int, i: int) {
    0 <= g < |groups| && 0 <= p < |groups[g].mutants| && groups[g].mutants[p].at == i
  }

  ghost predicate IsPlaced(groups: seq<FileGroup>, i: int) { exists g, p :: PlacedAt(groups, g, p, i) }

  /** Every mutant before `n` stands in one place of one group, the group of its file. */
  ghost predicate Grouped(groups: seq<FileGroup>, mutants: seq<Mutant>, runModule: string, n: nat)
    requires n <= |mutants|
  {
    && (forall g, p :: 0 <= g < |groups| && 0 <= p < |groups[g].mutants| ==>
          var placed := groups[g].mutants[p];
          && placed.at < n
          && groups[g].path == ProfilePath(runModule, mutants[placed.at])
          && placed.start == mutants[placed.at].start && placed.end == mutants[placed.at].end)
    && (forall i :: 0 <= i < n ==> IsPlaced(groups, i))
    && (forall g, p, h, q, i :: PlacedAt(groups, g, p, i) && PlacedAt(groups, h, q, i) ==> g == h && p == q)
  }

  method GroupByFile(mutants: seq<Mutant>, runModule: string) returns (groups: seq<FileGroup>)
    ensures Grouped(groups, mutants, runModule, |mutants|)
  {
    groups := [];
    var at: map<string, nat> := map[];
    for i := 0 to |mutants|
      invariant Grouped(groups, mutants, runModule, i)
      invariant forall path :: path in at ==> at[path] < |groups| && groups[at[path]].path == path
    {
      var path := ProfilePath(runModule, mutants[i]);
      ghost var before := groups;
      if path !in at {
        at := at[path := |groups|];
        groups := groups + [FileGroup(path, [])];
      }
      var g := at[path];
      var placed := Placed(i, mutants[i].start, mutants[i].end);
      groups := groups[g := FileGroup(path, groups[g].mutants + [placed])];
      GroupedNext(before, groups, mutants, runModule, i, g);
    }
  }

  lemma GroupedNext(before: seq<FileGroup>, after: seq<FileGroup>, mutants: seq<Mutant>, runModule: string, i: nat, g: nat)
    requires i < |mutants| && Grouped(before, mutants, runModule, i) && g < |after|
    requires after[g].path == ProfilePath(runModule, mutants[i])
    requires (g < |before| == |after| && before[g].path == after[g].path
              && after[g].mutants == before[g].mutants + [Placed(i, mutants[i].start, mutants[i].end)])
             || (g == |before| == |after| - 1 && after[g].mutants == [Placed(i, mutants[i].start, mutants[i].end)])
    requires forall h :: 0 <= h < |before| && h != g ==> after[h] == before[h]
    ensures Grouped(after, mutants, runModule, i + 1)
  {
    var p := |after[g].mutants| - 1;
    assert PlacedAt(after, g, p, i);
    forall h, q, j | PlacedAt(after, h, q, j) ensures (h == g && q == p && j == i) || (j < i && PlacedAt(before, h, q, j)) {}
    forall j | 0 <= j < i ensures IsPlaced(after, j) {
      assert IsPlaced(before, j);
      var h, q :| PlacedAt(before, h, q, j);
      assert PlacedAt(after, h, q, j);
    }
  }

  // ----- scanning

  /** One test against the mutants of one file. */
  method ScanTest(group: FileGroup, key: TestKey, intervals: seq<Interval>, covering: seq<seq<TestKey>>)
    returns (r: seq<seq<TestKey>>)
    requires Separated(intervals) && forall p :: 0 <= p < |group.mutants| ==> group.mutants[p].at < |covering|
    requires forall p, q :: 0 <= p < q < |group.mutants| ==> group.mutants[p].at != group.mutants[q].at
    ensures |r| == |covering|
    ensures forall p :: 0 <= p < |group.mutants| ==>
              var m := group.mutants[p];
              r[m.at] == covering[m.at]
                         + (if exists line :: m.start <= line <= m.end && Holds(intervals, line) then [key] else [])
    ensures forall i :: 0 <= i < |covering| && (forall p :: 0 <= p < |group.mutants| ==> group.mutants[p].at != i) ==>
              r[i] == covering[i]
  {
    r := covering;
    if intervals == [] { return; }
    for k := 0 to |group.mutants|
      invariant |r| == |covering|
      invariant forall p :: 0 <= p < k ==>
                  var m := group.mutants[p];
                  r[m.at] == covering[m.at]
                             + (if exists line :: m.start <= line <= m.end && Holds(intervals, line) then [key] else [])
      invariant forall p :: k <= p < |group.mutants| ==> r[group.mutants[p].at] == covering[group.mutants[p].at]
      invariant forall i :: 0 <= i < |covering| && (forall p :: 0 <= p < |group.mutants| ==> group.mutants[p].at != i) ==>
                  r[i] == covering[i]
    {
      var m := group.mutants[k];
      var hit := Overlaps(intervals, m.start, m.end);
      if hit { r := r[m.at := r[m.at] + [key]]; }
    }
  }

  /** The indexes of the tests, one each. */
  ghost predicate IndexesAll(indexes: seq<FileIndex>, tests: seq<TestKey>, profiles: map<TestKey, Profile>) {
    && |indexes| == |tests| && (forall t :: t in tests ==> t in profiles)
    && forall i :: 0 <= i < |tests| ==> Searchable(indexes[i]) && Indexes(indexes[i], profiles[tests[i]])
  }

  /** The mutants of group `g` have the answer of the plain scan, the others are as they were. */
  ghost predicate Scanned(groups: seq<FileGroup>, g: nat, tests: seq<TestKey>, profiles: map<TestKey, Profile>,
                          mutants: seq<Mutant>, runModule: string, before: seq<seq<TestKey>>, after: seq<seq<TestKey>>)
    requires |before| == |mutants| && forall t :: t in tests ==> t in profiles
  {
    && |after| == |mutants|
    && (forall i, p :: 0 <= i < |mutants| && PlacedAt(groups, g, p, i) ==>
          after[i] == Naive(tests, profiles, runModule, mutants[i]))
    && (forall i :: 0 <= i < |mutants| && (forall p :: !PlacedAt(groups, g, p, i)) ==> after[i] == before[i])
  }

  /** All tests against the mutants of one file. */
  method ScanGroup(groups: seq<FileGroup>, g: nat, tests: seq<TestKey>, profiles: map<TestKey, Profile>,
                   indexes: seq<FileIndex>, mutants: seq<Mutant>, runModule: string, covering: seq<seq<TestKey>>)
    returns (r: seq<seq<TestKey>>)
    requires g < |groups| && |covering| == |mutants| && Grouped(groups, mutants, runModule, |mutants|)
    requires IndexesAll(indexes, tests, profiles)
    requires forall i, p :: 0 <= i < |mutants| && PlacedAt(groups, g, p, i) ==> covering[i] == []
    ensures Scanned(groups, g, tests, profiles, mutants, runModule, covering, r)
  {
    r := covering;
    var group := groups[g];
    DistinctPlaces(groups, mutants, runModule, g);
    assert tests[..0] == [];
    for k := 0 to |tests|
      invariant Scanned(groups, g, tests[..k], profiles, mutants, runModule, covering, r)
    {
      hide Scanned, Grouped, Indexes, Covers, Holds, Naive, PlacedAt;
      var intervals := if group.path in indexes[k] then indexes[k][group.path] else [];
      ghost var before := r;
      assert |r| == |mutants| by { ScannedSize(groups, g, tests[..k], profiles, mutants, runModule, covering, r); }
      r := ScanTest(group, tests[k], intervals, r);
      ScannedNext(groups, g, tests, profiles, indexes, mutants, runModule, covering, before, r, k);
    }
    assert tests[..|tests|] == tests;
  }

  lemma ScannedSize(groups: seq<FileGroup>, g: nat, tests: seq<TestKey>, profiles: map<TestKey, Profile>,
                    mutants: seq<Mutant>, runModule: string, before: seq<seq<TestKey>>, after: seq<seq<TestKey>>)
    requires |before| == |mutants| && (forall t :: t in tests ==> t in profiles)
    requires Scanned(groups, g, tests, profiles, mutants, runModule, before, after)
    ensures |after| == |mutants|
  {
  }

  lemma ScannedNext(groups: seq<FileGroup>, g: nat, tests: seq<TestKey>, profiles: map<TestKey, Profile>, indexes: seq<FileIndex>,
                    mutants: seq<Mutant>, runModule: string, covering: seq<seq<TestKey>>, before: seq<seq<TestKey>>,
                    after: seq<seq<TestKey>>, k: nat)
    requires g < |groups| && |covering| == |mutants| && Grouped(groups, mutants, runModule, |mutants|)
    requires IndexesAll(indexes, tests, profiles) && k < |tests|
    requires Scanned(groups, g, tests[..k], profiles, mutants, runModule, covering, before)
    requires |after| == |before|
    requires forall p :: 0 <= p < |groups[g].mutants| ==> groups[g].mutants[p].at < |before|
    requires forall p :: 0 <= p < |groups[g].mutants| ==>
               var m := groups[g].mutants[p];
               var intervals := if groups[g].path in indexes[k] then indexes[k][groups[g].path] else [];
               after[m.at] == before[m.at]
                              + (if exists line :: m.start <= line <= m.end && Holds(intervals, line) then [tests[k]] else [])
    requires forall i :: 0 <= i < |before| && (forall p :: 0 <= p < |groups[g].mutants| ==> groups[g].mutants[p].at != i) ==>
               after[i] == before[i]
    ensures Scanned(groups, g, tests[..k + 1], profiles, mutants, runModule, covering, after)
  {
    hide Indexes, Covers, Holds, Naive;
    var group := groups[g];
    forall i, p | 0 <= i < |mutants| && PlacedAt(groups, g, p, i)
      ensures after[i] == Naive(tests[..k + 1], profiles, runModule, mutants[i])
    {
      ScannedMutant(groups, g, tests, profiles, indexes, mutants, runModule, p, k);
    }
    forall i | 0 <= i < |mutants| && (forall p :: !PlacedAt(groups, g, p, i)) ensures after[i] == covering[i] {
      forall p | 0 <= p < |group.mutants| ensures group.mutants[p].at != i { assert !PlacedAt(groups, g, p, i); }
    }
  }

  lemma ScannedMutant(groups: seq<FileGroup>, g: nat, tests: seq<TestKey>, profiles: map<TestKey, Profile>, indexes: seq<FileIndex>,
                      mutants: seq<Mutant>, runModule: string, p: nat, k: nat)
    requires g < |groups| && Grouped(groups, mutants, runModule, |mutants|)
    requires IndexesAll(indexes, tests, profiles) && k < |tests| && p < |groups[g].mutants|
    ensures groups[g].mutants[p].at < |mutants|
    ensures var m := groups[g].mutants[p];
            var intervals := if groups[g].path in indexes[k] then indexes[k][groups[g].path] else [];
            Naive(tests[..k + 1], profiles, runModule, mutants[m.at])
            == Naive(tests[..k], profiles, runModule, mutants[m.at])
               + (if exists line :: m.start <= line <= m.end && Holds(intervals, line) then [tests[k]] else [])
  {
    var m := groups[g].mutants[p];
    LineByLine(indexes[k], profiles[tests[k]], groups[g].path, m.start, m.end);
    NaiveNext(tests, profiles, runModule, mutants[m.at], k);
  }

  lemma DistinctPlaces(groups: seq<FileGroup>, mutants: seq<Mutant>, runModule: string, g: nat)
    requires g < |groups| && Grouped(groups, mutants, runModule, |mutants|)
    ensures forall p :: 0 <= p < |groups[g].mutants| ==> groups[g].mutants[p].at < |mutants|
    ensures forall p, q :: 0 <= p < q < |groups[g].mutants| ==> groups[g].mutants[p].at != groups[g].mutants[q].at
  {
    forall p, q | 0 <= p < q < |groups[g].mutants| ensures groups[g].mutants[p].at != groups[g].mutants[q].at {
      assert PlacedAt(groups, g, p, groups[g].mutants[p].at) && PlacedAt(groups, g, q, groups[g].mutants[q].at);
    }
  }

  lemma NaiveNext(tests: seq<TestKey>, profiles: map<TestKey, Profile>, runModule: string, m: Mutant, k: nat)
    requires k < |tests| && forall t :: t in tests ==> t in profiles
    ensures Naive(tests[..k + 1], profiles, runModule, m)
            == Naive(tests[..k], profiles, runModule, m)
               + (if CoversMutant(profiles[tests[k]], runModule, m) then [tests[k]] else [])
  {
    assert tests[..k + 1][..k] == tests[..k];
  }

  /** The files of the module that any profile names. */
  function Matched(tests: seq<TestKey>, profiles: map<TestKey, Profile>, modules: seq<string>): set<string>
    requires forall t :: t in tests ==> t in profiles
  {
    set t, b | t in tests && b in profiles[t] && b.file != "" && UnderModule(b.file, modules) :: b.file
  }

  method IndexAll(tests: seq<TestKey>, profiles: map<TestKey, Profile>, modules: seq<string>)
    returns (indexes: seq<FileIndex>, matched: set<string>)
    requires forall t :: t in tests ==> t in profiles
    ensures IndexesAll(indexes, tests, profiles)
    ensures matched == Matched(tests, profiles, modules)
  {
    indexes, matched := [], {};
    for i := 0 to |tests|
      invariant |indexes| == i
      invariant forall k :: 0 <= k < i ==> Searchable(indexes[k]) && Indexes(indexes[k], profiles[tests[k]])
      invariant matched == Matched(tests[..i], profiles, modules)
    {
      var index: FileIndex;
      assert tests[..i + 1] == tests[..i] + [tests[i]];
      index, matched := NewFileIndex(profiles[tests[i]], modules, matched);
      indexes := indexes + [index];
    }
    assert tests[..|tests|] == tests;
  }

  /** The grouped scan gives every mutant exactly the tests of the plain scan, in the order of the tests. */
  method MapTests(tests: seq<TestKey>, profiles: map<TestKey, Profile>, mutants: seq<Mutant>, runModule: string, modules: seq<string>)
    returns (covering: seq<seq<TestKey>>, uncovered: seq<string>, matched: set<string>)
    requires forall t :: t in tests ==> t in profiles
    ensures |covering| == |mutants| && matched == Matched(tests, profiles, modules)
    ensures forall i :: 0 <= i < |mutants| ==> covering[i] == Naive(tests, profiles, runModule, mutants[i])
    ensures uncovered == Uncovered(mutants, covering)
  {
    var indexes: seq<FileIndex>;
    indexes, matched := IndexAll(tests, profiles, modules);
    var groups := GroupByFile(mutants, runModule);
    covering := seq(|mutants|, _ => []);
    for g := 0 to |groups|
      invariant |covering| == |mutants|
      invariant forall i, h, p :: 0 <= i < |mutants| && 0 <= h < g && PlacedAt(groups, h, p, i) ==>
                  covering[i] == Naive(tests, profiles, runModule, mutants[i])
      invariant forall i, h, p :: 0 <= i < |mutants| && g <= h && PlacedAt(groups, h, p, i) ==> covering[i] == []
    {
      ghost var before := covering;
      covering := ScanGroup(groups, g, tests, profiles, indexes, mutants, runModule, covering);
      forall i, h, p | 0 <= i < |mutants| && h != g && PlacedAt(groups, h, p, i) ensures covering[i] == before[i] {
        forall q ensures !PlacedAt(groups, g, q, i) {}
      }
    }
    forall i | 0 <= i < |mutants| ensures covering[i] == Naive(tests, profiles, runModule, mutants[i]) {
      assert IsPlaced(groups, i);
    }
    uncovered := [];
    assert mutants[..0] == [] && covering[..0] == [];
    for i := 0 to |mutants|
      invariant uncovered == Uncovered(mutants[..i], covering[..i])
    {
      if covering[i] == [] { uncovered := uncovered + [mutants[i].id]; }
      assert mutants[..i + 1][..i] == mutants[..i] && covering[..i + 1][..i] == covering[..i];
    }
    assert mutants[..|mutants|] == mutants && covering[..|mutants|] == covering;
  }

  lemma {:induction false} UncoveredExact(mutants: seq<Mutant>, covering: seq<seq<TestKey>>)
    requires |mutants| == |covering|
    ensures forall id :: id in Uncovered(mutants, covering)
                         <==> exists i :: 0 <= i < |mutants| && mutants[i].id == id && covering[i] == []
    decreases |mutants|
  {
    if mutants != [] { UncoveredExact(mutants[..|mutants| - 1], covering[..|mutants| - 1]); }
  }

  function Uncovered(mutants: seq<Mutant>, covering: seq<seq<TestKey>>): seq<string>
    requires |mutants| == |covering|
  {
    if mutants == [] then []
    else
      var n := |mutants| - 1;
      Uncovered(mutants[..n], covering[..n]) + (if covering[n] == [] then [mutants[n].id] else [])
  }

  /** The mapping per binary asks every index about every mutant. It is the same plain scan. */
  method Map(binaries: seq<TestKey>, profiles: map<TestKey, Profile>, mutants: seq<Mutant>, runModule: string, modules: seq<string>)
    returns (covering: seq<seq<TestKey>>, matched: set<string>)
    requires forall t :: t in binaries ==> t in profiles
    ensures |covering| == |mutants| && matched == Matched(binaries, profiles, modules)
    ensures forall i :: 0 <= i < |mutants| ==> covering[i] == Naive(binaries, profiles, runModule, mutants[i])
  {
    var indexes: seq<FileIndex>;
    indexes, matched := IndexAll(binaries, profiles, modules);
    covering := [];
    for i := 0 to |mutants|
      invariant |covering| == i
      invariant forall j :: 0 <= j < i ==> covering[j] == Naive(binaries, profiles, runModule, mutants[j])
    {
      var path := ProfilePath(runModule, mutants[i]);
      var found: seq<TestKey> := [];
      assert binaries[..0] == [];
      for k := 0 to |binaries|
        invariant found == Naive(binaries[..k], profiles, runModule, mutants[i])
      {
        var hit := IndexCovers(indexes[k], profiles[binaries[k]], path, mutants[i].start, mutants[i].end);
        if hit { found := found + [binaries[k]]; }
        NaiveNext(binaries, profiles, runModule, mutants[i], k);
      }
      assert binaries[..|binaries|] == binaries;
      covering := covering + [found];
    }
  }

  /** A test is listed for a mutant exactly when a block it ran shares a line with the mutant. */
  lemma {:induction false} NaiveIsExact(tests: seq<TestKey>, profiles: map<TestKey, Profile>, runModule: string, m: Mutant, t: TestKey)
    requires forall t :: t in tests ==> t in profiles
    ensures t in Naive(tests, profiles, runModule, m) <==> t in tests && CoversMutant(profiles[t], runModule, m)
    decreases |tests|
  {
    if tests != [] {
      NaiveIsExact(tests[..|tests| - 1], profiles, runModule, m, t);
      assert tests == tests[..|tests| - 1] + [tests[|tests| - 1]];
    }
  }
}
