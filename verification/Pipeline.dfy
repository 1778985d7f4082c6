/** The chain of filters between the catalogue and the report (internal/engine): selection, coverage, probing, cache and
    execution. Every catalogued mutant ends in exactly one place. */
module Pipeline {
  import opened Narrowing
  import Coverage
  import opened Outcomes
  import opened Wrappers

  /** Which stage wrote the result. */
  datatype How = Uncovered | Unobserved | Cached | Executed

  datatype Result = Result(outcome: Outcome, how: How)

  datatype Reason = OutOfSelection | OtherShard | Interrupted

  /** A binary of a probe pass, and the mutants it saw infected; without `infected` the pass did not measure. */
  datatype Pass = Pass(binary: nat, infected: Option<set<string>>)

  datatype Decision = Decision(settled: seq<string>, narrowed: map<string, seq<nat>>)

  datatype Row = Row(id: string, result: Option<Result>, reason: Option<Reason>)

  // ----- settling a probe

  predicate Measured(passes: seq<Pass>, binary: nat) {
    exists p :: p in passes && p.binary == binary && p.infected.Some?
  }

  /** The last measured pass over a binary decides. */
  function Infected(passes: seq<Pass>, binary: nat): set<string> {
    if passes == [] then {}
    else
      var last := passes[|passes| - 1];
      if last.binary == binary && last.infected.Some? then last.infected.value else Infected(passes[..|passes| - 1], binary)
  }

  /** A binary stays unless it was measured and never saw a difference. */
  predicate Stays(passes: seq<Pass>, id: string, binary: nat) {
    !Measured(passes, binary) || id in Infected(passes, binary)
  }

  function Staying(passes: seq<Pass>, id: string, binaries: seq<nat>): seq<nat> {
    if binaries == [] then []
    else
      var n := |binaries| - 1;
      Staying(passes, id, binaries[..n]) + (if Stays(passes, id, binaries[n]) then [binaries[n]] else [])
  }

  lemma {:induction false} StayingExact(passes: seq<Pass>, id: string, binaries: seq<nat>)
    ensures forall b :: b in Staying(passes, id, binaries) <==> b in binaries && Stays(passes, id, b)
    ensures |Staying(passes, id, binaries)| <= |binaries|
    ensures |Staying(passes, id, binaries)| == |binaries| ==> Staying(passes, id, binaries) == binaries
    decreases |binaries|
  {
    if binaries != [] {
      var n := |binaries| - 1;
      StayingExact(passes, id, binaries[..n]);
      assert binaries == binaries[..n] + [binaries[n]];
    }
  }

  /** What a probe can decide about a run. */
  predicate Probes(run: Run, probed: set<string>) { run.id in probed && run.binaries.Some? && run.binaries.value != [] }

  predicate SettlesRun(run: Run, probed: set<string>, passes: seq<Pass>) {
    Probes(run, probed) && forall b :: b in run.binaries.value ==> !Stays(passes, run.id, b)
  }

  /** What settling says about one run. */
  predicate DecidedRun(run: Run, probed: set<string>, passes: seq<Pass>, settled: bool, narrowed: Option<seq<nat>>) {
    && (settled <==> SettlesRun(run, probed, passes))
    && (narrowed.Some? <==> NarrowsRun(run, probed, passes))
    && (narrowed.Some? ==> narrowed.value == Staying(passes, run.id, run.binaries.value))
  }

  /** Some binaries stay and some do not. */
  predicate NarrowsRun(run: Run, probed: set<string>, passes: seq<Pass>) {
    Probes(run, probed) && 0 < |Staying(passes, run.id, run.binaries.value)| < |run.binaries.value|
  }

  function Lookup<T>(m: map<string, T>, id: string): Option<T> { if id in m then Some(m[id]) else None }

  /** The last pass that measured a binary, if any. */
  ghost predicate LastMeasured(passes: seq<Pass>, binary: nat, k: nat) {
    && k < |passes| && passes[k].binary == binary && passes[k].infected.Some?
    && forall i :: k < i < |passes| ==> !(passes[i].binary == binary && passes[i].infected.Some?)
  }

  lemma {:induction false} InfectedExact(passes: seq<Pass>, binary: nat)
    ensures Measured(passes, binary) <==> exists k: nat :: LastMeasured(passes, binary, k)
    ensures forall k: nat :: LastMeasured(passes, binary, k) ==> Infected(passes, binary) == passes[k].infected.value
    decreases |passes|
  {
    if passes != [] {
      var n := |passes| - 1;
      InfectedExact(passes[..n], binary);
      assert passes == passes[..n] + [passes[n]];
      if passes[n].binary == binary && passes[n].infected.Some? {
        assert LastMeasured(passes, binary, n);
      } else {
        forall k: nat ensures LastMeasured(passes, binary, k) <==> LastMeasured(passes[..n], binary, k) {}
      }
    }
  }

  /** The last pass that measured the binary did not see the mutant differ. */
  ghost predicate SawNothing(passes: seq<Pass>, id: string, binary: nat) {
    exists k: nat :: LastMeasured(passes, binary, k) && id !in passes[k].infected.value
  }

  lemma StaysExact(passes: seq<Pass>, id: string, binary: nat)
    ensures Stays(passes, id, binary) <==> !SawNothing(passes, id, binary)
  {
    hide Measured, Infected;
    InfectedExact(passes, binary);
  }

  /** Main result of the probe. A run is settled exactly when it has a probe and binaries of its own, and each of them was
      measured and saw nothing the last time. A run that goes on keeps exactly the binaries that were not measured or saw a
      difference; without a probe it keeps all. */
  lemma SettledExact(q: Run, probed: set<string>, passes: seq<Pass>, bins: seq<string>)
    ensures SettlesRun(q, probed, passes)
            <==> q.id in probed && q.binaries.Some? && q.binaries.value != []
                 && forall b :: b in q.binaries.value ==> SawNothing(passes, q.id, b)
    ensures !SettlesRun(q, probed, passes) && q.id in probed && q.binaries.Some? ==>
              var kept := Goes(q, probed, passes, bins).binaries;
              kept.Some? && forall b :: (b in kept.value <==> b in q.binaries.value && !SawNothing(passes, q.id, b))
    ensures q.id !in probed || q.binaries.None? ==> Goes(q, probed, passes, bins) == q
  {
    hide TestsOf, SawNothing, Stays;
    if q.binaries.Some? {
      forall b: nat ensures Stays(passes, q.id, b) <==> !SawNothing(passes, q.id, b) { StaysExact(passes, q.id, b); }
      StayingExact(passes, q.id, q.binaries.value);
      var keep := Staying(passes, q.id, q.binaries.value);
      if keep != [] { assert keep[0] in keep; }
    }
  }

  /** Probing adds no test to a run. */
  lemma GoesRunsNoMore(q: Run, probed: set<string>, passes: seq<Pass>, bins: seq<string>, t: Coverage.TestKey)
    requires RunsTest(Goes(q, probed, passes, bins), bins, t)
    ensures RunsTest(q, bins, t)
  {
    hide Stays;
    if NarrowsRun(q, probed, passes) { StayingExact(passes, q.id, q.binaries.value); }
  }

  method SettleRun(run: Run, probed: set<string>, passes: seq<Pass>) returns (settled: bool, narrowed: Option<seq<nat>>)
    ensures DecidedRun(run, probed, passes, settled, narrowed) && !(settled && narrowed.Some?)
  {
    settled, narrowed := false, None;
    if run.id !in probed || run.binaries.None? || run.binaries.value == [] { return; }
    var keep := Staying(passes, run.id, run.binaries.value);
    StayingExact(passes, run.id, run.binaries.value);
    if keep == [] {
      settled := true;
      assert forall b :: b in run.binaries.value ==> b !in keep;
    } else {
      assert keep[0] in keep;
      if |keep| < |run.binaries.value| { narrowed := Some(keep); }
    }
  }

  /** A mutant is settled exactly when every binary that covers it was measured and saw no difference; otherwise it is narrowed
      to the binaries that stay. Settled and narrowed mutants are among the runs, and no mutant is both. */
  method Settle(runs: seq<Run>, probed: set<string>, passes: seq<Pass>) returns (d: Decision)
    requires Distinct(runs)
    ensures forall r :: r in runs ==> DecidedRun(r, probed, passes, r.id in d.settled, Lookup(d.narrowed, r.id))
    ensures AsSet(d.settled) + d.narrowed.Keys <= IdSet(runs) && NoDup(d.settled)
  {
    hide DecidedRun, Distinct, IdSet;
    var settled: seq<string>, narrowed: map<string, seq<nat>> := [], map[];
    NoIds(runs);
    for k := 0 to |runs|
      invariant forall i :: 0 <= i < k ==>
                  DecidedRun(runs[i], probed, passes, runs[i].id in settled, Lookup(narrowed, runs[i].id))
      invariant AsSet(settled) + narrowed.Keys <= IdSet(runs[..k]) && NoDup(settled)
    {
      var run := runs[k];
      NextId(runs, k);
      forall i | 0 <= i < k ensures runs[i].id != run.id { DistinctAt(runs, i, k); }
      assert run.id !in AsSet(settled) + narrowed.Keys;
      var settles, keep := SettleRun(run, probed, passes);
      OneMore(settled, run.id);
      if settles { settled := settled + [run.id]; }
      if keep.Some? { narrowed := narrowed[run.id := keep.value]; }
    }
    assert runs[..|runs|] == runs;
    d := Decision(settled, narrowed);
  }

  /** What probing makes of a run that goes on. */
  function Goes(q: Run, probed: set<string>, passes: seq<Pass>, bins: seq<string>): Run {
    if NarrowsRun(q, probed, passes)
    then
      var keep := Staying(passes, q.id, q.binaries.value);
      q.(binaries := Some(keep), tests := TestsOf(q.tests, keep, bins))
    else q
  }

  /** The selected tests of the binaries that stay. */
  function TestsOf(tests: map<string, seq<string>>, binaries: seq<nat>, bins: seq<string>): map<string, seq<string>> {
    map path | path in tests && (exists b :: b in binaries && b < |bins| && bins[b] == path) :: tests[path]
  }

  // ----- runs with distinct mutants

  predicate Distinct(runs: seq<Run>) { forall i, j :: 0 <= i < j < |runs| ==> runs[i].id != runs[j].id }

  lemma NoIds(runs: seq<Run>)
    ensures IdSet(runs[..0]) == {} == IdSet([]) && Distinct([])
  {
    assert runs[..0] == [];
  }

  lemma DistinctAt(runs: seq<Run>, i: nat, k: nat)
    requires Distinct(runs) && i < k < |runs|
    ensures runs[i].id != runs[k].id
  {
  }

  lemma NextId(runs: seq<Run>, k: nat)
    requires Distinct(runs) && k < |runs|
    ensures runs[k].id !in IdSet(runs[..k]) && IdSet(runs[..k + 1]) == IdSet(runs[..k]) + {runs[k].id}
    ensures IdSet(runs[..k + 1]) <= IdSet(runs)
  {
    assert runs[..k + 1] == runs[..k] + [runs[k]];
    forall r | r in runs[..k] ensures r.id != runs[k].id {}
  }

  lemma Longer(kept: seq<Run>, r: Run)
    requires Distinct(kept) && r.id !in IdSet(kept)
    ensures Distinct(kept + [r]) && IdSet(kept + [r]) == IdSet(kept) + {r.id}
  {
    forall i | 0 <= i < |kept| ensures kept[i].id != r.id { assert kept[i] in kept; }
  }

  predicate NoDup(ids: seq<string>) { forall i, j :: 0 <= i < j < |ids| ==> ids[i] != ids[j] }

  function AsSet(ids: seq<string>): set<string> { set id | id in ids }

  lemma NextOne(ids: seq<string>, k: nat)
    requires NoDup(ids) && k < |ids|
    ensures ids[k] !in AsSet(ids[..k]) && AsSet(ids[..k + 1]) == AsSet(ids[..k]) + {ids[k]} && AsSet(ids[..k + 1]) <= AsSet(ids)
  {
    assert ids[..k + 1] == ids[..k] + [ids[k]];
  }

  lemma OneMore(ids: seq<string>, id: string)
    requires NoDup(ids) && id !in AsSet(ids)
    ensures NoDup(ids + [id]) && AsSet(ids + [id]) == AsSet(ids) + {id}
  {
  }

  lemma {:induction false} DistinctCounts(runs: seq<Run>)
    requires Distinct(runs)
    ensures forall id :: Ids(runs)[id] <= 1
    decreases |runs|
  {
    if runs != [] {
      var n := |runs| - 1;
      DistinctCounts(runs[..n]);
      NextId(runs, n);
      IdsMembers(runs[..n]);
    }
  }

  lemma {:induction false} CountsDistinct(runs: seq<Run>)
    requires forall id :: Ids(runs)[id] <= 1
    ensures Distinct(runs)
    decreases |runs|
  {
    if runs != [] {
      var n := |runs| - 1;
      forall id ensures Ids(runs[..n])[id] <= 1 { assert Ids(runs[..n])[id] <= Ids(runs)[id]; }
      CountsDistinct(runs[..n]);
      IdsMembers(runs[..n]);
      assert runs[n].id !in IdSet(runs[..n]) by { assert Ids(runs)[runs[n].id] == Ids(runs[..n])[runs[n].id] + 1; }
      Longer(runs[..n], runs[n]);
      assert runs == runs[..n] + [runs[n]];
    }
  }

  // ----- results, stage by stage

  function All(ids: seq<string>, result: Result): (m: map<string, Result>)
    ensures m.Keys == AsSet(ids) && forall id :: id in m ==> m[id] == result
  {
    if ids == [] then map[]
    else
      assert ids == ids[..|ids| - 1] + [ids[|ids| - 1]];
      All(ids[..|ids| - 1], result)[ids[|ids| - 1] := result]
  }

  lemma NothingYet(before: map<string, Result>, ids: seq<string>, result: Result)
    ensures before + All(ids[..0], result) == before
  {
    assert ids[..0] == [];
  }

  lemma NextWrite(before: map<string, Result>, ids: seq<string>, k: nat, result: Result)
    requires NoDup(ids) && k < |ids| && AsSet(ids) !! before.Keys
    ensures ids[k] !in before + All(ids[..k], result)
    ensures (before + All(ids[..k], result))[ids[k] := result] == before + All(ids[..k + 1], result)
  {
    hide NoDup, AsSet, All;
    NextOne(ids, k);
    AllNext(ids, k, result);
    PutLast(before, All(ids[..k], result), ids[k], result);
  }

  lemma AllNext(ids: seq<string>, k: nat, result: Result)
    requires k < |ids|
    ensures All(ids[..k + 1], result) == All(ids[..k], result)[ids[k] := result]
  {
    hide AsSet;
    assert ids[..k + 1][..k] == ids[..k];
  }

  lemma PutLast(before: map<string, Result>, m: map<string, Result>, id: string, r: Result)
    ensures (before + m)[id := r] == before + m[id := r]
  {
  }

  lemma NextHit(before: map<string, Result>, runs: seq<Run>, k: nat, expected: set<string>, lookup: string -> Option<Outcome>)
    requires Distinct(runs) && k < |runs| && IdSet(runs) !! before.Keys
    ensures runs[k].id !in before + Hits(runs[..k], expected, lookup)
    ensures var found := Found(expected, lookup, runs[k].id);
            before + Hits(runs[..k + 1], expected, lookup)
            == if found.None? then before + Hits(runs[..k], expected, lookup)
               else (before + Hits(runs[..k], expected, lookup))[runs[k].id := Result(found.value, Cached)]
    ensures Misses(runs[..k + 1], expected, lookup)
            == Misses(runs[..k], expected, lookup) + (if Found(expected, lookup, runs[k].id).None? then [runs[k]] else [])
  {
    hide Found, IdSet, Distinct;
    NextId(runs, k);
    assert runs[..k + 1][..k] == runs[..k];
    var found := Found(expected, lookup, runs[k].id);
    if found.Some? { PutLast(before, Hits(runs[..k], expected, lookup), runs[k].id, Result(found.value, Cached)); }
  }

  lemma NoHits(before: map<string, Result>, runs: seq<Run>, expected: set<string>, lookup: string -> Option<Outcome>)
    ensures before + Hits(runs[..0], expected, lookup) == before && Misses(runs[..0], expected, lookup) == []
  {
    assert runs[..0] == [];
  }

  lemma LastRun(runs: seq<Run>)
    requires Distinct(runs) && runs != []
    ensures var n := |runs| - 1;
            Distinct(runs[..n]) && runs[n].id !in IdSet(runs[..n]) && IdSet(runs) == IdSet(runs[..n]) + {runs[n].id}
  {
    var n := |runs| - 1;
    assert runs == runs[..n] + [runs[n]];
  }

  lemma {:induction false} MissesExact(runs: seq<Run>, expected: set<string>, lookup: string -> Option<Outcome>)
    requires Distinct(runs)
    ensures var m, h := Misses(runs, expected, lookup), Hits(runs, expected, lookup);
            Distinct(m) && IdSet(m) + h.Keys == IdSet(runs) && IdSet(m) !! h.Keys
    decreases |runs|
  {
    hide Found, Distinct, IdSet;
    NoIds(runs);
    if runs != [] {
      var n := |runs| - 1;
      LastRun(runs);
      MissesExact(runs[..n], expected, lookup);
      var found := Found(expected, lookup, runs[n].id);
      var m, h := Misses(runs[..n], expected, lookup), Hits(runs[..n], expected, lookup);
      if found.None? {
        Longer(m, runs[n]);
        assert Misses(runs, expected, lookup) == m + [runs[n]] && Hits(runs, expected, lookup) == h;
      } else {
        assert Misses(runs, expected, lookup) == m && Hits(runs, expected, lookup).Keys == h.Keys + {runs[n].id};
      }
    }
  }

  lemma {:induction false} MissesMembers(runs: seq<Run>, expected: set<string>, lookup: string -> Option<Outcome>)
    ensures forall r :: r in Misses(runs, expected, lookup) <==> r in runs && Found(expected, lookup, r.id).None?
    decreases |runs|
  {
    if runs != [] {
      var n := |runs| - 1;
      MissesMembers(runs[..n], expected, lookup);
      assert runs == runs[..n] + [runs[n]];
    }
  }

  /** The cached results of the runs that hit. */
  function Hits(runs: seq<Run>, expected: set<string>, lookup: string -> Option<Outcome>): (m: map<string, Result>)
    ensures forall id :: id in m <==> id in IdSet(runs) && Found(expected, lookup, id).Some?
    ensures forall id :: id in m ==> m[id] == Result(Found(expected, lookup, id).value, Cached)
  {
    if runs == [] then map[]
    else
      var last := runs[|runs| - 1];
      assert runs == runs[..|runs| - 1] + [last];
      var found := Found(expected, lookup, last.id);
      var before := Hits(runs[..|runs| - 1], expected, lookup);
      if found.None? then before else before[last.id := Result(found.value, Cached)]
  }

  class Engine {
    var results: map<string, Result>
    var notRun: map<string, Reason>

    constructor ()
      ensures results == map[] && notRun == map[]
    {
      results, notRun := map[], map[];
    }

    /** A result is written for a mutant that has none. */
    method Write(id: string, result: Result)
      requires id !in results
      modifies this`results
      ensures results == old(results)[id := result]
    {
      results := results[id := result];
    }

    /** Every selected mutant has its result, or is still to be measured, once. */
    predicate Balanced(selected: set<string>, runs: seq<Run>)
      reads this
    {
      Distinct(runs) && selected == results.Keys + IdSet(runs) && results.Keys !! IdSet(runs)
    }

    method RecordAll(ids: seq<string>, result: Result)
      requires NoDup(ids) && AsSet(ids) !! results.Keys
      modifies this`results
      ensures results == old(results) + All(ids, result)
    {
      hide All, NoDup, AsSet;
      NothingYet(results, ids, result);
      for k := 0 to |ids|
        invariant results == old(results) + All(ids[..k], result)
      {
        NextWrite(old(results), ids, k, result);
        Write(ids[k], result);
      }
      assert ids[..|ids|] == ids;
    }

    /** The mutants to measure, and a reason for each accepted one that is not. */
    method Selection(accepted: seq<string>, chosen: Option<string>, touched: Option<set<string>>, owned: Option<set<string>>)
      returns (runs: seq<Run>)
      requires results == map[] && notRun == map[] && NoDup(accepted)
      modifies this`notRun
      ensures Balanced(IdSet(runs), runs) && forall r :: r in runs ==> Unnarrowed(r)
      ensures forall id :: id in IdSet(runs) <==> id in accepted && Picked(chosen, touched, owned, id)
      ensures forall id :: id in notRun <==> id in accepted && !Picked(chosen, touched, owned, id)
      ensures forall id :: id in notRun ==>
                notRun[id] == if owned.Some? && id !in owned.value then OtherShard else OutOfSelection
    {
      hide Distinct, IdSet, Picked;
      runs := [];
      NoIds(runs);
      for k := 0 to |accepted|
        invariant Distinct(runs) && forall r :: r in runs ==> Unnarrowed(r)
        invariant forall id :: id in IdSet(runs) <==> id in accepted[..k] && Picked(chosen, touched, owned, id)
        invariant forall id :: id in notRun <==> id in accepted[..k] && !Picked(chosen, touched, owned, id)
        invariant forall id :: id in notRun ==>
                    notRun[id] == if owned.Some? && id !in owned.value then OtherShard else OutOfSelection
      {
        var id := accepted[k];
        assert accepted[..k + 1] == accepted[..k] + [id] && id !in accepted[..k];
        if Picked(chosen, touched, owned, id) {
          Longer(runs, Run(id, None, map[]));
          runs := runs + [Run(id, None, map[])];
        } else {
          notRun := notRun[id := if owned.Some? && id !in owned.value then OtherShard else OutOfSelection];
        }
      }
      assert accepted[..|accepted|] == accepted;
    }

    /** Coverage: the dropped mutants survive without a run. */
    method Cover(ghost selected: set<string>, ghost runs: seq<Run>, ghost covered: seq<Run>, uncovered: seq<string>)
      requires Balanced(selected, runs) && Ids(runs) == Ids(covered) + multiset(uncovered)
      modifies this`results
      ensures Balanced(selected, covered)
      ensures results == old(results) + All(uncovered, Result(Survived, Uncovered))
    {
      SplitIds(runs, covered, uncovered);
      RecordAll(uncovered, Result(Survived, Uncovered));
    }

    /** Probing: settled mutants survive without a run, the others keep the binaries that can tell. */
    method ApplyProbe(ghost selected: set<string>, runs: seq<Run>, d: Decision, bins: seq<string>) returns (kept: seq<Run>)
      requires Balanced(selected, runs) && AsSet(d.settled) <= IdSet(runs) && NoDup(d.settled)
      modifies this`results
      ensures Balanced(selected, kept)
      ensures results == old(results) + All(d.settled, Result(Survived, Unobserved))
      ensures forall r :: r in kept ==> exists q :: q in runs && q.id !in d.settled && ProbedAs(q, r, d, bins)
      ensures forall q :: q in runs && q.id !in d.settled ==> ProbedRun(q, d, bins) in kept
    {
      hide Distinct, IdSet, ProbedAs, All, NoDup;
      kept := [];
      NoIds(runs);
      for k := 0 to |runs|
        invariant results == old(results)
        invariant Distinct(kept) && IdSet(kept) == IdSet(runs[..k]) - AsSet(d.settled)
        invariant forall r :: r in kept ==> exists q :: q in runs && q.id !in d.settled && ProbedAs(q, r, d, bins)
        invariant forall i :: 0 <= i < k && runs[i].id !in d.settled ==> ProbedRun(runs[i], d, bins) in kept
      {
        var run := runs[k];
        NextId(runs, k);
        assert run in runs;
        if run.id !in d.settled {
          var r := ProbedRun(run, d, bins);
          Longer(kept, r);
          kept := kept + [r];
        }
      }
      assert runs[..|runs|] == runs;
      RecordAll(d.settled, Result(Survived, Unobserved));
    }

    /** The cache: a hit is adopted, everything else has to be measured; an expected mutant always is. */
    method CachePhase(ghost selected: set<string>, runs: seq<Run>, enabled: bool, expected: set<string>,
                      lookup: string -> Option<Outcome>)
      returns (misses: seq<Run>)
      requires Balanced(selected, runs)
      modifies this`results
      ensures Balanced(selected, misses)
      ensures misses == if enabled then Misses(runs, expected, lookup) else runs
      ensures results == if enabled then old(results) + Hits(runs, expected, lookup) else old(results)
    {
      if !enabled { return runs; }
      hide Distinct, IdSet, Found, Hits, Misses;
      ghost var before := results;
      misses := Adopt(runs, expected, lookup);
      MissesExact(runs, expected, lookup);
      assert results.Keys == before.Keys + Hits(runs, expected, lookup).Keys;
    }

    method Adopt(runs: seq<Run>, expected: set<string>, lookup: string -> Option<Outcome>) returns (misses: seq<Run>)
      requires Distinct(runs) && IdSet(runs) !! results.Keys
      modifies this`results
      ensures misses == Misses(runs, expected, lookup)
      ensures results == old(results) + Hits(runs, expected, lookup)
    {
      hide Distinct, IdSet, Found, Hits, Misses;
      misses := [];
      NoHits(results, runs, expected, lookup);
      for k := 0 to |runs|
        invariant misses == Misses(runs[..k], expected, lookup)
        invariant results == old(results) + Hits(runs[..k], expected, lookup)
      {
        var run := runs[k];
        NextHit(old(results), runs, k, expected, lookup);
        var found := Found(expected, lookup, run.id);
        if found.None? { misses := misses + [run]; } else { Write(run.id, Result(found.value, Cached)); }
      }
      assert runs[..|runs|] == runs;
    }

    /** The scheduler gives one result per run, and each is recorded. */
    method Record(ghost selected: set<string>, runs: seq<Run>, outcomes: seq<Outcome>)
      requires Balanced(selected, runs) && |runs| == |outcomes|
      modifies this`results
      ensures Balanced(selected, [])
      ensures forall id :: id in old(results) ==> id in results && results[id] == old(results)[id]
      ensures forall i :: 0 <= i < |runs| ==> runs[i].id in results && results[runs[i].id] == Result(outcomes[i], Executed)
    {
      hide Distinct, IdSet;
      NoIds(runs);
      for k := 0 to |runs|
        invariant results.Keys == old(results).Keys + IdSet(runs[..k])
        invariant forall id :: id in old(results) ==> id in results && results[id] == old(results)[id]
        invariant forall i :: 0 <= i < k ==> runs[i].id in results && results[runs[i].id] == Result(outcomes[i], Executed)
      {
        NextId(runs, k);
        forall i | 0 <= i < k ensures runs[i].id != runs[k].id { DistinctAt(runs, i, k); }
        Write(runs[k].id, Result(outcomes[k], Executed));
      }
      assert runs[..|runs|] == runs;
    }

    /** The rows are those of the catalogue less the rejections, in the order of the catalogue. */
    method Publish(catalogue: seq<string>, rejected: set<string>) returns (rows: seq<Row>)
      ensures |rows| == |Accepted(catalogue, rejected)|
      ensures forall i :: 0 <= i < |rows| ==> rows[i] == RowOf(Accepted(catalogue, rejected)[i])
      ensures forall row :: row in rows ==>
                && row.id in catalogue && row.id !in rejected
                && row.result == Lookup(results, row.id) && (row.result.None? ==> row.reason.Some?)
                && (row.reason == Some(OtherShard) ==> row.id in notRun)
                && (row.result.None? && row.id in notRun ==> row.reason == Some(notRun[row.id]))
                && (row.result.Some? ==> (row.reason.Some? <==> row.result.value.outcome.NotRun?))
      ensures NoDup(catalogue) ==> |rows| == |AsSet(catalogue) - rejected|
    {
      hide RowOf;
      rows := [];
      assert catalogue[..0] == [];
      for k := 0 to |catalogue|
        invariant |rows| == |Accepted(catalogue[..k], rejected)|
        invariant forall i :: 0 <= i < |rows| ==> rows[i] == RowOf(Accepted(catalogue[..k], rejected)[i])
      {
        var id := catalogue[k];
        assert catalogue[..k + 1][..k] == catalogue[..k];
        if id !in rejected { rows := rows + [RowOf(id)]; }
      }
      assert catalogue[..|catalogue|] == catalogue;
      if NoDup(catalogue) { AcceptedCount(catalogue, rejected); }
      AcceptedMembers(catalogue, rejected);
      forall row | row in rows ensures row.id in catalogue && row.id !in rejected && row == RowOf(row.id) {
        var i :| 0 <= i < |rows| && rows[i] == row;
        IdOfRow(Accepted(catalogue, rejected)[i]);
      }
      RowsSay();
    }

    /** A mutant without a result was not run, for the recorded reason or because the run was interrupted. */
    function RowOf(id: string): Row
      reads this
    {
      if id in results then Row(id, Some(results[id]), if results[id].outcome.NotRun? then Some(Interrupted) else None)
      else Row(id, None, Some(if id in notRun then notRun[id] else Interrupted))
    }

    lemma IdOfRow(id: string)
      ensures RowOf(id).id == id
    {
    }

    lemma RowsSay()
      ensures forall id :: var row := RowOf(id);
                && row.result == Lookup(results, id) && (row.result.None? ==> row.reason.Some?)
                && (row.reason == Some(OtherShard) ==> id in notRun)
                && (row.result.None? && id in notRun ==> row.reason == Some(notRun[id]))
                && (row.result.Some? ==> (row.reason.Some? <==> row.result.value.outcome.NotRun?))
    {
    }

    /** Probing, cache and execution give every covered run the result of the first of them that settles it. */
    method MeasureCovered(ghost selected: set<string>, covered: seq<Run>, probed: set<string>, passes: seq<Pass>,
                          bins: seq<string>, enabled: bool, expected: set<string>, lookup: string -> Option<Outcome>,
                          schedule: Run -> Outcome)
      requires Balanced(selected, covered)
      modifies this`results
      ensures results.Keys == selected
      ensures forall id :: id in old(results) ==> id in results && results[id] == old(results)[id]
      ensures forall q :: q in covered ==>
                q.id in results && results[q.id] == EndOf(q, probed, passes, bins, enabled, expected, lookup, schedule)
    {
      hide Balanced, IdSet, Distinct, Ids, Hits, Misses, NoDup, ProbedAs, All, AsSet, DecidedRun, EndOf, Found, ProbedRun;
      Apart(selected, covered);
      var d := SettleBalanced(selected, covered, probed, passes);
      var kept := ApplyProbe(selected, covered, d, bins);
      ghost var afterProbe := results;
      Apart(selected, kept);
      var misses := CachePhase(selected, kept, enabled, expected, lookup);
      ghost var afterCache := results;
      Kept(old(results), covered, kept, d, enabled, expected, lookup, afterProbe, afterCache);
      Record(selected, misses, seq(|misses|, i requires 0 <= i < |misses| => schedule(misses[i])));
      AllMeasured(selected);
      AllEnd(covered, d, kept, misses, probed, passes, bins, enabled, expected, lookup, schedule, old(results), afterProbe,
             afterCache, results);
    }

    /** The stages between selection and report give every selected mutant the result of the first stage that settles it. */
    method Measure(runs: seq<Run>, covered: seq<Run>, uncovered: seq<string>, probed: set<string>, passes: seq<Pass>,
                   bins: seq<string>, enabled: bool, expected: set<string>, lookup: string -> Option<Outcome>,
                   schedule: Run -> Outcome)
      requires Balanced(IdSet(runs), runs) && Ids(runs) == Ids(covered) + multiset(uncovered)
      modifies this`results
      ensures results.Keys == IdSet(runs)
      ensures forall id :: id in uncovered ==> id in results && results[id] == Result(Survived, Uncovered)
      ensures forall q :: q in covered ==>
                q.id in results && results[q.id] == EndOf(q, probed, passes, bins, enabled, expected, lookup, schedule)
    {
      hide Balanced, IdSet, Distinct, Ids, All, EndOf;
      Cover(IdSet(runs), runs, covered, uncovered);
      assert forall id :: id in uncovered ==> id in AsSet(uncovered);
      MeasureCovered(IdSet(runs), covered, probed, passes, bins, enabled, expected, lookup, schedule);
    }

    lemma Apart(selected: set<string>, runs: seq<Run>)
      requires Balanced(selected, runs)
      ensures Distinct(runs) && results.Keys !! IdSet(runs)
    {
    }

    /** The whole chain. Every catalogued mutant has exactly one of six ends: it is rejected, it is not run, or it has the one
        result that coverage, probing, the cache or an execution wrote; and the report has a row for each one that was not
        rejected. Coverage drops exactly the placed mutants that no test exercises, and every test that exercises a mutant has
        its say on it. `runs` are the runs of the selected mutants, `covered` those that coverage leaves. */
    method Mutate(catalogue: seq<string>, rejected: set<string>, chosen: Option<string>, touched: Option<set<string>>,
                  owned: Option<set<string>>, bins: seq<string>, profiles: Profiles, place: map<string, Coverage.Mutant>,
                  runModule: string, reliable: Plan -> bool, probed: set<string>, passes: seq<Pass>,
                  enabled: bool, expected: set<string>, lookup: string -> Option<Outcome>, schedule: Run -> Outcome)
      returns (rows: seq<Row>, runs: seq<Run>, narrowed: bool, covered: seq<Run>)
      requires results == map[] && notRun == map[] && NoDup(catalogue) && WellProfiled(bins, profiles)
      modifies this
      ensures forall id :: id in catalogue ==> One(id in rejected, id in notRun, id in results)
      ensures forall id :: id in results || id in notRun ==> id in catalogue
      ensures forall id :: id in catalogue && id !in rejected ==>
                (id in results <==> (chosen.None? || chosen == Some(id)) && (touched.None? || id in touched.value)
                                    && (owned.None? || id in owned.value))
      ensures forall id :: id in notRun ==>
                notRun[id] == if owned.Some? && id !in owned.value then OtherShard else OutOfSelection
      ensures results.Keys == IdSet(runs)
      ensures narrowed <==> Narrows(bins, runs, profiles, place, runModule)
      ensures narrowed ==> NothingElse(covered, bins, profiles, place, runModule, reliable)
      ensures !narrowed ==> covered == runs && forall r :: r in runs ==> Unnarrowed(r)
      ensures forall id :: id in results ==>
                if narrowed && id in place && Unexercised(bins, profiles, runModule, place[id])
                then results[id] == Result(Survived, Uncovered)
                else exists q :: q in covered && q.id == id
                                 && results[id] == EndOf(q, probed, passes, bins, enabled, expected, lookup, schedule)
      ensures forall id, t :: id in results && id in place && Exercises(bins, profiles, runModule, place[id], t) ==>
                Heard(results[id], id, bins, t, passes, enabled, expected, lookup, schedule)
      ensures |rows| == |AsSet(catalogue) - rejected| == |Accepted(catalogue, rejected)|
      ensures forall i :: 0 <= i < |rows| ==> rows[i] == RowOf(Accepted(catalogue, rejected)[i])
    {
      hide Balanced, Distinct, Ids, Accepted, NoDup, EndOf, RowOf, WellProfiled, Exercises, Unexercised, Heard, Unnarrowed,
           Tested, IdSet, Narrows, NothingElse;
      var accepted := Accepted(catalogue, rejected);
      AcceptedExact(catalogue, rejected);
      assert forall id :: id in accepted <==> id in AsSet(accepted);
      assert forall id :: id in catalogue <==> id in AsSet(catalogue);
      runs := Selection(accepted, chosen, touched, owned);
      var uncovered: seq<string>;
      narrowed, covered, uncovered := CoveragePhase(bins, runs, profiles, place, runModule, reliable);
      Measure(runs, covered, uncovered, probed, passes, bins, enabled, expected, lookup, schedule);
      rows := Publish(catalogue, rejected);
      AllHeard(runs, covered, uncovered, narrowed, bins, profiles, place, runModule, probed, passes, enabled, expected, lookup,
               schedule, results);
    }

    method SettleBalanced(ghost selected: set<string>, runs: seq<Run>, probed: set<string>, passes: seq<Pass>) returns (d: Decision)
      requires Balanced(selected, runs)
      ensures AsSet(d.settled) <= IdSet(runs) && NoDup(d.settled)
      ensures forall r :: r in runs ==> DecidedRun(r, probed, passes, r.id in d.settled, Lookup(d.narrowed, r.id))
    {
      hide DecidedRun;
      d := Settle(runs, probed, passes);
    }

    lemma AllMeasured(selected: set<string>)
      requires Balanced(selected, [])
      ensures results.Keys == selected
    {
    }
  }

  /** The result of a covered run: the probe's, or the cache's, or that of running what the probe left. */
  function EndOf(q: Run, probed: set<string>, passes: seq<Pass>, bins: seq<string>, enabled: bool, expected: set<string>,
                 lookup: string -> Option<Outcome>, schedule: Run -> Outcome): Result {
    if SettlesRun(q, probed, passes) then Result(Survived, Unobserved)
    else if enabled && Found(expected, lookup, q.id).Some? then Result(Found(expected, lookup, q.id).value, Cached)
    else Result(schedule(Goes(q, probed, passes, bins)), Executed)
  }

  // ----- what a covering test gets to say

  /** A binary of this path was measured and never saw a difference. */
  ghost predicate Silent(passes: seq<Pass>, id: string, bins: seq<string>, path: string) {
    exists b: nat :: b < |bins| && bins[b] == path && !Stays(passes, id, b)
  }

  /** The result is what some run of the mutant gave, and the test was part of that run. */
  ghost predicate RanIn(outcome: Outcome, id: string, bins: seq<string>, t: Coverage.TestKey, schedule: Run -> Outcome) {
    exists g: Run :: g.id == id && outcome == schedule(g) && RunsTest(g, bins, t)
  }

  /** The test had its say on the result: it ran, or the probe saw no difference in its binary, or the cache knew the outcome. */
  ghost predicate Heard(result: Result, id: string, bins: seq<string>, t: Coverage.TestKey, passes: seq<Pass>, enabled: bool,
                        expected: set<string>, lookup: string -> Option<Outcome>, schedule: Run -> Outcome) {
    match result.how
    case Uncovered => false
    case Unobserved => result.outcome == Survived && Silent(passes, id, bins, t.importPath)
    case Cached => enabled && Found(expected, lookup, id) == Some(result.outcome)
    case Executed => Silent(passes, id, bins, t.importPath) || RanIn(result.outcome, id, bins, t, schedule)
  }

  /** A covering test of a covered run is heard. */
  lemma CoveredIsHeard(q: Run, bins: seq<string>, t: Coverage.TestKey, probed: set<string>, passes: seq<Pass>, enabled: bool,
                       expected: set<string>, lookup: string -> Option<Outcome>, schedule: Run -> Outcome)
    requires RunsTest(q, bins, t)
    ensures var end := EndOf(q, probed, passes, bins, enabled, expected, lookup, schedule);
            end.how != Uncovered && Heard(end, q.id, bins, t, passes, enabled, expected, lookup, schedule)
  {
    hide Found, Silent, RunsTest, Goes, SettlesRun;
    GoesOrSilent(q, bins, t, probed, passes);
  }

  lemma GoesOrSilent(q: Run, bins: seq<string>, t: Coverage.TestKey, probed: set<string>, passes: seq<Pass>)
    requires RunsTest(q, bins, t)
    ensures Goes(q, probed, passes, bins).id == q.id
    ensures Silent(passes, q.id, bins, t.importPath)
            || (!SettlesRun(q, probed, passes) && RunsTest(Goes(q, probed, passes, bins), bins, t))
  {
    hide Stays;
    if q.binaries.Some? {
      var b :| b in q.binaries.value && b < |bins| && bins[b] == t.importPath;
      if Stays(passes, q.id, b) {
        StayingExact(passes, q.id, q.binaries.value);
        assert RunsTest(Goes(q, probed, passes, bins), bins, t);
      } else {
        assert Silent(passes, q.id, bins, t.importPath);
      }
    }
  }

  /** Every selected mutant ends as coverage and the later stages say, and every test that exercises it is heard. */
  lemma AllHeard(runs: seq<Run>, covered: seq<Run>, uncovered: seq<string>, narrowed: bool, bins: seq<string>, profiles: Profiles,
                 place: map<string, Coverage.Mutant>, runModule: string, probed: set<string>, passes: seq<Pass>, enabled: bool,
                 expected: set<string>, lookup: string -> Option<Outcome>, schedule: Run -> Outcome, results: map<string, Result>)
    requires results.Keys == IdSet(runs) && Ids(runs) == Ids(covered) + multiset(uncovered)
    requires forall r, t :: r in runs && r.id in place && Exercises(bins, profiles, runModule, place[r.id], t) ==>
               Tested(covered, r.id, bins, t)
    requires forall r :: r in runs ==>
               (r.id in uncovered <==> narrowed && r.id in place && Unexercised(bins, profiles, runModule, place[r.id]))
    requires forall id :: id in uncovered ==> id in results && results[id] == Result(Survived, Uncovered)
    requires forall q :: q in covered ==>
               q.id in results && results[q.id] == EndOf(q, probed, passes, bins, enabled, expected, lookup, schedule)
    ensures forall id :: id in results ==>
              if narrowed && id in place && Unexercised(bins, profiles, runModule, place[id])
              then results[id] == Result(Survived, Uncovered)
              else exists q :: q in covered && q.id == id
                               && results[id] == EndOf(q, probed, passes, bins, enabled, expected, lookup, schedule)
    ensures forall id, t :: id in results && id in place && Exercises(bins, profiles, runModule, place[id], t) ==>
              Heard(results[id], id, bins, t, passes, enabled, expected, lookup, schedule)
  {
    hide Ids, EndOf, Exercises, Unexercised, Heard, RunsTest;
    IdsMembers(runs);
    IdsMembers(covered);
    forall id | id in results && id !in uncovered
      ensures exists q :: q in covered && q.id == id
                          && results[id] == EndOf(q, probed, passes, bins, enabled, expected, lookup, schedule)
    {
      assert id in Ids(runs) && id in Ids(covered);
    }
    forall id, t | id in results && id in place && Exercises(bins, profiles, runModule, place[id], t)
      ensures Heard(results[id], id, bins, t, passes, enabled, expected, lookup, schedule)
    {
      var r :| r in runs && r.id == id;
      var q :| q in covered && q.id == id && RunsTest(q, bins, t);
      CoveredIsHeard(q, bins, t, probed, passes, enabled, expected, lookup, schedule);
    }
  }

  /** Which stage decides: a probe that settles, then an enabled cache that knows a mutant nobody expects to fail, then running
      what is left. */
  lemma EndOfExact(q: Run, probed: set<string>, passes: seq<Pass>, bins: seq<string>, enabled: bool, expected: set<string>,
                   lookup: string -> Option<Outcome>, schedule: Run -> Outcome)
    ensures EndOf(q, probed, passes, bins, enabled, expected, lookup, schedule)
            == if SettlesRun(q, probed, passes) then Result(Survived, Unobserved)
               else if enabled && q.id !in expected && lookup(q.id).Some? then Result(lookup(q.id).value, Cached)
               else Result(schedule(Goes(q, probed, passes, bins)), Executed)
  {
    hide SettlesRun, Goes;
  }

  /** What was written before stays. */
  lemma Kept(before: map<string, Result>, covered: seq<Run>, kept: seq<Run>, d: Decision, enabled: bool, expected: set<string>,
             lookup: string -> Option<Outcome>, afterProbe: map<string, Result>, afterCache: map<string, Result>)
    requires before.Keys !! IdSet(covered) && AsSet(d.settled) <= IdSet(covered)
    requires afterProbe == before + All(d.settled, Result(Survived, Unobserved)) && afterProbe.Keys !! IdSet(kept)
    requires afterCache == if enabled then afterProbe + Hits(kept, expected, lookup) else afterProbe
    ensures forall id :: id in before ==> id in afterCache && afterCache[id] == before[id]
  {
    hide IdSet, All, Hits, Found;
  }

  /** The first stage that settles a covered run writes its result, and it stays. */
  lemma CoveredEnds(q: Run, d: Decision, kept: seq<Run>, misses: seq<Run>, probed: set<string>, passes: seq<Pass>, bins: seq<string>,
                    enabled: bool, expected: set<string>, lookup: string -> Option<Outcome>, schedule: Run -> Outcome,
                    afterCover: map<string, Result>, afterProbe: map<string, Result>, afterCache: map<string, Result>,
                    after: map<string, Result>)
    requires DecidedRun(q, probed, passes, q.id in d.settled, Lookup(d.narrowed, q.id))
    requires q.id !in d.settled ==> ProbedRun(q, d, bins) in kept
    requires afterProbe == afterCover + All(d.settled, Result(Survived, Unobserved)) && afterProbe.Keys !! IdSet(kept) && Distinct(kept)
    requires misses == if enabled then Misses(kept, expected, lookup) else kept
    requires afterCache == if enabled then afterProbe + Hits(kept, expected, lookup) else afterProbe
    requires forall id :: id in afterCache ==> id in after && after[id] == afterCache[id]
    requires forall i :: 0 <= i < |misses| ==>
               misses[i].id in after && after[misses[i].id] == Result(schedule(misses[i]), Executed)
    ensures q.id in after && after[q.id] == EndOf(q, probed, passes, bins, enabled, expected, lookup, schedule)
  {
    hide IdSet, Distinct, All, Hits, Misses, Found, ProbedRun, Goes, NarrowsRun, SettlesRun, ProbedAs, AsSet;
    if q.id in d.settled {
      SettledStays(q.id, d.settled, kept, expected, lookup, afterCover, afterProbe);
    } else {
      ProbedGoes(q, probed, passes, d, bins);
      MissesMembers(kept, expected, lookup);
      IsAmong(kept, ProbedRun(q, d, bins));
    }
  }

  lemma AllEnd(covered: seq<Run>, d: Decision, kept: seq<Run>, misses: seq<Run>, probed: set<string>, passes: seq<Pass>,
               bins: seq<string>, enabled: bool, expected: set<string>, lookup: string -> Option<Outcome>, schedule: Run -> Outcome,
               before: map<string, Result>, afterProbe: map<string, Result>, afterCache: map<string, Result>,
               after: map<string, Result>)
    requires forall q :: q in covered ==> DecidedRun(q, probed, passes, q.id in d.settled, Lookup(d.narrowed, q.id))
    requires forall q :: q in covered && q.id !in d.settled ==> ProbedRun(q, d, bins) in kept
    requires afterProbe == before + All(d.settled, Result(Survived, Unobserved)) && afterProbe.Keys !! IdSet(kept) && Distinct(kept)
    requires misses == if enabled then Misses(kept, expected, lookup) else kept
    requires afterCache == if enabled then afterProbe + Hits(kept, expected, lookup) else afterProbe
    requires forall id :: id in afterCache ==> id in after && after[id] == afterCache[id]
    requires forall i :: 0 <= i < |misses| ==>
               misses[i].id in after && after[misses[i].id] == Result(schedule(misses[i]), Executed)
    ensures forall q :: q in covered ==>
              q.id in after && after[q.id] == EndOf(q, probed, passes, bins, enabled, expected, lookup, schedule)
  {
    hide IdSet, Distinct, All, Hits, Misses, Found, ProbedRun, AsSet, DecidedRun, EndOf;
    forall q | q in covered
      ensures q.id in after && after[q.id] == EndOf(q, probed, passes, bins, enabled, expected, lookup, schedule)
    {
      CoveredEnds(q, d, kept, misses, probed, passes, bins, enabled, expected, lookup, schedule, before, afterProbe,
                  afterCache, after);
    }
  }

  lemma SettledStays(id: string, settled: seq<string>, kept: seq<Run>, expected: set<string>, lookup: string -> Option<Outcome>,
                     afterCover: map<string, Result>, afterProbe: map<string, Result>)
    requires id in settled && afterProbe == afterCover + All(settled, Result(Survived, Unobserved)) && afterProbe.Keys !! IdSet(kept)
    ensures id in afterProbe && afterProbe[id] == Result(Survived, Unobserved) && id !in Hits(kept, expected, lookup)
  {
    hide IdSet, All, Hits, Found;
    assert id in AsSet(settled);
  }

  lemma IsAmong(runs: seq<Run>, r: Run)
    requires r in runs
    ensures r.id in IdSet(runs) && exists i :: 0 <= i < |runs| && runs[i] == r
  {
  }

  /** Exactly one of three. */
  predicate One(a: bool, b: bool, c: bool) { (a && !b && !c) || (!a && b && !c) || (!a && !b && c) }

  predicate Picked(chosen: Option<string>, touched: Option<set<string>>, owned: Option<set<string>>, id: string) {
    (chosen.None? || chosen.value == id) && (touched.None? || id in touched.value) && (owned.None? || id in owned.value)
  }

  function Found(expected: set<string>, lookup: string -> Option<Outcome>, id: string): Option<Outcome> {
    if id in expected then None else lookup(id)
  }

  /** The runs the cache cannot answer. */
  function Misses(runs: seq<Run>, expected: set<string>, lookup: string -> Option<Outcome>): seq<Run> {
    if runs == [] then []
    else
      var n := |runs| - 1;
      Misses(runs[..n], expected, lookup) + (if Found(expected, lookup, runs[n].id).None? then [runs[n]] else [])
  }

  /** How probing changes a run that goes on. */
  predicate ProbedAs(q: Run, r: Run, d: Decision, bins: seq<string>) {
    if q.id in d.narrowed
    then r == q.(binaries := Some(d.narrowed[q.id]), tests := TestsOf(q.tests, d.narrowed[q.id], bins))
    else r == q
  }

  function ProbedRun(q: Run, d: Decision, bins: seq<string>): (r: Run)
    ensures ProbedAs(q, r, d, bins) && r.id == q.id
  {
    if q.id in d.narrowed
    then q.(binaries := Some(d.narrowed[q.id]), tests := TestsOf(q.tests, d.narrowed[q.id], bins))
    else q
  }

  lemma ProbedGoes(q: Run, probed: set<string>, passes: seq<Pass>, d: Decision, bins: seq<string>)
    requires DecidedRun(q, probed, passes, q.id in d.settled, Lookup(d.narrowed, q.id))
    ensures ProbedRun(q, d, bins) == Goes(q, probed, passes, bins)
  {
  }

  /** A test that ran still runs, unless its binary was measured and saw no difference. */
  lemma ProbingKeepsTests(q: Run, r: Run, probed: set<string>, passes: seq<Pass>, d: Decision, bins: seq<string>, t: Coverage.TestKey, b: nat)
    requires DecidedRun(q, probed, passes, q.id in d.settled, Lookup(d.narrowed, q.id)) && q.id !in d.settled
    requires ProbedAs(q, r, d, bins) && RunsTest(q, bins, t)
    requires q.binaries.Some? && b in q.binaries.value && b < |bins| && bins[b] == t.importPath && Stays(passes, q.id, b)
    ensures RunsTest(r, bins, t)
  {
    if q.id in d.narrowed { StayingExact(passes, q.id, q.binaries.value); }
  }

  /** The catalogue less the rejections. */
  function Accepted(catalogue: seq<string>, rejected: set<string>): seq<string> {
    if catalogue == [] then []
    else
      var n := |catalogue| - 1;
      Accepted(catalogue[..n], rejected) + (if catalogue[n] in rejected then [] else [catalogue[n]])
  }

  lemma {:induction false} AcceptedExact(catalogue: seq<string>, rejected: set<string>)
    requires NoDup(catalogue)
    ensures AsSet(Accepted(catalogue, rejected)) == AsSet(catalogue) - rejected && NoDup(Accepted(catalogue, rejected))
    decreases |catalogue|
  {
    if catalogue != [] {
      var n := |catalogue| - 1;
      AcceptedExact(catalogue[..n], rejected);
      NextOne(catalogue, n);
      assert catalogue[..n + 1] == catalogue;
      if catalogue[n] in rejected { assert Accepted(catalogue, rejected) == Accepted(catalogue[..n], rejected); }
      if catalogue[n] !in rejected { OneMore(Accepted(catalogue[..n], rejected), catalogue[n]); }
    }
  }

  lemma {:induction false} AcceptedMembers(catalogue: seq<string>, rejected: set<string>)
    ensures forall id :: id in Accepted(catalogue, rejected) <==> id in catalogue && id !in rejected
    decreases |catalogue|
  {
    if catalogue != [] {
      var n := |catalogue| - 1;
      AcceptedMembers(catalogue[..n], rejected);
      assert catalogue == catalogue[..n] + [catalogue[n]];
    }
  }

  lemma AcceptedCount(catalogue: seq<string>, rejected: set<string>)
    requires NoDup(catalogue)
    ensures |Accepted(catalogue, rejected)| == |AsSet(catalogue) - rejected|
  {
    hide Accepted, NoDup, AsSet;
    AcceptedExact(catalogue, rejected);
    DistinctSize(Accepted(catalogue, rejected));
  }

  lemma {:induction false} DistinctSize(ids: seq<string>)
    requires NoDup(ids)
    ensures |AsSet(ids)| == |ids|
    decreases |ids|
  {
    if ids != [] {
      var n := |ids| - 1;
      DistinctSize(ids[..n]);
      NextOne(ids, n);
      assert ids[..n + 1] == ids;
    }
  }

  /** A partition of distinct runs keeps them distinct. */
  lemma SplitIds(runs: seq<Run>, covered: seq<Run>, uncovered: seq<string>)
    requires Distinct(runs) && Ids(runs) == Ids(covered) + multiset(uncovered)
    ensures Distinct(covered) && NoDup(uncovered)
    ensures IdSet(runs) == IdSet(covered) + AsSet(uncovered) && IdSet(covered) !! AsSet(uncovered)
  {
    hide Distinct, IdSet, Ids, NoDup;
    DistinctCounts(runs);
    IdsMembers(runs);
    IdsMembers(covered);
    forall id ensures Ids(covered)[id] + multiset(uncovered)[id] <= 1 { assert Ids(runs)[id] <= 1; }
    CountsDistinct(covered);
    OnceEach(uncovered);
    forall id ensures id in IdSet(runs) <==> id in IdSet(covered) || id in AsSet(uncovered) {
      assert id in uncovered <==> id in multiset(uncovered);
    }
    forall id | id in AsSet(uncovered) ensures id !in IdSet(covered) { assert id in multiset(uncovered); }
  }

  lemma OnceEach(ids: seq<string>)
    requires forall id :: multiset(ids)[id] <= 1
    ensures NoDup(ids)
  {
    forall i, j | 0 <= i < j < |ids| ensures ids[i] != ids[j] {
      assert ids == ids[..j] + ids[j..];
      assert ids[i] in ids[..j] && ids[j] in ids[j..];
      assert multiset(ids)[ids[j]] == multiset(ids[..j])[ids[j]] + multiset(ids[j..])[ids[j]];
    }
  }
}
