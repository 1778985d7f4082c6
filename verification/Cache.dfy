/** The outcome cache (internal/cache/store.go): when a recorded outcome may stand in for measuring a mutant again under
    another timeout and another memory bound. */
module Cache {
  import opened Outcomes

  // ----- measuring a mutant

  /** How a process ends when nothing stops it: with a verdict, by a counted loop running over its limit, or never. */
  datatype End = Passes | Fails | Diverges | Never

  /** The truth about one test process: it would end after `finish` milliseconds, and has needed `memory(t)` bytes by time
      `t`. */
  datatype Process = Process(end: End, finish: nat, memory: nat -> nat)
  {
    /** Memory once needed counts for good. */
    ghost predicate Monotone() { forall s, t :: s <= t ==> memory(s) <= memory(t) }

    predicate InTime(timeout: int) { !end.Never? && finish <= timeout }

    /** The last moment of the process under a timeout. */
    function Stop(timeout: nat): nat { if InTime(timeout) then finish else timeout }

    /** The memory bound is looked at before the timeout and before the exit status. */
    predicate OverBound(timeout: nat, limit: int) { limit > 0 && memory(Stop(timeout)) > limit }
  }

  /** The first time the memory is above the bound. */
  function Crossing(memory: nat -> nat, limit: int, t: nat): nat
    decreases t
  {
    if t == 0 || memory(t - 1) <= limit then t else Crossing(memory, limit, t - 1)
  }

  datatype Attempt = Attempt(outcome: Outcome, duration: nat, peak: nat, memoryExceeded: bool, diverged: bool)

  function Max(a: nat, b: nat): nat { if a >= b then a else b }

  /** A bound settles only a kill, a counted loop only a timeout. */
  predicate Possible(a: Attempt) {
    && (a.outcome.Killed? || a.outcome.Survived? || a.outcome.TimedOut?)
    && (a.memoryExceeded ==> a.outcome.Killed?) && (a.diverged ==> a.outcome.TimedOut?)
  }

  function RunProcess(p: Process, timeout: nat, limit: int): (a: Attempt)
    ensures Possible(a) && (a.memoryExceeded ==> limit > 0)
  {
    var stop := p.Stop(timeout);
    if p.OverBound(timeout, limit) then
      var t := Crossing(p.memory, limit, stop);
      Attempt(Killed, t, p.memory(t), true, false)
    else if !p.InTime(timeout) then Attempt(TimedOut, timeout, p.memory(stop), false, false)
    else
      match p.end
      case Passes => Attempt(Survived, p.finish, p.memory(stop), false, false)
      case Fails => Attempt(Killed, p.finish, p.memory(stop), false, false)
      case _ => Attempt(TimedOut, p.finish, p.memory(stop), false, true)
  }

  /** One binary after the other, until one does not survive. */
  function RunPass(ps: seq<Process>, timeout: nat, limit: int): (a: Attempt)
    ensures Possible(a) && (a.memoryExceeded ==> limit > 0)
  {
    if ps == [] then Attempt(Survived, 0, 0, false, false)
    else
      var first := RunProcess(ps[0], timeout, limit);
      if !first.outcome.Survived? then first
      else
        var rest := RunPass(ps[1..], timeout, limit);
        rest.(duration := first.duration + rest.duration, peak := Max(first.peak, rest.peak))
  }

  /** A mutant with selected tests runs them first, and the whole binaries when they survive. */
  datatype Truth = Truth(selected: seq<Process>, whole: seq<Process>)
  {
    ghost predicate Valid() { forall p :: p in selected + whole ==> p.Monotone() }
  }

  function RunOne(t: Truth, timeout: nat, limit: int): Attempt {
    var first := RunPass(t.selected, timeout, limit);
    if t.selected != [] && !first.outcome.Survived? then first else RunPass(t.whole, timeout, limit)
  }

  /** The attempts of a measurement: a plain timeout is measured again before it is believed. */
  datatype Measurement = Measurement(outcome: Outcome, duration: nat, attempts: nat, peak: nat, memoryExceeded: bool, diverged: bool)

  function Measure(t: Truth, timeout: nat, limit: int, neverReturns: bool): Measurement {
    var a := RunOne(t, timeout, limit);
    var again := a.outcome.TimedOut? && !neverReturns && !a.diverged;
    Measurement(a.outcome, if again then 2 * a.duration else a.duration, if again then 2 else 1, a.peak, a.memoryExceeded, a.diverged)
  }

  /** A plain timeout is measured twice, and everything else once; the time is that of all attempts. */
  lemma AttemptsExact(t: Truth, timeout: nat, limit: int, neverReturns: bool)
    ensures var m, a := Measure(t, timeout, limit, neverReturns), RunOne(t, timeout, limit);
            && (m.attempts == 2 <==> a.outcome.TimedOut? && !a.diverged && !neverReturns) && (m.attempts == 1 || m.attempts == 2)
            && m.duration == m.attempts * a.duration && m.outcome == a.outcome && m.peak == a.peak
  {
  }

  // ----- the store

  const ENTRY_VERSION := 2

  datatype Entry = Entry(version: int, key: string, context: string, id: string, outcome: Outcome, duration: int, timeout: int,
                         attempts: int, memory: int, memoryExceeded: bool, peak: int, diverged: bool)
  {
    predicate UsableUnder(bound: int) {
      bound > 0 && (diverged || if outcome.TimedOut? then bound <= timeout else duration <= bound)
    }

    predicate UsableWithin(limit: int) {
      if memoryExceeded then 0 < limit <= memory
      else memory <= 0 || outcome.Killed? || limit <= 0 || limit >= memory
    }

    predicate Checks(key: string, context: string, id: string) {
      && version == ENTRY_VERSION && this.key == key && this.context == context && this.id == id
      && Cacheable(outcome)
      && duration >= 0 && attempts >= 1 && timeout > 0 && memory >= 0 && peak >= 0
      && (memoryExceeded ==> memory > 0 && outcome.Killed?)
      && (diverged ==> outcome.TimedOut?)
    }
  }

  predicate Cacheable(o: Outcome) { o.Killed? || o.Survived? || o.TimedOut? }

  datatype Found = Hit(entry: Entry) | Miss | Corrupt

  function Stamp(e: Entry, key: string, context: string, id: string, timeout: int, memory: int): Entry {
    e.(version := ENTRY_VERSION, key := key, context := context, id := id, timeout := timeout, memory := memory)
  }

  /** The files of a store after an entry was put into it. */
  function Filed(entries: map<string, Entry>, key: string, context: string, timeout: int, memory: int, id: string, e: Entry)
    : map<string, Entry>
  {
    var stamped := Stamp(e, key, context, id, timeout, memory);
    if stamped.Checks(key, context, id) then entries[id := stamped] else entries
  }

  /** What a store finds among its files. */
  function Find(entries: map<string, Entry>, key: string, context: string, timeout: int, memory: int, id: string): Found {
    if id !in entries then Miss
    else if !entries[id].Checks(key, context, id) then Corrupt
    else if !entries[id].UsableUnder(timeout) || !entries[id].UsableWithin(memory) then Miss
    else Hit(entries[id])
  }

  class Store {
    const key: string
    const context: string
    const timeout: int
    const memory: int
    var entries: map<string, Entry>

    constructor (key: string, context: string, timeout: int, memory: int, entries: map<string, Entry>)
      ensures this.key == key && this.context == context && this.timeout == timeout && this.memory == memory
      ensures this.entries == entries
    {
      this.key, this.context, this.timeout, this.memory, this.entries := key, context, timeout, memory, entries;
    }

    function Stamped(id: string, e: Entry): Entry { Stamp(e, key, context, id, timeout, memory) }

    /** Stores a reusable outcome under the store's own key and bounds, and nothing else. */
    method Put(id: string, entry: Entry) returns (ok: bool)
      modifies this
      ensures ok == Stamped(id, entry).Checks(key, context, id)
      ensures entries == if ok then old(entries)[id := Stamped(id, entry)] else old(entries)
      ensures entries == Filed(old(entries), key, context, timeout, memory, id, entry)
    {
      var e := Stamped(id, entry);
      if !Cacheable(e.outcome) || !e.Checks(key, context, id) { return false; }
      entries := entries[id := e];
      ok := true;
    }

    /** What is found is a sound entry for this mutant, usable under both bounds. */
    method Lookup(id: string) returns (found: Found)
      ensures found == Find(entries, key, context, timeout, memory, id)
      ensures found.Hit? ==>
                && id in entries && found.entry == entries[id] && found.entry.Checks(key, context, id)
                && found.entry.UsableUnder(timeout) && found.entry.UsableWithin(memory)
      ensures found.Corrupt? <==> id in entries && !entries[id].Checks(key, context, id)
      ensures found.Hit? ==>
                var e := found.entry;
                && e.version == 2 && e.key == key && e.context == context && e.id == id
                && (e.outcome.Killed? || e.outcome.Survived? || e.outcome.TimedOut?)
                && e.duration >= 0 && e.attempts >= 1 && e.timeout > 0 && e.memory >= 0 && e.peak >= 0
                && (e.memoryExceeded ==> e.memory > 0 && e.outcome.Killed?) && (e.diverged ==> e.outcome.TimedOut?)
      ensures found.Miss? <==> id !in entries || (entries[id].Checks(key, context, id)
                                                  && !(entries[id].UsableUnder(timeout) && entries[id].UsableWithin(memory)))
    {
      if id !in entries { return Miss; }
      var e := entries[id];
      if !e.Checks(key, context, id) { return Corrupt; }
      if !e.UsableUnder(timeout) || !e.UsableWithin(memory) { return Miss; }
      found := Hit(e);
    }
  }

  /** What the engine hands to the store. */
  function Unstamped(m: Measurement): Entry {
    Entry(0, "", "", "", m.outcome, m.duration, 0, m.attempts, 0, m.memoryExceeded, m.peak, m.diverged)
  }

  /** What storing a measurement leaves in the store. */
  function Recorded(m: Measurement, key: string, context: string, id: string, timeout: int, memory: int): Entry {
    Stamp(Unstamped(m), key, context, id, timeout, memory)
  }

  // ----- passes under other bounds

  ghost predicate AllInTime(ps: seq<Process>, timeout: int) { forall p :: p in ps ==> p.InTime(timeout) }

  /** A surviving pass: everything passes, in time and within the bound. */
  predicate Fits(p: Process, timeout: nat, limit: int) { p.InTime(timeout) && p.end.Passes? && !p.OverBound(timeout, limit) }

  lemma {:induction false} SurvivesExact(ps: seq<Process>, timeout: nat, limit: int)
    ensures var a := RunPass(ps, timeout, limit);
            && (a.outcome.Survived? <==> forall p :: p in ps ==> Fits(p, timeout, limit))
            && (a.outcome.Survived? ==> forall p :: p in ps ==> p.finish <= a.duration && p.memory(p.finish) <= a.peak)
            && (a.outcome.Survived? ==> a.peak == 0 || exists p :: p in ps && a.peak == p.memory(p.finish))
  {
    if ps != [] {
      SurvivesExact(ps[1..], timeout, limit);
      assert forall p :: p in ps <==> p == ps[0] || p in ps[1..];
      assert RunProcess(ps[0], timeout, limit).outcome.Survived? <==> Fits(ps[0], timeout, limit);
      var rest := RunPass(ps[1..], timeout, limit);
      if rest.peak != 0 && rest.outcome.Survived? {
        var q :| q in ps[1..] && rest.peak == q.memory(q.finish);
        assert q in ps;
      }
    }
  }

  /** Where memory once was above the bound, it still is. */
  lemma {:induction false} CrossingIsFirst(memory: nat -> nat, limit: int, t: nat)
    requires memory(t) > limit
    ensures Crossing(memory, limit, t) <= t && memory(Crossing(memory, limit, t)) > limit
    decreases t
  {
    if t > 0 && memory(t - 1) > limit { CrossingIsFirst(memory, limit, t - 1); }
  }

  /** A pair of bounds under which an attempt would end as it did. */
  predicate AsGood(e: Attempt, timeout: nat, timeout': nat, limit': int) {
    && (e.diverged || if e.outcome.TimedOut? then timeout' <= timeout else e.duration <= timeout' || timeout <= timeout')
    && if e.memoryExceeded then 0 < limit' < e.peak else e.outcome.Killed? || limit' <= 0 || e.peak <= limit'
  }

  /** The peak tells whether a bound was exceeded, and a plain timeout took the whole of it. */
  predicate Plausible(a: Attempt, timeout: nat, limit: int) {
    && Possible(a)
    && (if a.memoryExceeded then 0 < limit < a.peak else limit <= 0 || a.peak <= limit)
    && (a.outcome.TimedOut? && !a.diverged ==> a.duration >= timeout)
  }

  lemma {:induction false} PassIsPlausible(ps: seq<Process>, timeout: nat, limit: int)
    ensures Plausible(RunPass(ps, timeout, limit), timeout, limit)
  {
    if ps != [] {
      PassIsPlausible(ps[1..], timeout, limit);
      var p := ps[0];
      if p.OverBound(timeout, limit) { CrossingIsFirst(p.memory, limit, p.Stop(timeout)); }
    }
  }

  lemma OneIsPlausible(t: Truth, timeout: nat, limit: int)
    ensures Plausible(RunOne(t, timeout, limit), timeout, limit)
  {
    PassIsPlausible(t.selected, timeout, limit);
    PassIsPlausible(t.whole, timeout, limit);
  }

  lemma ProcessAgrees(p: Process, timeout: nat, limit: int, timeout': nat, limit': int)
    requires p.Monotone() && AsGood(RunProcess(p, timeout, limit), timeout, timeout', limit')
    ensures RunProcess(p, timeout', limit').outcome == RunProcess(p, timeout, limit).outcome
  {
    var a := RunProcess(p, timeout, limit);
    if p.OverBound(timeout, limit) {
      var stop := p.Stop(timeout);
      CrossingIsFirst(p.memory, limit, stop);
      var t := Crossing(p.memory, limit, stop);
      assert t <= p.Stop(timeout') by { if p.InTime(timeout') && p.finish < t { assert p.finish <= stop; } }
      assert p.memory(t) <= p.memory(p.Stop(timeout'));
    } else if a.outcome.TimedOut? {
      assert p.Stop(timeout') <= p.Stop(timeout) || a.diverged;
      if !a.diverged { assert p.memory(p.Stop(timeout')) <= p.memory(p.Stop(timeout)); }
      if a.diverged { assert p.Stop(timeout') <= p.finish && p.memory(p.Stop(timeout')) <= p.memory(p.finish); }
    }
  }

  lemma {:induction false} PassAgrees(ps: seq<Process>, timeout: nat, limit: int, timeout': nat, limit': int)
    requires forall p :: p in ps ==> p.Monotone()
    requires AsGood(RunPass(ps, timeout, limit), timeout, timeout', limit')
    ensures RunPass(ps, timeout', limit').outcome == RunPass(ps, timeout, limit).outcome
  {
    if ps != [] {
      var p, a := ps[0], RunPass(ps, timeout, limit);
      assert p in ps;
      var first, again := RunProcess(p, timeout, limit), RunProcess(p, timeout', limit');
      if !first.outcome.Survived? {
        ProcessAgrees(p, timeout, limit, timeout', limit');
      } else {
        assert Fits(p, timeout, limit);
        assert forall q :: q in ps[1..] ==> q in ps;
        if again.outcome.Survived? {
          PassAgrees(ps[1..], timeout, limit, timeout', limit');
        } else {
          EarlierEnd(p, a, timeout, limit, timeout', limit');
        }
      }
    }
  }

  /** A process that survived, and does not under the other bounds, ends the pass with the outcome it had anyway. */
  lemma EarlierEnd(p: Process, a: Attempt, timeout: nat, limit: int, timeout': nat, limit': int)
    requires p.Monotone() && Fits(p, timeout, limit) && AsGood(a, timeout, timeout', limit')
    requires p.finish <= a.duration || a.outcome.TimedOut?
    requires p.memory(p.finish) <= a.peak && Possible(a)
    requires !RunProcess(p, timeout', limit').outcome.Survived?
    ensures RunProcess(p, timeout', limit').outcome == a.outcome
  {
    assert p.Stop(timeout') <= p.finish;
    assert p.memory(p.Stop(timeout')) <= p.memory(p.finish);
  }

  // ----- a hit agrees with measuring again

  /** The selected tests of a mutant end in time and in memory under the new bounds too; neither is part of an entry, whose
      time and memory are those of the last pass. */
  ghost predicate SelectedFits(t: Truth, o: Outcome, limit: int, timeout': nat, limit': int) {
    && (o.TimedOut? || AllInTime(t.selected, timeout'))
    && (limit > 0 || limit' <= 0 || o.Killed? || forall p :: p in t.selected ==> p.memory(p.finish) <= limit')
  }

  lemma RunOneAgrees(t: Truth, timeout: nat, limit: int, timeout': nat, limit': int)
    requires t.Valid() && AsGood(RunOne(t, timeout, limit), timeout, timeout', limit')
    requires RunPass(t.selected, timeout, limit).outcome.Survived? ==>
               var again := RunPass(t.selected, timeout', limit').outcome;
               again.Survived? || again == RunOne(t, timeout, limit).outcome
    ensures RunOne(t, timeout', limit').outcome == RunOne(t, timeout, limit).outcome
  {
    assert forall p :: p in t.selected ==> p in t.selected + t.whole;
    assert forall p :: p in t.whole ==> p in t.selected + t.whole;
    if !RunPass(t.selected, timeout, limit).outcome.Survived? {
      PassAgrees(t.selected, timeout, limit, timeout', limit');
    } else {
      PassAgrees(t.whole, timeout, limit, timeout', limit');
    }
  }

  /** Selected tests that fit the new bounds survive under them, or end as the measurement did. */
  lemma SelectedAgree(t: Truth, timeout: nat, limit: int, timeout': nat, limit': int)
    requires t.Valid() && RunPass(t.selected, timeout, limit).outcome.Survived?
    requires var o := RunOne(t, timeout, limit).outcome;
             SelectedFits(t, o, limit, timeout', limit') && (o.Killed? || limit' <= 0 || limit <= 0 || limit' >= limit)
    ensures var again := RunPass(t.selected, timeout', limit').outcome;
            again.Survived? || again == RunOne(t, timeout, limit).outcome
  {
    assert forall p :: p in t.selected ==> p in t.selected + t.whole;
    SurvivesExact(t.selected, timeout, limit);
    if !RunPass(t.selected, timeout', limit').outcome.Survived? {
      SelectedEnds(t.selected, RunOne(t, timeout, limit).outcome, timeout, limit, timeout', limit');
    }
  }

  /** A selected pass that survived and no longer does ends as the measurement did. */
  lemma {:induction false} SelectedEnds(ps: seq<Process>, o: Outcome, timeout: nat, limit: int, timeout': nat, limit': int)
    requires forall p :: p in ps ==> p.Monotone() && Fits(p, timeout, limit)
    requires !RunPass(ps, timeout', limit').outcome.Survived?
    requires o.TimedOut? || AllInTime(ps, timeout')
    requires o.Killed? || limit' <= 0 || (limit > 0 && limit' >= limit) || (forall p :: p in ps ==> p.memory(p.finish) <= limit')
    ensures RunPass(ps, timeout', limit').outcome == o
    decreases |ps|
  {
    var p := ps[0];
    assert p in ps;
    assert p.Stop(timeout') <= p.finish;
    assert p.memory(p.Stop(timeout')) <= p.memory(p.finish);
    if RunProcess(p, timeout', limit').outcome.Survived? {
      assert forall q :: q in ps[1..] ==> q in ps;
      SelectedEnds(ps[1..], o, timeout, limit, timeout', limit');
    }
  }

  /** Main result. An entry recorded under one timeout and bound that the cache accepts for another pair holds the outcome that
      measuring again would give. The entry was recorded under a bound, or no bound is asked for, or it is a kill, or
      its recorded peak is within the bound asked for. */
  lemma HitAgrees(t: Truth, neverReturns: bool, key: string, context: string, id: string,
                  timeout: nat, limit: int, timeout': nat, limit': int)
    requires t.Valid()
    requires var e := Recorded(Measure(t, timeout, limit, neverReturns), key, context, id, timeout, limit);
             && e.Checks(key, context, id) && e.UsableUnder(timeout') && e.UsableWithin(limit')
             && (limit > 0 || limit' <= 0 || e.outcome.Killed? || e.peak <= limit')
             && (RunPass(t.selected, timeout, limit).outcome.Survived? ==>
                   SelectedFits(t, e.outcome, limit, timeout', limit'))
    ensures Measure(t, timeout', limit', neverReturns).outcome == Measure(t, timeout, limit, neverReturns).outcome
  {
    OneIsPlausible(t, timeout, limit);
    if RunPass(t.selected, timeout, limit).outcome.Survived? { SelectedAgree(t, timeout, limit, timeout', limit'); }
    RunOneAgrees(t, timeout, limit, timeout', limit');
  }

  // ----- where the cache accepts too much

  /** Measuring again survives exactly when the new bounds leave room for all of it. What an entry records is enough for its whole
      binaries, unless no memory bound was set: then its peak must be within the new one. It records nothing of the selected
      tests: each of them must end in time, and without a recorded bound within the new one. */
  lemma SurvivorExact(t: Truth, neverReturns: bool, key: string, context: string, id: string,
                      timeout: nat, limit: int, timeout': nat, limit': int)
    requires t.Valid()
    requires var e := Recorded(Measure(t, timeout, limit, neverReturns), key, context, id, timeout, limit);
             e.outcome.Survived? && e.UsableUnder(timeout') && e.UsableWithin(limit')
    ensures var e := Recorded(Measure(t, timeout, limit, neverReturns), key, context, id, timeout, limit);
            Measure(t, timeout', limit', neverReturns).outcome.Survived?
            <==> AllInTime(t.selected, timeout')
                 && (limit > 0 || limit' <= 0
                     || (e.peak <= limit' && forall p :: p in t.selected ==> p.memory(p.finish) <= limit'))
  {
    SurvivesExact(t.selected, timeout, limit);
    SurvivesExact(t.whole, timeout, limit);
    SurvivesExact(t.selected, timeout', limit');
    SurvivesExact(t.whole, timeout', limit');
    var a := RunPass(t.whole, timeout, limit);
    assert RunOne(t, timeout, limit) == a;
    assert forall p :: p in t.whole ==> Fits(p, timeout, limit) && p.finish <= a.duration && p.memory(p.finish) <= a.peak;
    forall p | p in t.whole ensures Fits(p, timeout', limit') <==> limit > 0 || limit' <= 0 || p.memory(p.finish) <= limit' {}
    assert forall p :: p in t.selected ==> Fits(p, timeout, limit);
    if limit <= 0 && limit' > 0 && a.peak > limit' {
      var p :| p in t.whole && a.peak == p.memory(p.finish);
      assert !Fits(p, timeout', limit');
    }
  }

  /** An entry recorded without a memory bound is usable within every one. */
  lemma UnboundedIsAccepted(t: Truth, neverReturns: bool, key: string, context: string, id: string, timeout: nat, limit': int)
    ensures Recorded(Measure(t, timeout, 0, neverReturns), key, context, id, timeout, 0).UsableWithin(limit')
  {
  }

  /** No selected test runs late before another is over the memory bound. */
  predicate LateOnesAreCut(ps: seq<Process>, timeout: nat, limit: int) {
    forall i :: 0 <= i < |ps| && !ps[i].InTime(timeout) ==> exists j :: 0 <= j <= i && ps[j].OverBound(timeout, limit)
  }

  /** A killed mutant whose selected tests survived is killed again exactly when none of those tests runs late first. */
  lemma KilledExact(t: Truth, neverReturns: bool, key: string, context: string, id: string,
                    timeout: nat, limit: int, timeout': nat, limit': int)
    requires t.Valid() && RunPass(t.selected, timeout, limit).outcome.Survived?
    requires var e := Recorded(Measure(t, timeout, limit, neverReturns), key, context, id, timeout, limit);
             e.outcome.Killed? && e.UsableUnder(timeout') && e.UsableWithin(limit')
    ensures Measure(t, timeout', limit', neverReturns).outcome.Killed? <==> LateOnesAreCut(t.selected, timeout', limit')
  {
    assert forall p :: p in t.whole ==> p in t.selected + t.whole;
    PassIsPlausible(t.whole, timeout, limit);
    PassAgrees(t.whole, timeout, limit, timeout', limit');
    SurvivesExact(t.selected, timeout, limit);
    PassingEnds(t.selected, timeout', limit');
  }

  /** Tests that would all pass end a pass late exactly when one of them is late before any is over the memory bound. */
  lemma {:induction false} PassingEnds(ps: seq<Process>, timeout: nat, limit: int)
    requires forall p :: p in ps ==> p.end.Passes?
    ensures var a := RunPass(ps, timeout, limit); (a.outcome.TimedOut? <==> !LateOnesAreCut(ps, timeout, limit))
    decreases |ps|
  {
    if ps != [] {
      var p, rest := ps[0], ps[1..];
      assert p in ps && forall q :: q in rest ==> q in ps;
      PassingEnds(rest, timeout, limit);
      if p.OverBound(timeout, limit) {
      } else if p.InTime(timeout) {
        CutLater(ps, timeout, limit);
      } else {
        assert !ps[0].InTime(timeout);
      }
    }
  }

  lemma CutLater(ps: seq<Process>, timeout: nat, limit: int)
    requires ps != [] && ps[0].InTime(timeout) && !ps[0].OverBound(timeout, limit)
    ensures LateOnesAreCut(ps, timeout, limit) <==> LateOnesAreCut(ps[1..], timeout, limit)
  {
    var rest := ps[1..];
    if LateOnesAreCut(ps, timeout, limit) {
      forall i | 0 <= i < |rest| && !rest[i].InTime(timeout)
        ensures exists j :: 0 <= j <= i && rest[j].OverBound(timeout, limit)
      {
        assert !ps[i + 1].InTime(timeout);
        var j :| 0 <= j <= i + 1 && ps[j].OverBound(timeout, limit);
        assert rest[j - 1].OverBound(timeout, limit);
      }
    }
    if LateOnesAreCut(rest, timeout, limit) {
      forall i | 0 <= i < |ps| && !ps[i].InTime(timeout) ensures exists j :: 0 <= j <= i && ps[j].OverBound(timeout, limit) {
        assert !rest[i - 1].InTime(timeout);
        var j :| 0 <= j <= i - 1 && rest[j].OverBound(timeout, limit);
        assert ps[j + 1].OverBound(timeout, limit);
      }
    }
  }

  /** Without memory bounds, whatever the outcome: an entry whose selected tests survived holds what measuring again would give
      exactly when it is a timeout or those tests end in time as well. */
  lemma UnboundedExact(t: Truth, neverReturns: bool, key: string, context: string, id: string, timeout: nat, timeout': nat)
    requires t.Valid() && RunPass(t.selected, timeout, 0).outcome.Survived?
    requires Recorded(Measure(t, timeout, 0, neverReturns), key, context, id, timeout, 0).UsableUnder(timeout')
    ensures Measure(t, timeout', 0, neverReturns).outcome == Measure(t, timeout, 0, neverReturns).outcome
            <==> Measure(t, timeout, 0, neverReturns).outcome.TimedOut? || AllInTime(t.selected, timeout')
  {
    var o := Measure(t, timeout, 0, neverReturns).outcome;
    if o.Survived? {
      SurvivorExact(t, neverReturns, key, context, id, timeout, 0, timeout', 0);
    } else if o.Killed? {
      KilledExact(t, neverReturns, key, context, id, timeout, 0, timeout', 0);
      assert AllInTime(t.selected, timeout') <==> LateOnesAreCut(t.selected, timeout', 0) by {
        forall i | 0 <= i < |t.selected| ensures t.selected[i] in t.selected {}
      }
    } else {
      SelectedAgree(t, timeout, 0, timeout', 0);
      RunOneAgrees(t, timeout, 0, timeout', 0);
    }
  }
}
