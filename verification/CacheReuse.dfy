/** Which recorded outcomes the cache gives back, and which it could (internal/cache/store.go). */
module CacheReuse {
  import opened Cache
  import opened Outcomes

  // ----- what is put into a store is found again

  /** Under the bounds it was made under, a stored measurement is found again exactly when it is a timeout or took no longer than
      the timeout. The timeout is that of one process, and the recorded time is the sum over all of them. */
  lemma FoundAgain(t: Truth, neverReturns: bool, entries: map<string, Entry>, key: string, context: string, id: string,
                   timeout: nat, limit: nat)
    requires timeout > 0
    ensures var m := Measure(t, timeout, limit, neverReturns);
            Find(Filed(entries, key, context, timeout, limit, id, Unstamped(m)), key, context, timeout, limit, id)
            == if m.outcome.TimedOut? || m.duration <= timeout then Hit(Recorded(m, key, context, id, timeout, limit)) else Miss
  {
    OneIsPlausible(t, timeout, limit);
  }

  /** One process per pass is found again. */
  lemma OneProcessIsFound(t: Truth, neverReturns: bool, timeout: nat, limit: nat)
    requires |t.selected| <= 1 && |t.whole| <= 1
    ensures var m := Measure(t, timeout, limit, neverReturns); m.outcome.TimedOut? || m.duration <= timeout
  {
    OneIsInTime(t.selected, timeout, limit);
    OneIsInTime(t.whole, timeout, limit);
  }

  lemma OneIsInTime(ps: seq<Process>, timeout: nat, limit: int)
    requires |ps| <= 1
    ensures RunPass(ps, timeout, limit).outcome.TimedOut? || RunPass(ps, timeout, limit).duration <= timeout
  {
    if ps != [] {
      var p := ps[0];
      assert RunPass(ps[1..], timeout, limit) == Attempt(Survived, 0, 0, false, false);
      if p.OverBound(timeout, limit) { CrossingIsFirst(p.memory, limit, p.Stop(timeout)); }
    }
  }

  /** Two binaries that end in time each, and not together: the survivor is measured again on every run. */
  lemma TwoBinariesAreLost(entries: map<string, Entry>, key: string, context: string, id: string, timeout: nat)
    requires timeout > 0
    ensures var p := Process(Passes, timeout, Flat(0));
            var m := Measure(Truth([], [p, p]), timeout, 0, false);
            && m.outcome.Survived?
            && Find(Filed(entries, key, context, timeout, 0, id, Unstamped(m)), key, context, timeout, 0, id) == Miss
  {
    var p := Process(Passes, timeout, Flat(0));
    var t := Truth([], [p, p]);
    FoundAgain(t, false, entries, key, context, id, timeout, 0);
    assert [p, p][1..] == [p] && [p][1..] == [];
    assert RunPass([p], timeout, 0) == Attempt(Survived, timeout, 0, false, false);
    assert RunPass([p, p], timeout, 0) == Attempt(Survived, 2 * timeout, 0, false, false);
  }

  // ----- truths that a record leaves open

  /** Needs the same memory from its first moment on. */
  function Flat(peak: nat): nat -> nat { _ => peak }

  /** Passes that take `total` together, and no more than the timeout each. */
  function Steps(total: nat, timeout: nat, peak: nat): (ps: seq<Process>)
    requires timeout > 0
    ensures ps != [] && ps[0] == Process(Passes, if total <= timeout then total else timeout, Flat(peak))
    ensures forall p :: p in ps ==> p.end.Passes? && p.finish <= timeout && p.memory == Flat(peak)
  {
    if total <= timeout then [Process(Passes, total, Flat(peak))]
    else [Process(Passes, timeout, Flat(peak))] + Steps(total - timeout, timeout, peak)
  }

  lemma {:induction false} StepsThenLast(total: nat, timeout: nat, peak: nat, last: Process, limit: int)
    requires timeout > 0 && (limit <= 0 || peak <= limit)
    ensures var a := RunProcess(last, timeout, limit);
            RunPass(Steps(total, timeout, peak) + [last], timeout, limit)
            == a.(duration := total + a.duration, peak := Max(peak, a.peak))
    decreases total
  {
    var ps := Steps(total, timeout, peak) + [last];
    var a := RunProcess(last, timeout, limit);
    assert RunPass([last], timeout, limit) == a by { assert [last][1..] == []; }
    if total <= timeout {
      assert ps[1..] == [last];
    } else {
      StepsThenLast(total - timeout, timeout, peak, last, limit);
      assert ps[1..] == Steps(total - timeout, timeout, peak) + [last];
    }
  }

  /** The last process of a witness. A timeout is of one that would have passed at `late`. */
  function Last(a: Attempt, late: nat): Process {
    Process(if a.diverged then Diverges else if a.outcome.Killed? && !a.memoryExceeded then Fails else Passes,
            if a.outcome.TimedOut? && !a.diverged then late else 0,
            Flat(a.peak))
  }

  /** A truth that gives this attempt under a timeout and a bound. */
  function Witness(a: Attempt, timeout: nat, late: nat, early: nat): Truth
    requires timeout > 0 && (a.outcome.TimedOut? && !a.diverged ==> a.duration >= timeout)
  {
    Truth([], Steps(if a.outcome.TimedOut? && !a.diverged then a.duration - timeout else a.duration, timeout, early)
              + [Last(a, late)])
  }

  lemma WitnessGives(a: Attempt, timeout: nat, limit: int, late: nat, early: nat)
    requires timeout > 0 && Plausible(a, timeout, limit) && late > timeout && early <= a.peak && (limit <= 0 || early <= limit)
    ensures Witness(a, timeout, late, early).Valid() && RunOne(Witness(a, timeout, late, early), timeout, limit) == a
  {
    var t := Witness(a, timeout, late, early);
    forall p | p in t.selected + t.whole ensures p.Monotone() {
      assert p.memory == Flat(early) || p.memory == Flat(a.peak);
    }
    StepsThenLast(if a.outcome.TimedOut? && !a.diverged then a.duration - timeout else a.duration, timeout, early, Last(a, late), limit);
  }

  // ----- the exact condition

  /** Another truth that was recorded alike, and whose selected tests survive the other bounds if they survived these. */
  ghost predicate Alike(t: Truth, a: Attempt, timeout: nat, limit: int, timeout': nat, limit': int) {
    && t.Valid() && RunOne(t, timeout, limit) == a
    && (RunPass(t.selected, timeout, limit).outcome.Survived? ==> RunPass(t.selected, timeout', limit').outcome.Survived?)
  }

  ghost predicate Determined(a: Attempt, timeout: nat, limit: int, timeout': nat, limit': int) {
    forall t :: Alike(t, a, timeout, limit, timeout', limit') ==> RunOne(t, timeout', limit').outcome == a.outcome
  }

  /** What an attempt recorded decides its outcome under another pair of bounds exactly when the pair is as good: then every
      truth that could have been recorded so ends the same, and otherwise one of them does not. */
  lemma DeterminedExact(a: Attempt, timeout: nat, limit: int, timeout': nat, limit': int)
    requires Plausible(a, timeout, limit) && timeout > 0
    ensures Determined(a, timeout, limit, timeout', limit') <==> AsGood(a, timeout, timeout', limit')
  {
    if AsGood(a, timeout, timeout', limit') {
      forall t | Alike(t, a, timeout, limit, timeout', limit') ensures RunOne(t, timeout', limit').outcome == a.outcome {
        RunOneAgrees(t, timeout, limit, timeout', limit');
      }
    } else {
      var t := Differs(a, timeout, limit, timeout', limit');
      assert Alike(t, a, timeout, limit, timeout', limit');
    }
  }

  predicate TimeIsAsGood(a: Attempt, timeout: nat, timeout': nat) {
    a.diverged || if a.outcome.TimedOut? then timeout' <= timeout else a.duration <= timeout' || timeout <= timeout'
  }

  lemma Differs(a: Attempt, timeout: nat, limit: int, timeout': nat, limit': int) returns (t: Truth)
    requires Plausible(a, timeout, limit) && timeout > 0 && !AsGood(a, timeout, timeout', limit')
    ensures Alike(t, a, timeout, limit, timeout', limit') && RunOne(t, timeout', limit').outcome != a.outcome
  {
    if !TimeIsAsGood(a, timeout, timeout') {
      t := Witness(a, timeout, if timeout' > timeout then timeout' else timeout + 1, 0);
      WitnessGives(a, timeout, limit, if timeout' > timeout then timeout' else timeout + 1, 0);
      if a.outcome.TimedOut? { LateOnePasses(a, timeout, timeout', limit'); } else { FirstIsLate(t.whole, timeout', limit'); }
    } else if a.memoryExceeded {
      t := Witness(a, timeout, timeout + 1, 0);
      WitnessGives(a, timeout, limit, timeout + 1, 0);
      NoneIsKilled(t.whole, timeout', limit');
    } else {
      t := Witness(a, timeout, timeout + 1, a.peak);
      WitnessGives(a, timeout, limit, timeout + 1, a.peak);
      assert t.whole[0].OverBound(timeout', limit');
    }
  }

  lemma FirstIsLate(ps: seq<Process>, timeout: nat, limit: int)
    requires ps != [] && !ps[0].InTime(timeout) && ps[0].memory == Flat(0)
    ensures RunPass(ps, timeout, limit).outcome == TimedOut
  {
  }

  lemma {:induction false} NoneIsKilled(ps: seq<Process>, timeout: nat, limit: int)
    requires forall p :: p in ps ==> p.end.Passes? && !p.OverBound(timeout, limit)
    ensures !RunPass(ps, timeout, limit).outcome.Killed?
  {
    if ps != [] { NoneIsKilled(ps[1..], timeout, limit); }
  }

  lemma LateOnePasses(a: Attempt, timeout: nat, timeout': nat, limit': int)
    requires timeout > 0 && a.outcome.TimedOut? && !a.diverged && timeout' > timeout && a.duration >= timeout
    ensures RunPass(Witness(a, timeout, timeout', 0).whole, timeout', limit').outcome != TimedOut
  {
    NoneIsLate(Witness(a, timeout, timeout', 0).whole, timeout', limit');
  }

  lemma {:induction false} NoneIsLate(ps: seq<Process>, timeout: nat, limit: int)
    requires forall p :: p in ps ==> p.end.Passes? && p.InTime(timeout)
    ensures !RunPass(ps, timeout, limit).outcome.TimedOut?
  {
    if ps != [] { NoneIsLate(ps[1..], timeout, limit); }
  }

  // ----- what the cache makes of it

  /** The cache asks for more than it needs: for the sum of several processes to fit a timeout that each of them fits, for a
      bound as wide as the recorded one although the peak was lower, and for a bound no wider than the one that was exceeded
      although the peak was higher. */
  predicate AsksTooMuch(e: Entry, timeout': nat, limit': int) {
    || (!e.outcome.TimedOut? && e.timeout <= timeout' < e.duration)
    || (!e.memoryExceeded && !e.outcome.Killed? && 0 < limit' < e.memory)
    || (e.memoryExceeded && e.memory < limit')
  }

  /** And for too little: an entry made without a bound is taken for any. */
  predicate AsksTooLittle(e: Entry, limit': int) { e.memory <= 0 < limit' < e.peak && !e.outcome.Killed? }

  /** Main result. An entry is usable under a pair of bounds exactly when its record decides the outcome under them, but for the
      two ways in which the cache asks too much or too little. */
  lemma UsableExact(t: Truth, neverReturns: bool, key: string, context: string, id: string,
                    timeout: nat, limit: int, timeout': nat, limit': int)
    requires timeout > 0 && timeout' > 0
    ensures forall bound :: Recorded(Measure(t, timeout, limit, neverReturns), key, context, id, timeout, limit).UsableUnder(bound) ==>
              bound > 0
    ensures var e := Recorded(Measure(t, timeout, limit, neverReturns), key, context, id, timeout, limit);
            var decided := Determined(RunOne(t, timeout, limit), timeout, limit, timeout', limit');
            var usable := e.UsableUnder(timeout') && e.UsableWithin(limit');
            && (decided ==> (usable <==> !AsksTooMuch(e, timeout', limit')))
            && (usable ==> (decided <==> !AsksTooLittle(e, limit')))
  {
    OneIsPlausible(t, timeout, limit);
    DeterminedExact(RunOne(t, timeout, limit), timeout, limit, timeout', limit');
  }
}
