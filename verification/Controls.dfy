/** The queue of control runs (internal/execute/controls.go): workers take the next index from a shared counter until the
    controls run out or the context is cancelled; what was never started is filled in afterwards. */
module Controls {
  import opened Wrappers

  /** What a slot holds in the end: the outcome of running its control, or that it was interrupted. */
  datatype Slot = Ran(control: nat) | Interrupted

  datatype Pc = Checking | Claiming | Claimed(i: nat) | Started(i: nat) | Stopped

  /** `writes` counts how often a slot was written. */
  datatype State = State(next: nat, cancelled: bool, started: seq<bool>, slots: seq<Option<Slot>>, writes: seq<nat>,
                         workers: seq<Pc>, filled: bool)

  predicate Init(s: State, n: nat, workers: nat) {
    s == State(0, false, seq(n, _ => false), seq(n, _ => None), seq(n, _ => 0), seq(workers, _ => Checking), false)
  }

  function Worker(s: State, w: nat, pc: Pc): State
    requires w < |s.workers|
  {
    s.(workers := s.workers[w := pc])
  }

  /** One step of one worker. */
  predicate Works(s: State, s': State, n: nat, w: nat) {
    && w < |s.workers| && |s.started| == |s.slots| == |s.writes| == n
    && match s.workers[w]
       case Checking => s' == Worker(s, w, if s.cancelled then Stopped else Claiming)
       case Claiming => s' == Worker(s, w, if s.next >= n then Stopped else Claimed(s.next)).(next := s.next + 1)
       case Claimed(i) => i < n && s' == Worker(s, w, Started(i)).(started := s.started[i := true])
       case Started(i) =>
         i < n && s' == Worker(s, w, Checking).(slots := s.slots[i := Some(Ran(i))], writes := s.writes[i := s.writes[i] + 1])
       case Stopped => false
  }

  predicate Done(s: State) { forall w :: 0 <= w < |s.workers| ==> s.workers[w].Stopped? }

  /** The loop after all workers have stopped. */
  predicate Fills(s: State, s': State, n: nat) {
    && Done(s) && !s.filled && |s.started| == |s.slots| == |s.writes| == n
    && s' == s.(filled := true,
                slots := seq(n, i requires 0 <= i < n => if s.started[i] then s.slots[i] else Some(Interrupted)),
                writes := seq(n, i requires 0 <= i < n => if s.started[i] then s.writes[i] else s.writes[i] + 1))
  }

  ghost predicate Step(s: State, s': State, n: nat) {
    (!s.filled && exists w :: Works(s, s', n, w)) || s' == s.(cancelled := true) || Fills(s, s', n)
  }

  ghost predicate IsRun(run: seq<State>, n: nat, workers: nat) {
    run != [] && Init(run[0], n, workers) && forall k :: 0 < k < |run| ==> Step(run[k - 1], run[k], n)
  }

  // ----- the invariant

  predicate Holds(s: State, w: nat, i: nat) {
    w < |s.workers| && (s.workers[w] == Claimed(i) || s.workers[w] == Started(i))
  }

  /** Slot `i` before the fill: unclaimed, in the hands of one worker, or written once. */
  ghost predicate SlotKept(s: State, n: nat, i: nat)
    requires i < n == |s.started| == |s.slots| == |s.writes|
  {
    && (i >= s.next ==> !s.started[i] && s.slots[i] == None && s.writes[i] == 0 && forall w: nat :: !Holds(s, w, i))
    && (forall v: nat, w: nat :: Holds(s, v, i) && Holds(s, w, i) ==> v == w)
    && (forall w: nat :: Holds(s, w, i) ==> s.slots[i] == None && s.writes[i] == 0 && s.started[i] == s.workers[w].Started?)
    && (i < s.next && (forall w: nat :: !Holds(s, w, i)) ==> s.started[i] && s.slots[i] == Some(Ran(i)) && s.writes[i] == 1)
  }

  ghost predicate Inv(s: State, n: nat) {
    && |s.started| == |s.slots| == |s.writes| == n
    && (!s.filled ==> forall i :: 0 <= i < n ==> SlotKept(s, n, i))
    && (forall w :: 0 <= w < |s.workers| && s.workers[w].Stopped? && !s.cancelled ==> s.next >= n)
    && (s.filled ==> Done(s) && forall i :: 0 <= i < n ==>
          s.writes[i] == 1 && s.started[i] == (i < s.next)
          && s.slots[i] == Some(if s.started[i] then Ran(i) else Interrupted))
  }

  lemma StartKept(s: State, n: nat, workers: nat)
    requires Init(s, n, workers)
    ensures Inv(s, n) && |s.workers| == workers
  {
  }

  lemma WorkKeepsSlot(s: State, s': State, n: nat, w: nat, i: nat)
    requires |s.started| == |s.slots| == |s.writes| == n && Works(s, s', n, w) && i < n && SlotKept(s, n, i)
    requires s.workers[w].Claimed? || s.workers[w].Started? ==> SlotKept(s, n, s.workers[w].i)
    ensures SlotKept(s', n, i)
  {
    hide SlotKept;
    forall v: nat | v != w ensures Holds(s', v, i) == Holds(s, v, i) {}
    var pc := s.workers[w];
    if pc == Claimed(i) { StartsSlot(s, s', n, w, i); }
    else if pc == Started(i) { WritesSlot(s, s', n, w, i); }
    else if pc.Claiming? && s.next == i { ClaimsSlot(s, s', n, w, i); }
    else { LeavesSlot(s, s', n, w, i); }
  }

  lemma StartsSlot(s: State, s': State, n: nat, w: nat, i: nat)
    requires i < n == |s.started| == |s.slots| == |s.writes| && Works(s, s', n, w) && s.workers[w] == Claimed(i) && SlotKept(s, n, i)
    requires forall v: nat :: v != w ==> Holds(s', v, i) == Holds(s, v, i)
    ensures SlotKept(s', n, i)
  {
    assert Holds(s, w, i) && Holds(s', w, i);
  }

  lemma WritesSlot(s: State, s': State, n: nat, w: nat, i: nat)
    requires i < n == |s.started| == |s.slots| == |s.writes| && Works(s, s', n, w) && s.workers[w] == Started(i) && SlotKept(s, n, i)
    requires forall v: nat :: v != w ==> Holds(s', v, i) == Holds(s, v, i)
    ensures SlotKept(s', n, i)
  {
    assert Holds(s, w, i) && !Holds(s', w, i);
  }

  lemma ClaimsSlot(s: State, s': State, n: nat, w: nat, i: nat)
    requires i < n == |s.started| == |s.slots| == |s.writes| && Works(s, s', n, w) && SlotKept(s, n, i)
    requires s.workers[w].Claiming? && s.next == i
    requires forall v: nat :: v != w ==> Holds(s', v, i) == Holds(s, v, i)
    ensures SlotKept(s', n, i)
  {
    assert Holds(s', w, i);
  }

  lemma LeavesSlot(s: State, s': State, n: nat, w: nat, i: nat)
    requires i < n == |s.started| == |s.slots| == |s.writes| && Works(s, s', n, w) && SlotKept(s, n, i)
    requires s.workers[w] != Claimed(i) && s.workers[w] != Started(i) && !(s.workers[w].Claiming? && s.next == i)
    requires forall v: nat :: v != w ==> Holds(s', v, i) == Holds(s, v, i)
    ensures SlotKept(s', n, i)
  {
    assert !Holds(s, w, i) && !Holds(s', w, i);
    assert (forall v: nat :: !Holds(s', v, i)) <==> forall v: nat :: !Holds(s, v, i);
  }

  lemma StepKeeps(s: State, s': State, n: nat)
    requires Inv(s, n) && Step(s, s', n)
    ensures Inv(s', n) && |s'.workers| == |s.workers|
  {
    hide SlotKept;
    if !s.filled && exists w :: Works(s, s', n, w) {
      var w :| Works(s, s', n, w);
      forall i | 0 <= i < n ensures SlotKept(s', n, i) { WorkKeepsSlot(s, s', n, w, i); }
    } else if s' == s.(cancelled := true) {
      forall i | 0 <= i < n && !s.filled ensures SlotKept(s', n, i) { CancelKeepsSlot(s, n, i); }
    } else {
      forall i | 0 <= i < n
        ensures s'.writes[i] == 1 && s'.started[i] == (i < s'.next)
                && s'.slots[i] == Some(if s'.started[i] then Ran(i) else Interrupted)
      {
        FillsSlot(s, n, i);
      }
    }
  }

  lemma CancelKeepsSlot(s: State, n: nat, i: nat)
    requires i < n == |s.started| == |s.slots| == |s.writes| && SlotKept(s, n, i)
    ensures SlotKept(s.(cancelled := true), n, i)
  {
    forall w: nat ensures Holds(s.(cancelled := true), w, i) == Holds(s, w, i) {}
  }

  lemma FillsSlot(s: State, n: nat, i: nat)
    requires i < n == |s.started| == |s.slots| == |s.writes| && SlotKept(s, n, i) && Done(s)
    ensures if i < s.next then s.started[i] && s.slots[i] == Some(Ran(i)) && s.writes[i] == 1
            else !s.started[i] && s.writes[i] == 0
  {
    forall w: nat ensures !Holds(s, w, i) {}
  }

  lemma {:induction false} Invariant(run: seq<State>, n: nat, workers: nat, k: nat)
    requires IsRun(run, n, workers) && k < |run|
    ensures Inv(run[k], n) && |run[k].workers| == workers
  {
    hide Inv, Step, Init;
    if k == 0 {
      StartKept(run[0], n, workers);
    } else {
      Invariant(run, n, workers, k - 1);
      StepKeeps(run[k - 1], run[k], n);
    }
  }

  // ----- main results

  /** Under any interleaving, no index is claimed twice, what was claimed is a prefix, and no slot is written twice. */
  lemma ClaimedOnce(run: seq<State>, n: nat, workers: nat, k: nat, v: nat, w: nat, i: nat)
    requires IsRun(run, n, workers) && k < |run| && i < n
    ensures !run[k].filled && Holds(run[k], v, i) && Holds(run[k], w, i) ==> v == w
    ensures !run[k].filled && Holds(run[k], w, i) ==> i < run[k].next
    ensures |run[k].writes| == n && run[k].writes[i] <= 1
  {
    Invariant(run, n, workers, k);
    if !run[k].filled {
      assert SlotKept(run[k], n, i);
      if forall u: nat :: !Holds(run[k], u, i) {} else { var u: nat :| Holds(run[k], u, i); }
    }
  }

  /** After the cancellation nobody begins to claim: a worker that holds an index held it before, or was claiming already. */
  lemma {:induction false} CancelledClaimsNothingNew(run: seq<State>, n: nat, workers: nat, k: nat, j: nat, w: nat, i: nat)
    requires IsRun(run, n, workers) && k <= j < |run| && run[k].cancelled
    ensures run[j].cancelled && |run[j].workers| == |run[k].workers| == workers
    ensures w < workers && run[j].workers[w].Claiming? ==> run[k].workers[w].Claiming?
    ensures Holds(run[j], w, i) ==> Holds(run[k], w, i) || run[k].workers[w].Claiming?
    decreases j
  {
    hide Inv, Init, Step;
    Invariant(run, n, workers, j);
    Invariant(run, n, workers, k);
    if k < j {
      CancelledClaimsNothingNew(run, n, workers, k, j - 1, w, i);
      CancelledStep(run[j - 1], run[j], n, w, i);
    }
  }

  lemma CancelledStep(s: State, s': State, n: nat, w: nat, i: nat)
    requires Step(s, s', n) && s.cancelled && |s.workers| == |s'.workers|
    ensures s'.cancelled
    ensures w < |s.workers| && s'.workers[w].Claiming? ==> s.workers[w].Claiming?
    ensures Holds(s', w, i) ==> Holds(s, w, i) || s.workers[w].Claiming?
  {
  }

  /** Until the call returns, some worker can go on, or the loop that fills the rest can run. */
  lemma NobodyHangs(run: seq<State>, n: nat, workers: nat, k: nat) returns (s': State)
    requires IsRun(run, n, workers) && k < |run| && !run[k].filled
    ensures Step(run[k], s', n) && s' != run[k]
    ensures (exists w :: Works(run[k], s', n, w)) || Fills(run[k], s', n)
  {
    hide IsRun, Step;
    Invariant(run, n, workers, k);
    var s := run[k];
    if w: nat :| w < |s.workers| && !s.workers[w].Stopped? {
      forall i: nat | Holds(s, w, i) ensures i < n { HeldIsInRange(run, n, workers, k, w, i); }
      s' := WorkerGoes(s, n, w);
    } else {
      s' := s.(filled := true,
               slots := seq(n, i requires 0 <= i < n => if s.started[i] then s.slots[i] else Some(Interrupted)),
               writes := seq(n, i requires 0 <= i < n => if s.started[i] then s.writes[i] else s.writes[i] + 1));
      assert Fills(s, s', n);
    }
    assert Step(s, s', n) by { StepsBy(s, s', n); }
  }

  lemma StepsBy(s: State, s': State, n: nat)
    requires (!s.filled && exists w :: Works(s, s', n, w)) || Fills(s, s', n)
    ensures Step(s, s', n)
  {
    hide Works, Fills;
  }

  lemma {:induction false} HeldIsInRange(run: seq<State>, n: nat, workers: nat, k: nat, w: nat, i: nat)
    requires IsRun(run, n, workers) && k < |run| && Holds(run[k], w, i)
    ensures i < n
  {
    if k > 0 && !Holds(run[k - 1], w, i) {
      assert Step(run[k - 1], run[k], n);
    } else if k > 0 {
      HeldIsInRange(run, n, workers, k - 1, w, i);
    }
  }

  lemma WorkerGoes(s: State, n: nat, w: nat) returns (s': State)
    requires Inv(s, n) && !s.filled && w < |s.workers| && !s.workers[w].Stopped? && forall i: nat :: Holds(s, w, i) ==> i < n
    ensures Works(s, s', n, w) && s' != s
  {
    match s.workers[w]
    case Checking => s' := Worker(s, w, if s.cancelled then Stopped else Claiming);
    case Claiming => s' := Worker(s, w, if s.next >= n then Stopped else Claimed(s.next)).(next := s.next + 1);
    case Claimed(i) =>
      assert Holds(s, w, i);
      s' := Worker(s, w, Started(i)).(started := s.started[i := true]);
    case Started(i) =>
      assert Holds(s, w, i);
      s' := Worker(s, w, Checking).(slots := s.slots[i := Some(Ran(i))], writes := s.writes[i := s.writes[i] + 1]);
    assert s'.workers[w] != s.workers[w];
  }

  /** When the call returns, every slot was filled exactly once: with the outcome of its own control for a prefix of the
      controls, as interrupted for the rest; and without a cancellation the prefix is everything. */
  lemma EverySlotFilled(run: seq<State>, n: nat, workers: nat)
    requires IsRun(run, n, workers) && run[|run| - 1].filled && workers > 0
    ensures var s := run[|run| - 1];
            && |s.slots| == |s.writes| == n
            && (forall i :: 0 <= i < n ==> s.writes[i] == 1 && s.slots[i] == Some(if i < s.next then Ran(i) else Interrupted))
            && (!s.cancelled ==> forall i :: 0 <= i < n ==> s.slots[i] == Some(Ran(i)))
  {
    var s := run[|run| - 1];
    Invariant(run, n, workers, |run| - 1);
    assert s.workers[0].Stopped?;
  }
}
