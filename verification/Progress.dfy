/** What the workspace lifecycle lets happen: a call is refused only for its reason, no call waits for ever, and every call
    returns. */
module Progress {
  import opened Lifecycle
  import opened Wrappers

  // ----- what a check lets through

  ghost predicate CanGo(s: State, t: nat, p': Pc) { exists s', e :: Moves(s, s', t, p', e) }

  /** From the check to the command: a command goes on exactly when the workspace is open and no preparation has failed, and a
      preparation exactly when the workspace is open and no other has begun. What is not let through leaves. */
  lemma RefusedForItsReason(run: seq<State>, i: nat, t: nat)
    requires IsRun(run) && i < |run| && t in run[i].pcs
    ensures var s, p := run[i], run[i].pcs[t];
            && (forall call :: (call == Exec || call == Module) && p == Checking(call) ==>
                  (CanGo(s, t, Admitted(call)) <==> !s.d.flags.closed && !s.d.flags.prepareFailed))
            && (forall call :: (call == Exec || call == Module) && p == Rechecking(call) ==>
                  (CanGo(s, t, Running(call)) <==> !s.d.flags.closed && !s.d.flags.prepareFailed))
            && (p == Beginning ==> (CanGo(s, t, Begun) <==> !s.d.flags.closed && !s.d.flags.prepareStarted))
  {
    hide IsRun;
    var s, p := run[i], run[i].pcs[t];
    if p.Checking? { Goes(s, t, Admitted(p.call), Keeps); }
    else if p.Rechecking? { Goes(s, t, Running(p.call), Keeps); }
    else if p == Beginning { Goes(s, t, Begun, Begins); }
  }

  /** A step that needs no lock it does not hold. */
  lemma Goes(s: State, t: nat, p': Pc, e: Effect)
    requires t in s.pcs && s.pcs[t].Mu() == p'.Mu() && s.pcs[t].Tree() == p'.Tree()
    ensures Acts(s.pcs[t], p', e, s.d) ==> CanGo(s, t, p')
  {
    hide Acts, Apply;
    if Acts(s.pcs[t], p', e, s.d) {
      assert Moves(s, State(s.mu, s.tree, Apply(e, s.d), s.pcs[t := p']), t, p', e);
    }
  }

  // ----- a closer that was beaten is not left waiting

  predicate Finished(p: Pc) { p.Returned? || p.Closed? }

  /** Until a result is recorded, the closer that will record it is under way; and whoever rereads the result has one. */
  ghost predicate ResultComes(s: State) {
    && (s.d.flags.closed && s.d.result.None? ==> exists t :: t in s.pcs && s.pcs[t].FirstCloser())
    && forall t :: t in s.pcs && s.pcs[t].Rereading? ==> s.d.result.Some?
  }

  lemma {:induction false} ResultIsComing(run: seq<State>, i: nat)
    requires IsRun(run) && i < |run|
    ensures ResultComes(run[i])
  {
    hide Step, ResultComes;
    if i == 0 {
      NobodyCloses();
    } else {
      ResultIsComing(run, i - 1);
      StillComing(run[i - 1], run[i]);
    }
  }

  lemma NobodyCloses()
    ensures ResultComes(State(Lock({}, None), Lock({}, None), START, map[]))
  {
  }

  lemma StillComing(s: State, s': State)
    requires ResultComes(s) && Step(s, s')
    ensures ResultComes(s')
  {
    hide Acts, LockMoves, Apply, Pc.FirstCloser;
    if t, p', e :| Moves(s, s', t, p', e) {
      CloserGoesOn(s.pcs[t], p', e, s.d);
      if s'.d.flags.closed && s'.d.result.None? {
        if s.d.flags.closed {
          var u :| u in s.pcs && s.pcs[u].FirstCloser();
          assert s'.pcs[u].FirstCloser();
        } else {
          assert s'.pcs[t].FirstCloser();
        }
      }
    } else {
      var t, call :| Arrives(s, s', t, call);
      if s.d.flags.closed && s.d.result.None? {
        var u :| u in s.pcs && s.pcs[u].FirstCloser();
        assert s'.pcs[u].FirstCloser();
      }
    }
  }

  /** The first closer stays the first closer until it records the result. */
  lemma CloserGoesOn(p: Pc, p': Pc, e: Effect, d: Data)
    requires Acts(p, p', e, d)
    ensures Apply(e, d).flags.closed ==> d.flags.closed || p'.FirstCloser()
    ensures d.result.Some? ==> Apply(e, d).result.Some?
    ensures p.FirstCloser() ==> p'.FirstCloser() || Apply(e, d).result.Some?
    ensures p'.Rereading? ==> d.result.Some?
  {
    hide CommandStep, PrepareStep, CloseStep;
    if PrepareStep(p, p', e, d) { PreparerIsNoCloser(p, p', e, d); }
    else if CloseStep(p, p', e, d) { CloserKeepsOn(p, p', e, d); }
    else { CommandIsNoCloser(p, p', d); }
  }

  lemma PreparerIsNoCloser(p: Pc, p': Pc, e: Effect, d: Data)
    requires PrepareStep(p, p', e, d)
    ensures !e.Claims? && !e.Records? && !p.FirstCloser() && !p'.Rereading?
  {
    hide EntryStep, StageStep, WindowStep;
    if EntryStep(p, p', e, d) { EntryEffects(p, p', e, d); EntryIsNoCloser(p, p', e, d); }
    else if StageStep(p, p', e) { StageEffects(p, p', e, d); }
    else { WindowEffects(p, p', e, d); }
  }

  lemma EntryIsNoCloser(p: Pc, p': Pc, e: Effect, d: Data)
    requires EntryStep(p, p', e, d)
    ensures !p.FirstCloser() && !p'.Rereading?
  {
  }

  lemma CommandIsNoCloser(p: Pc, p': Pc, d: Data)
    requires CommandStep(p, p', d)
    ensures !p.FirstCloser() && !p'.Rereading?
  {
  }

  lemma CloserKeepsOn(p: Pc, p': Pc, e: Effect, d: Data)
    requires CloseStep(p, p', e, d)
    ensures e.Claims? ==> p'.FirstCloser()
    ensures p.FirstCloser() ==> p'.FirstCloser() || e.Records?
    ensures p'.Rereading? ==> d.result.Some?
  {
  }

  // ----- no call waits for ever

  /** Where a call may have to wait: for a lock, or for the result of the first closer. */
  predicate Waits(p: Pc) { p.Start? || p.Admitted? || (p.At? && p.stage <= 3) || p.Deleted? || p.Waiting? }

  /** How a call goes on when nothing goes wrong. */
  function Onward(p: Pc, d: Data): (Pc, Effect) {
    if p.Preparing() then PrepareOnward(p)
    else if p.FirstCloser() then CloserOnward(p)
    else
      match p
      case Start(call) => (if call.Prepare? then Beginning else if call.Close? then Claiming else Checking(call), Keeps)
      case Checking(call) => (if Refused(d.flags).Some? then Leaving else Admitted(call), Keeps)
      case Admitted(call) => (Rechecking(call), Keeps)
      case Rechecking(call) => (if Refused(d.flags).Some? then Leaving else Running(call), Keeps)
      case Beginning => if PrepareRefused(d.flags).Some? then (Leaving, Keeps) else (Begun, Begins)
      case Claiming => if d.flags.closed then (Beaten, Keeps) else (Claimed(d.flags.session), Claims)
      case Beaten => (Waiting, Keeps)
      case Waiting => (Rereading, Keeps)
      case Rereading => (Closed(d.result == Some(true)), Keeps)
      case Recorded(err) => (Closed(err), Keeps)
      case Leaving => (Returned, Keeps)
      case _ => (Leaving, Keeps)
  }

  function PrepareOnward(p: Pc): (Pc, Effect) {
    match p
    case Begun => (At(0), Spends)
    case At(k) => if k == 2 then (Window, Opens) else if k <= 3 then (Reading(k), Keeps)
                  else if k == 4 then (Leaving, Publishes) else (Failing, Keeps)
    case Reading(k) => (At(k + 1), Keeps)
    case Window => (Instrumented, Dirties)
    case Instrumented => (Restored, Cleans)
    case Restored => (At(3), Keeps)
    case WindowFailed => (Failing, Keeps)
    case _ => (Leaving, Fails)
  }

  function CloserOnward(p: Pc): (Pc, Effect) {
    match p
    case Claimed(taken) => (ClosingSession(taken), Keeps)
    case ClosingSession(taken) => (Deleting, if taken then ClosesSession else Keeps)
    case Deleting => (Deleted(false), Deletes)
    case Deleted(err) => (Recording(err), Keeps)
    case Recording(err) => (Recorded(err), Records(err))
    case _ => (p, Keeps)
  }

  lemma OnwardActs(p: Pc, d: Data)
    requires !Finished(p) && (p.Waiting? || p.Rereading? ==> d.result.Some?)
    ensures Acts(p, Onward(p, d).0, Onward(p, d).1, d)
  {
    if p.Preparing() { PrepareOnwardActs(p, d); }
    else if p.FirstCloser() { CloserOnwardActs(p, d); }
    else { OtherwiseOnward(p, d); }
  }

  lemma PrepareOnwardActs(p: Pc, d: Data)
    requires p.Preparing()
    ensures PrepareStep(p, PrepareOnward(p).0, PrepareOnward(p).1, d)
  {
  }

  lemma CloserOnwardActs(p: Pc, d: Data)
    requires p.FirstCloser()
    ensures CloseStep(p, CloserOnward(p).0, CloserOnward(p).1, d)
  {
  }

  lemma OtherwiseOnward(p: Pc, d: Data)
    requires !Finished(p) && !p.Preparing() && !p.FirstCloser() && (p.Waiting? || p.Rereading? ==> d.result.Some?)
    ensures Acts(p, Onward(p, d).0, Onward(p, d).1, d)
  {
    hide PrepareStep;
    if p.Beginning? || (p.Start? && p.call.Prepare?) { assert PrepareStep(p, Onward(p, d).0, Onward(p, d).1, d) by { EntersOnward(p, d); } }
  }

  lemma EntersOnward(p: Pc, d: Data)
    requires p.Beginning? || (p.Start? && p.call.Prepare?)
    ensures PrepareStep(p, Onward(p, d).0, Onward(p, d).1, d)
  {
  }

  function Taken(l: Lock, t: nat, before: Hold, after: Hold): Lock {
    match (before, after)
    case (Nothing, Read) => l.(readers := l.readers + {t})
    case (Nothing, Write) => l.(writer := Some(t))
    case (Read, Nothing) => l.(readers := l.readers - {t})
    case (Write, Nothing) => l.(writer := None)
    case _ => l
  }

  /** No lock has to be taken, or the lock is free. */
  predicate Available(l: Lock, before: Hold, after: Hold) {
    after == before || after == Nothing || (before == Nothing && l == Lock({}, None))
  }

  lemma AvailableMoves(l: Lock, t: nat, before: Hold, after: Hold)
    requires Available(l, before, after)
    ensures LockMoves(l, Taken(l, t, before, after), t, before, after)
  {
  }

  ghost predicate CanMove(s: State, t: nat) { exists p' :: CanGo(s, t, p') }

  lemma MovesOn(s: State, t: nat)
    requires t in s.pcs && !Finished(s.pcs[t]) && (s.pcs[t].Waiting? || s.pcs[t].Rereading? ==> s.d.result.Some?)
    requires Available(s.mu, s.pcs[t].Mu(), Onward(s.pcs[t], s.d).0.Mu())
    requires Available(s.tree, s.pcs[t].Tree(), Onward(s.pcs[t], s.d).0.Tree())
    ensures CanMove(s, t)
  {
    hide Acts, Apply, Onward, LockMoves, Available, Taken;
    var p, p', e := s.pcs[t], Onward(s.pcs[t], s.d).0, Onward(s.pcs[t], s.d).1;
    OnwardActs(p, s.d);
    AvailableMoves(s.mu, t, p.Mu(), p'.Mu());
    AvailableMoves(s.tree, t, p.Tree(), p'.Tree());
    var s' := State(Taken(s.mu, t, p.Mu(), p'.Mu()), Taken(s.tree, t, p.Tree(), p'.Tree()), Apply(e, s.d), s.pcs[t := p']);
    assert Moves(s, s', t, p', e);
    assert CanGo(s, t, p');
  }

  /** Only a call that waits takes a lock, and it takes one lock. */
  lemma OnwardHolds(p: Pc, d: Data)
    requires !Finished(p)
    ensures var p' := Onward(p, d).0;
            && (!Waits(p) ==> (p'.Mu() == p.Mu() || p'.Mu() == Nothing) && (p'.Tree() == p.Tree() || p'.Tree() == Nothing))
            && (p.Admitted? || p.At? ==> p'.Mu() == p.Mu() || p'.Mu() == Nothing)
            && (p.Start? || p.Deleted? || p.Waiting? ==> p'.Tree() == p.Tree())
            && (Waits(p) ==> p.Tree() == Nothing) && (p.Start? || p.Deleted? || p.Waiting? ==> p.Mu() == Nothing)
  {
  }

  /** Nobody is in the way of a lock that nobody holds. */
  lemma FreeLock(l: Lock, holds: map<nat, Hold>)
    requires LockKept(l, holds) && forall t :: t in holds ==> holds[t] == Nothing
    ensures l == Lock({}, None)
  {
  }

  /** Main result. In every reachable state in which some call has not returned, some call can go on. */
  lemma NoCallHangs(run: seq<State>, i: nat, t: nat) returns (u: nat)
    requires IsRun(run) && i < |run| && t in run[i].pcs && !Finished(run[i].pcs[t])
    ensures CanMove(run[i], u)
  {
    hide IsRun, Inv, Onward, Available, CanMove, ResultComes;
    Invariant(run, i);
    ResultIsComing(run, i);
    var s := run[i];
    if v :| v in s.pcs && !Finished(s.pcs[v]) && !Waits(s.pcs[v]) {
      FreeToMove(s, v);
      u := v;
    } else if v :| v in s.pcs && !Finished(s.pcs[v]) && (s.pcs[v].Admitted? || s.pcs[v].At?) {
      TreeIsFree(s, v);
      u := v;
    } else {
      u := ObjectIsFree(s, t);
    }
  }

  lemma FreeToMove(s: State, t: nat)
    requires ResultComes(s) && t in s.pcs && !Finished(s.pcs[t]) && !Waits(s.pcs[t])
    ensures CanMove(s, t)
  {
    hide Onward, CanMove;
    OnwardHolds(s.pcs[t], s.d);
    MovesOn(s, t);
  }

  lemma TreeIsFree(s: State, t: nat)
    requires Inv(s) && t in s.pcs && (s.pcs[t].Admitted? || s.pcs[t].At?)
    requires forall u :: u in s.pcs ==> Finished(s.pcs[u]) || Waits(s.pcs[u])
    ensures CanMove(s, t)
  {
    hide Onward, CanMove, PrepareKept, DirtyHidden, CommandsClean, CloseKept;
    OnwardHolds(s.pcs[t], s.d);
    forall u | u in s.pcs ensures Trees(s.pcs)[u] == Nothing {
      if !Finished(s.pcs[u]) { OnwardHolds(s.pcs[u], s.d); }
    }
    FreeLock(s.tree, Trees(s.pcs));
    MovesOn(s, t);
  }

  lemma ObjectIsFree(s: State, t: nat) returns (u: nat)
    requires Inv(s) && ResultComes(s) && t in s.pcs && !Finished(s.pcs[t])
    requires forall u :: u in s.pcs ==> Finished(s.pcs[u]) || s.pcs[u].Start? || s.pcs[u].Deleted? || s.pcs[u].Waiting?
    ensures CanMove(s, u)
  {
    hide Onward, CanMove, PrepareKept, DirtyHidden, CommandsClean;
    forall u | u in s.pcs ensures Mus(s.pcs)[u] == Nothing {
      if !Finished(s.pcs[u]) { OnwardHolds(s.pcs[u], s.d); }
    }
    FreeLock(s.mu, Mus(s.pcs));
    if s.pcs[t].Waiting? && s.d.result.None? {
      assert CloserKept(s.d, s.pcs[t]);
      u :| u in s.pcs && s.pcs[u].FirstCloser();
    } else {
      u := t;
    }
    OnwardHolds(s.pcs[u], s.d);
    MovesOn(s, u);
  }

  // ----- every call returns

  /** How far a call is from its end. */
  function Rank(p: Pc): nat {
    match p
    case Start(_) => 30
    case Checking(_) => 20 case Admitted(_) => 15 case Rechecking(_) => 14 case Running(_) => 13 case Following => 13
    case Beginning => 29 case Begun => 28
    case At(k) => if k <= 2 then 27 - 2 * k else if k == 3 then 19 else if k == 4 then 17 else 6
    case Reading(k) => if k <= 1 then 26 - 2 * k else if k == 2 then 20 else if k == 3 then 18 else 7
    case Window => 22 case Instrumented => 21 case Restored => 20 case WindowFailed => 10 case Panicked => 10 case Failing => 5
    case Leaving => 1
    case Claiming => 20 case Claimed(_) => 19 case ClosingSession(_) => 18 case Deleting => 17 case Deleted(_) => 16
    case Recording(_) => 15 case Recorded(_) => 14
    case Beaten => 12 case Waiting => 11 case Rereading => 10
    case Returned => 0 case Closed(_) => 0
  }

  lemma StepsDescend(p: Pc, p': Pc, e: Effect, d: Data)
    requires Acts(p, p', e, d)
    ensures Rank(p') < Rank(p)
  {
    hide CommandStep, PrepareStep, CloseStep, Rank;
    if PrepareStep(p, p', e, d) { PrepareDescends(p, p', e, d); }
    else if CloseStep(p, p', e, d) { CloseDescends(p, p', e, d); }
    else { CommandDescends(p, p', d); }
  }

  lemma PrepareDescends(p: Pc, p': Pc, e: Effect, d: Data)
    requires PrepareStep(p, p', e, d)
    ensures Rank(p') < Rank(p)
  {
    hide EntryStep, StageStep, WindowStep, Rank;
    if EntryStep(p, p', e, d) { EntryDescends(p, p', e, d); }
    else if StageStep(p, p', e) { StageDescends(p, p', e); }
    else { WindowDescends(p, p', e); }
  }

  lemma EntryDescends(p: Pc, p': Pc, e: Effect, d: Data)
    requires EntryStep(p, p', e, d)
    ensures Rank(p') < Rank(p)
  {
  }

  lemma StageDescends(p: Pc, p': Pc, e: Effect)
    requires StageStep(p, p', e)
    ensures Rank(p') < Rank(p)
  {
  }

  lemma WindowDescends(p: Pc, p': Pc, e: Effect)
    requires WindowStep(p, p', e)
    ensures Rank(p') < Rank(p)
  {
  }

  lemma CloseDescends(p: Pc, p': Pc, e: Effect, d: Data)
    requires CloseStep(p, p', e, d)
    ensures Rank(p') < Rank(p)
  {
  }

  lemma CommandDescends(p: Pc, p': Pc, d: Data)
    requires CommandStep(p, p', d)
    ensures Rank(p') < Rank(p)
  {
  }

  /** The steps that all calls numbered below `n` have left, at most. */
  function Left(pcs: map<nat, Pc>, n: nat): nat {
    if n == 0 then 0 else Left(pcs, n - 1) + (if n - 1 in pcs then Rank(pcs[n - 1]) else 0)
  }

  lemma {:induction false} LeftDescends(pcs: map<nat, Pc>, t: nat, p': Pc, n: nat)
    requires t in pcs && Rank(p') < Rank(pcs[t])
    ensures Left(pcs[t := p'], n) <= Left(pcs, n) && (t < n ==> Left(pcs[t := p'], n) < Left(pcs, n))
  {
    hide Rank;
    if n > 0 { LeftDescends(pcs, t, p', n - 1); }
  }

  ghost predicate Moved(s: State, s': State) { exists t, p', e :: Moves(s, s', t, p', e) }

  /** From the state at `from` on, calls move and none arrives. */
  ghost predicate OnlyMoves(run: seq<State>, from: nat) { forall i :: from < i < |run| ==> Moved(run[i - 1], run[i]) }

  lemma {:induction false} MovesAreFew(run: seq<State>, from: nat, i: nat, n: nat)
    requires from <= i < |run| && OnlyMoves(run, from) && forall t :: t in run[from].pcs ==> t < n
    ensures run[i].pcs.Keys == run[from].pcs.Keys && Left(run[i].pcs, n) + (i - from) <= Left(run[from].pcs, n)
    decreases i
  {
    hide Acts, LockMoves, Apply, Left, Rank;
    if i > from {
      MovesAreFew(run, from, i - 1, n);
      assert Moved(run[i - 1], run[i]);
      var t, p', e :| Moves(run[i - 1], run[i], t, p', e);
      StepsDescend(run[i - 1].pcs[t], p', e, run[i - 1].d);
      LeftDescends(run[i - 1].pcs, t, p', n);
    }
  }

  /** Main result. Once no new call arrives, a bounded number of steps remains whatever the interleaving, and when no step is
      left every call has returned. */
  lemma EveryCallReturns(run: seq<State>, from: nat, n: nat)
    requires IsRun(run) && from < |run| && OnlyMoves(run, from) && forall t :: t in run[from].pcs ==> t < n
    ensures var last := run[|run| - 1];
            && |run| - 1 - from <= Left(run[from].pcs, n)
            && last.pcs.Keys == run[from].pcs.Keys
            && ((forall t :: !CanMove(last, t)) ==> forall t :: t in last.pcs ==> Finished(last.pcs[t]))
  {
    hide IsRun, OnlyMoves, CanMove, Left;
    MovesAreFew(run, from, |run| - 1, n);
    var last := run[|run| - 1];
    if t :| t in last.pcs && !Finished(last.pcs[t]) {
      var u := NoCallHangs(run, |run| - 1, t);
    }
  }

  // ----- after a preparation

  const PUBLISHED := IN_WINDOW.(flags := Flags(false, true, false, true), published := true)

  /** A preparation through its window. */
  lemma RunPastWindow() returns (run: seq<State>)
    ensures IsRun(run) && run[|run| - 1] == State(MINE, FREE, IN_WINDOW, map[0 := At(3)])
  {
    hide IsRun, PrepareStep, Apply, LockMoves;
    WindowIsLeft();
    LocksLeft();
    run := RunToWindow();
    run := Prepares(run, Window, Instrumented, Dirties, IN_WINDOW, MINE, WINDOW, WINDOW);
    run := Prepares(run, Instrumented, Restored, Cleans, DIRTY, MINE, WINDOW, WINDOW);
    run := Prepares(run, Restored, At(3), Keeps, IN_WINDOW, MINE, WINDOW, FREE);
  }

  lemma RunToPublished() returns (run: seq<State>)
    ensures IsRun(run) && run[|run| - 1] == State(MINE, FREE, PUBLISHED, map[0 := Leaving])
  {
    hide IsRun, PrepareStep, Apply, LockMoves;
    WindowIsLeft();
    LocksLeft();
    run := RunPastWindow();
    run := Prepares(run, At(3), At(4), Keeps, IN_WINDOW, MINE, FREE, FREE);
    run := Prepares(run, At(4), Leaving, Publishes, IN_WINDOW, MINE, FREE, FREE);
  }

  lemma WindowIsLeft()
    ensures PrepareStep(Window, Instrumented, Dirties, IN_WINDOW) && Apply(Dirties, IN_WINDOW) == DIRTY
    ensures PrepareStep(Instrumented, Restored, Cleans, DIRTY) && Apply(Cleans, DIRTY) == IN_WINDOW
    ensures PrepareStep(Restored, At(3), Keeps, IN_WINDOW) && Apply(Keeps, IN_WINDOW) == IN_WINDOW
    ensures PrepareStep(At(3), At(4), Keeps, IN_WINDOW)
    ensures PrepareStep(At(4), Leaving, Publishes, IN_WINDOW) && Apply(Publishes, IN_WINDOW) == PUBLISHED
  {
  }

  lemma LocksLeft()
    ensures LockMoves(MINE, MINE, 0, Read, Read) && LockMoves(WINDOW, WINDOW, 0, Write, Write)
    ensures LockMoves(WINDOW, FREE, 0, Write, Nothing) && LockMoves(FREE, FREE, 0, Nothing, Nothing)
    ensures LockMoves(MINE, BOTH, 1, Nothing, Read) && LockMoves(BOTH, BOTH, 1, Read, Read)
    ensures LockMoves(FREE, FREE, 1, Nothing, Nothing) && LockMoves(FREE, THEIRS, 1, Nothing, Read) && LockMoves(THEIRS, THEIRS, 1, Read, Read)
  {
  }

  /** A successful preparation leaves the workspace usable: an `Exec` after it runs, on a clean tree. */
  lemma ExecRunsAfterPrepare() returns (run: seq<State>)
    ensures IsRun(run)
    ensures var last := run[|run| - 1];
            last.d.published && last.d.flags.session && !last.d.dirty && 1 in last.pcs && last.pcs[1] == Running(Exec)
  {
    hide IsRun, LockMoves;
    LocksLeft();
    run := RunToPublished();
    run := Joined(run, Pair(MINE, FREE, PUBLISHED, Leaving, Start(Exec)), 1, Exec);
    run := ExecMoves(run, MINE, BOTH, FREE, FREE, PUBLISHED, Leaving, Start(Exec), Checking(Exec));
    run := ExecMoves(run, BOTH, BOTH, FREE, FREE, PUBLISHED, Leaving, Checking(Exec), Admitted(Exec));
    run := ExecMoves(run, BOTH, BOTH, FREE, THEIRS, PUBLISHED, Leaving, Admitted(Exec), Rechecking(Exec));
    run := ExecMoves(run, BOTH, BOTH, THEIRS, THEIRS, PUBLISHED, Leaving, Rechecking(Exec), Running(Exec));
  }
}
