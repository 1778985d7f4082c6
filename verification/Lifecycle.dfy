/** The workspace lifecycle (workspace.go, session.go): any number of `Exec`, `Module`, `Prepare` and `Close` calls share a
    lock on the object, a lock on the source tree, and a few flags. `Prepare` instruments the tree in one write window and
    restores it before the window closes. */
module Lifecycle {
  import opened Wrappers

  // ----- the flags, read and written under the state mutex

  datatype Flags = Flags(closed: bool, prepareStarted: bool, prepareFailed: bool, session: bool)

  datatype Refusal = WorkspaceClosed | WorkspacePrepared | PrepareFailed

  /** Why a command may not run now. */
  function Refused(f: Flags): Option<Refusal> {
    if f.closed then Some(WorkspaceClosed) else if f.prepareFailed then Some(PrepareFailed) else None
  }

  function PrepareRefused(f: Flags): Option<Refusal> {
    if f.closed then Some(WorkspaceClosed) else if f.prepareStarted then Some(WorkspacePrepared) else None
  }

  /** The methods that touch the flags. Each takes a step of the protocol below. */
  class Workspace {
    var closed: bool
    var prepareStarted: bool
    var prepareFailed: bool
    var session: bool

    function View(): Flags
      reads this
    {
      Flags(closed, prepareStarted, prepareFailed, session)
    }

    constructor ()
      ensures View() == Flags(false, false, false, false)
    {
      closed, prepareStarted, prepareFailed, session := false, false, false, false;
    }

    method BeginPrepare() returns (refused: Option<Refusal>)
      modifies this
      ensures refused == PrepareRefused(old(View()))
      ensures refused.None? <==> !old(closed) && !old(prepareStarted)
      ensures refused == Some(WorkspaceClosed) <==> old(closed)
      ensures View() == if refused.None? then old(View()).(prepareStarted := true) else old(View())
      ensures Takes(old(View()), View(), Beginning, if refused.Some? then Leaving else Begun, if refused.Some? then Keeps else Begins)
    {
      if closed { return Some(WorkspaceClosed); }
      if prepareStarted { return Some(WorkspacePrepared); }
      prepareStarted := true;
      refused := None;
    }

    method AbandonPrepare()
      modifies this
      ensures View() == old(View()).(prepareStarted := false)
      ensures Takes(old(View()), View(), Begun, Leaving, Abandons)
    {
      prepareStarted := false;
    }

    method PrepareDidFail()
      modifies this
      ensures View() == old(View()).(prepareFailed := true)
      ensures Takes(old(View()), View(), Instrumented, WindowFailed, Fails) && Takes(old(View()), View(), Failing, Leaving, Fails)
    {
      prepareFailed := true;
    }

    method PublishSession()
      modifies this
      ensures View() == old(View()).(session := true)
      ensures Takes(old(View()), View(), At(4), Leaving, Publishes)
    {
      session := true;
    }

    method Allowed() returns (refused: Option<Refusal>)
      ensures refused == Refused(View())
      ensures refused.None? <==> !closed && !prepareFailed
      ensures refused == Some(WorkspaceClosed) <==> closed
      ensures forall call :: call == Exec || call == Module ==>
                Takes(View(), View(), Checking(call), if refused.Some? then Leaving else Admitted(call), Keeps)
                && Takes(View(), View(), Rechecking(call), if refused.Some? then Leaving else Running(call), Keeps)
    {
      if closed { return Some(WorkspaceClosed); }
      if prepareFailed { return Some(PrepareFailed); }
      refused := None;
    }

    /** The first closer takes the session away; the others get nothing. */
    method ClaimClose() returns (taken: bool, first: bool)
      modifies this
      ensures first == !old(closed) && taken == (first && old(session))
      ensures View() == if first then old(View()).(closed := true, session := false) else old(View())
      ensures Takes(old(View()), View(), Claiming, if first then Claimed(taken) else Beaten, if first then Claims else Keeps)
    {
      if closed { return false, false; }
      closed := true;
      taken, first := session, true;
      session := false;
    }
  }

  // ----- locks

  datatype Hold = Nothing | Read | Write

  datatype Lock = Lock(readers: set<nat>, writer: Option<nat>)

  /** What a readers-writer lock does when thread `t` goes from one hold to another. */
  predicate LockMoves(l: Lock, l': Lock, t: nat, before: Hold, after: Hold) {
    match (before, after)
    case (Nothing, Read) => l.writer.None? && l' == l.(readers := l.readers + {t})
    case (Nothing, Write) => l.writer.None? && l.readers == {} && l' == l.(writer := Some(t))
    case (Read, Nothing) => l' == l.(readers := l.readers - {t})
    case (Write, Nothing) => l' == l.(writer := None)
    case _ => before == after && l' == l
  }

  // ----- where a call stands

  datatype Call = Exec | Module | Prepare | Close

  /** `At(0)` to `At(4)` are the stages of a preparation: discovery, probe snapshot, write window, verification, builds. */
  datatype Pc =
    | Start(call: Call)
    | Checking(call: Call) | Admitted(call: Call) | Rechecking(call: Call) | Running(call: Call) | Following
    | Beginning | Begun | At(stage: nat) | Reading(stage: nat)
    | Window | Instrumented | Restored | WindowFailed | Panicked | Failing
    | Leaving
    | Claiming | Claimed(taken: bool) | Beaten | ClosingSession(taken: bool) | Deleting | Deleted(err: bool)
    | Recording(err: bool) | Recorded(err: bool) | Waiting | Rereading
    | Returned | Closed(err: bool)
  {
    /** The hold on the object lock. */
    function Mu(): Hold {
      if Start? || ClosingSession? || Deleting? || Deleted? || Waiting? || Returned? || Closed? then Nothing
      else if Claiming? || Claimed? || Beaten? || Recording? || Recorded? || Rereading? then Write
      else Read
    }

    /** The hold on the tree lock. */
    function Tree(): Hold {
      if Rechecking? || Running? || Reading? then Read
      else if Window? || Instrumented? || Restored? || WindowFailed? then Write
      else Nothing
    }

    /** The call got past its first check and is not on its way out. */
    predicate InProgress() {
      Admitted? || Rechecking? || Running? || Following? || Preparing()
    }

    predicate Preparing() { Begun? || Spent() }

    /** The preparation has been used up. */
    predicate Spent() {
      At? || Reading? || Window? || Instrumented? || Restored? || WindowFailed? || Panicked? || Failing?
    }

    predicate BeforeWindow() { (At? && stage <= 2) || (Reading? && stage <= 1) }

    predicate AfterWindow() { (At? && stage > 2) || (Reading? && stage > 1) }

    predicate FirstCloser() {
      Claimed? || ClosingSession? || Deleting? || Deleted? || Recording?
    }
  }

  /** What the threads share besides the locks. `dirty`: the tree is instrumented. `panicked`: a panic cut a window
      short while it was. */
  datatype Data = Data(flags: Flags, dirty: bool, panicked: bool, spent: bool, windows: nat,
                       published: bool, sessionClosed: bool, deleted: bool, result: Option<bool>)

  datatype State = State(mu: Lock, tree: Lock, d: Data, pcs: map<nat, Pc>)

  const START := Data(Flags(false, false, false, false), false, false, false, 0, false, false, false, None)

  predicate Init(s: State) { s == State(Lock({}, None), Lock({}, None), START, map[]) }

  /** What a step does to the shared data. */
  datatype Effect =
    | Keeps | Begins | Abandons | Spends | Opens | Dirties | Cleans | Fails | Cuts | Publishes
    | Claims | ClosesSession | Deletes | Records(err: bool)

  function Apply(e: Effect, d: Data): Data {
    Data(Flags(d.flags.closed || e.Claims?,
               (d.flags.prepareStarted || e.Begins?) && !e.Abandons?,
               d.flags.prepareFailed || e.Fails?,
               (d.flags.session || e.Publishes?) && !e.Claims?),
         (d.dirty || e.Dirties?) && !e.Cleans?,
         d.panicked || (e.Cuts? && d.dirty),
         d.spent || e.Spends?,
         if e.Opens? then d.windows + 1 else d.windows,
         d.published || e.Publishes?,
         d.sessionClosed || e.ClosesSession?,
         d.deleted || e.Deletes?,
         if e.Records? then Some(e.err) else d.result)
  }

  // ----- one step of one call, apart from the locks

  predicate CommandStep(p: Pc, p': Pc, d: Data) {
    if p.Start? then (p.call.Exec? || p.call.Module?) && p' == Checking(p.call)
    else if p.Checking? then
      if Refused(d.flags).Some? then p' == Leaving
      else p' == Admitted(p.call) || (p.call.Module? && (p' == Following || p' == Leaving))
    else if p.Admitted? then p' == Rechecking(p.call) || (p.call.Exec? && p' == Leaving)
    else if p.Rechecking? then if Refused(d.flags).Some? then p' == Leaving else p' == Running(p.call)
    else if p.Running? || p.Following? then p' == Leaving
    else p.Leaving? && p' == Returned
  }

  predicate PrepareStep(p: Pc, p': Pc, e: Effect, d: Data) {
    EntryStep(p, p', e, d) || StageStep(p, p', e) || WindowStep(p, p', e)
  }

  /** In at the beginning, and out at the end. */
  predicate EntryStep(p: Pc, p': Pc, e: Effect, d: Data) {
    if p.Start? then p.call.Prepare? && p' == Beginning && e == Keeps
    else if p.Beginning? then
      if PrepareRefused(d.flags).Some? then p' == Leaving && e == Keeps else p' == Begun && e == Begins
    else if p.Begun? then (p' == Leaving && e == Abandons) || (p' == At(0) && e == Spends)
    else (p.Failing? || p.Panicked?) && p' == Leaving && e == Fails
  }

  predicate StageStep(p: Pc, p': Pc, e: Effect) {
    if p.Reading? then (p' == At(p.stage + 1) || p' == Failing) && e == Keeps
    else
      && p.At?
      && var k := p.stage;
         || (p' == Failing && e == Keeps)
         || ((k == 0 || k == 1 || k == 3) && p' == Reading(k) && e == Keeps)
         || ((k == 1 || k == 3) && p' == At(k + 1) && e == Keeps)
         || (k == 2 && p' == Window && e == Opens)
         || (k == 4 && p' == Leaving && e == Publishes)
  }

  /** An error sets the flag while the tree is locked; a panic unlocks the tree first, and the flag comes later. */
  predicate WindowStep(p: Pc, p': Pc, e: Effect) {
    if p.WindowFailed? then p' == Failing && e == Keeps
    else
      && (p.Window? || p.Instrumented? || p.Restored?)
      && (|| (p' == WindowFailed && e == Fails)
          || (p' == Panicked && e == Cuts)
          || (p.Window? && p' == Instrumented && e == Dirties)
          || (p.Instrumented? && p' == Restored && e == Cleans)
          || (p.Restored? && p' == At(3) && e == Keeps))
  }

  predicate CloseStep(p: Pc, p': Pc, e: Effect, d: Data) {
    if p.Claiming? then
      if d.flags.closed then p' == Beaten && e == Keeps else p' == Claimed(d.flags.session) && e == Claims
    else if p.ClosingSession? then p' == Deleting && e == if p.taken then ClosesSession else Keeps
    else if p.Deleting? then p'.Deleted? && e == Deletes
    else if p.Recording? then p' == Recorded(p.err) && e == Records(p.err)
    else e == Keeps && CloseMoves(p, p', d)
  }

  /** The steps of a closer that change nothing but its place. */
  predicate CloseMoves(p: Pc, p': Pc, d: Data) {
    if p.Start? then p.call.Close? && p' == Claiming
    else if p.Claimed? then p' == ClosingSession(p.taken)
    else if p.Deleted? then p' == Recording(p.err)
    else if p.Recorded? then p' == Closed(p.err)
    else if p.Beaten? then p' == Waiting
    else if p.Waiting? then d.result.Some? && p' == Rereading
    else p.Rereading? && d.result.Some? && p' == Closed(d.result.value)
  }

  /** What a method did to the flags is what this step does, whatever the rest of the shared data is. */
  ghost predicate Takes(was: Flags, now: Flags, p: Pc, p': Pc, e: Effect) {
    forall d: Data :: d.flags == was ==> Acts(p, p', e, d) && Apply(e, d).flags == now
  }

  predicate Moves(s: State, s': State, t: nat, p': Pc, e: Effect) {
    && t in s.pcs && s'.pcs == s.pcs[t := p'] && s'.d == Apply(e, s.d)
    && LockMoves(s.mu, s'.mu, t, s.pcs[t].Mu(), p'.Mu())
    && LockMoves(s.tree, s'.tree, t, s.pcs[t].Tree(), p'.Tree())
    && Acts(s.pcs[t], p', e, s.d)
  }

  predicate Acts(p: Pc, p': Pc, e: Effect, d: Data) {
    (CommandStep(p, p', d) && e == Keeps) || PrepareStep(p, p', e, d) || CloseStep(p, p', e, d)
  }

  predicate Arrives(s: State, s': State, t: nat, call: Call) {
    t !in s.pcs && s' == s.(pcs := s.pcs[t := Start(call)])
  }

  ghost predicate Step(s: State, s': State) {
    (exists t, p', e :: Moves(s, s', t, p', e)) || (exists t, call :: Arrives(s, s', t, call))
  }

  /** Any interleaving of any number of calls. */
  ghost predicate IsRun(run: seq<State>) {
    run != [] && Init(run[0]) && forall i :: 0 < i < |run| ==> Step(run[i - 1], run[i])
  }

  // ----- the invariant

  ghost predicate LockKept(l: Lock, holds: map<nat, Hold>) {
    && (forall t :: t in l.readers <==> t in holds && holds[t] == Read)
    && (forall t :: l.writer == Some(t) <==> t in holds && holds[t] == Write)
    && (l.writer.Some? ==> l.readers == {})
  }

  function Mus(pcs: map<nat, Pc>): map<nat, Hold> { map t | t in pcs :: pcs[t].Mu() }

  function Trees(pcs: map<nat, Pc>): map<nat, Hold> { map t | t in pcs :: pcs[t].Tree() }

  /** At most one call prepares, its window is the only one, and only a window makes the tree dirty. */
  ghost predicate PrepareKept(d: Data, pcs: map<nat, Pc>) {
    && WindowsKept(d)
    && (forall t, u :: t in pcs && u in pcs && pcs[t].Preparing() && pcs[u].Preparing() ==> t == u)
    && forall t :: t in pcs && pcs[t].Preparing() ==> PreparerKept(d, pcs[t])
  }

  predicate WindowsKept(d: Data) {
    && (d.spent ==> d.flags.prepareStarted)
    && (d.windows == 0 ==> !d.dirty) && d.windows <= 1 && (d.windows == 1 ==> d.spent)
    && (d.panicked ==> d.windows == 1)
  }

  predicate PreparerKept(d: Data, p: Pc) {
    && d.flags.prepareStarted && d.spent == p.Spent()
    && (p.BeforeWindow() ==> d.windows == 0)
    && (p.Window? || p.Restored? || p.AfterWindow() ==> !d.dirty && !d.panicked)
    && (p.WindowFailed? ==> d.flags.prepareFailed)
    && (p.Instrumented? ==> !d.panicked)
    && (p.Window? || p.Instrumented? || p.Restored? || p.WindowFailed? || p.Panicked? ==> d.windows == 1)
    && (p.AfterWindow() ==> d.windows == 1)
  }

  /** The tree is dirty only behind the write lock or behind the flag, unless a panic cut the window short. */
  ghost predicate DirtyHidden(d: Data, pcs: map<nat, Pc>) {
    Exposed(d) ==> exists t :: t in pcs && pcs[t].Instrumented?
  }

  predicate Exposed(d: Data) { d.dirty && !d.panicked && !d.flags.prepareFailed }

  /** No command is on a dirty tree. */
  ghost predicate CommandsClean(d: Data, pcs: map<nat, Pc>) {
    d.dirty && !d.panicked ==> forall t :: t in pcs ==> !pcs[t].Running?
  }

  ghost predicate CloseKept(d: Data, pcs: map<nat, Pc>) {
    && ClosingKept(d)
    && (d.flags.closed ==> forall t :: t in pcs ==> !pcs[t].InProgress())
    && (forall t, u :: t in pcs && u in pcs && pcs[t].FirstCloser() && pcs[u].FirstCloser() ==> t == u)
    && forall t :: t in pcs ==> CloserKept(d, pcs[t])
  }

  predicate ClosingKept(d: Data) {
    && (d.flags.session == (d.published && !d.flags.closed))
    && (d.result.Some? ==> d.flags.closed && d.deleted)
    && (d.deleted ==> d.flags.closed && (d.published ==> d.sessionClosed))
  }

  predicate CloserKept(d: Data, p: Pc) {
    && (p.FirstCloser() ==> d.flags.closed && d.result.None?)
    && (p.Claimed? || p.ClosingSession? ==> p.taken == d.published)
    && (p.Deleting? || p.Deleted? || p.Recording? || p.Recorded? ==> d.published ==> d.sessionClosed)
    && (p.Deleted? || p.Recording? || p.Recorded? || p.Rereading? ==> d.deleted)
    && (p.Recorded? || p.Closed? ==> d.result == Some(p.err))
    && (p.Beaten? || p.Waiting? ==> d.flags.closed)
  }

  ghost predicate Inv(s: State) {
    && LockKept(s.mu, Mus(s.pcs)) && LockKept(s.tree, Trees(s.pcs))
    && PrepareKept(s.d, s.pcs) && DirtyHidden(s.d, s.pcs) && CommandsClean(s.d, s.pcs) && CloseKept(s.d, s.pcs)
  }

  // ----- what one step does, seen from the call that takes it

  /** Commands and closers leave the preparation alone. */
  lemma OthersLeavePreparation(p: Pc, p': Pc, e: Effect, d: Data)
    requires (CommandStep(p, p', d) && e == Keeps) || CloseStep(p, p', e, d)
    ensures e.Keeps? || e.Claims? || e.ClosesSession? || e.Deletes? || e.Records?
    ensures !p.Preparing() && !p'.Preparing() && !p.Instrumented? && !p'.Instrumented?
  {
  }

  /** The steps of a preparation, by their effect. */
  predicate Prepared(p: Pc, p': Pc, e: Effect, d: Data) {
    && !(e.Claims? || e.ClosesSession? || e.Deletes? || e.Records?)
    && (e.Dirties? <==> p.Window? && p'.Instrumented?)
    && (p'.Instrumented? ==> e.Dirties?)
    && (p.Instrumented? ==> e.Cleans? || e.Fails? || e.Cuts?)
    && (p'.Preparing() || p.Preparing() || e.Keeps?)
    && (!p.Preparing() && p'.Preparing() ==> e.Begins? && !d.flags.prepareStarted)
    && (!e.Keeps? && !e.Begins? ==> p.InProgress())
    && (p'.InProgress() ==> p.InProgress() || !d.flags.closed)
    && !p'.FirstCloser() && (p'.Failing? || p'.Leaving? || p'.Beginning? || p'.Preparing())
  }

  lemma EntryEffects(p: Pc, p': Pc, e: Effect, d: Data)
    requires EntryStep(p, p', e, d)
    ensures Prepared(p, p', e, d)
  {
  }

  lemma StageEffects(p: Pc, p': Pc, e: Effect, d: Data)
    requires StageStep(p, p', e)
    ensures Prepared(p, p', e, d) && p.Preparing()
  {
  }

  lemma WindowEffects(p: Pc, p': Pc, e: Effect, d: Data)
    requires WindowStep(p, p', e)
    ensures Prepared(p, p', e, d) && p.Preparing() && p'.Preparing()
  {
  }

  lemma PrepareEffects(p: Pc, p': Pc, e: Effect, d: Data)
    requires PrepareStep(p, p', e, d)
    ensures Prepared(p, p', e, d)
  {
    hide Prepared, EntryStep, StageStep, WindowStep;
    if EntryStep(p, p', e, d) { EntryEffects(p, p', e, d); }
    else if StageStep(p, p', e) { StageEffects(p, p', e, d); }
    else { WindowEffects(p, p', e, d); }
  }

  lemma PreparerStep(p: Pc, p': Pc, e: Effect, d: Data)
    requires PrepareStep(p, p', e, d) && WindowsKept(d) && (p.Preparing() ==> PreparerKept(d, p))
    ensures WindowsKept(Apply(e, d)) && (p'.Preparing() ==> PreparerKept(Apply(e, d), p'))
  {
    hide Prepared, EntryStep, StageStep, WindowStep, WindowsKept, PreparerKept, Apply, Pc.Preparing;
    if EntryStep(p, p', e, d) {
      PreparerEnters(p, p', e, d);
    } else if StageStep(p, p', e) {
      StageEffects(p, p', e, d);
      PreparerStages(p, p', e, d);
    } else {
      WindowEffects(p, p', e, d);
      PreparerInWindow(p, p', e, d);
    }
  }

  lemma PreparerEnters(p: Pc, p': Pc, e: Effect, d: Data)
    requires EntryStep(p, p', e, d) && WindowsKept(d) && (p.Preparing() ==> PreparerKept(d, p))
    ensures WindowsKept(Apply(e, d)) && (p'.Preparing() ==> PreparerKept(Apply(e, d), p'))
  {
  }

  lemma PreparerStages(p: Pc, p': Pc, e: Effect, d: Data)
    requires StageStep(p, p', e) && WindowsKept(d) && PreparerKept(d, p)
    ensures WindowsKept(Apply(e, d)) && (p'.Preparing() ==> PreparerKept(Apply(e, d), p'))
  {
  }

  lemma PreparerInWindow(p: Pc, p': Pc, e: Effect, d: Data)
    requires WindowStep(p, p', e) && WindowsKept(d) && PreparerKept(d, p)
    ensures WindowsKept(Apply(e, d)) && PreparerKept(Apply(e, d), p')
  {
  }

  lemma DirtyStep(p: Pc, p': Pc, e: Effect, d: Data)
    requires Acts(p, p', e, d)
    ensures Exposed(Apply(e, d)) ==> p'.Instrumented? || (Exposed(d) && !p.Instrumented?)
    ensures Apply(e, d).dirty && !Apply(e, d).panicked ==> p'.Instrumented? || (d.dirty && !d.panicked)
  {
    hide CommandStep, CloseStep, PrepareStep, Pc.Preparing, Pc.InProgress, Pc.FirstCloser;
    if PrepareStep(p, p', e, d) { PrepareEffects(p, p', e, d); } else { OthersLeavePreparation(p, p', e, d); }
  }

  /** A command begins only from its second check, and only when the flag is not set. */
  lemma RunningStep(p: Pc, p': Pc, e: Effect, d: Data)
    requires Acts(p, p', e, d) && p'.Running?
    ensures p.Rechecking? && !d.flags.prepareFailed
  {
    hide CommandStep, PrepareStep, CloseStep;
    if PrepareStep(p, p', e, d) {
      PrepareEffects(p, p', e, d);
    } else if CloseStep(p, p', e, d) {
      CloserNeverRuns(p, p', e, d);
    } else {
      CommandRuns(p, p', d);
    }
  }

  lemma CommandRuns(p: Pc, p': Pc, d: Data)
    requires CommandStep(p, p', d) && p'.Running?
    ensures p.Rechecking? && !d.flags.prepareFailed
  {
  }

  lemma CloserNeverRuns(p: Pc, p': Pc, e: Effect, d: Data)
    requires CloseStep(p, p', e, d)
    ensures !p'.Running? && !p'.InProgress()
  {
  }

  lemma CommandLeavesClosing(p: Pc, p': Pc, d: Data)
    requires CommandStep(p, p', d) && (d.flags.closed ==> !p.InProgress())
    ensures !p'.FirstCloser() && CloserKept(d, p') && (d.flags.closed ==> !p'.InProgress())
  {
  }

  lemma PrepareLeavesClosing(p: Pc, p': Pc, e: Effect, d: Data)
    requires PrepareStep(p, p', e, d) && ClosingKept(d) && (d.flags.closed ==> !p.InProgress())
    ensures ClosingKept(Apply(e, d)) && !p'.FirstCloser() && CloserKept(Apply(e, d), p')
    ensures !e.Claims? && !e.ClosesSession? && !e.Deletes? && !e.Records?
    ensures d.flags.closed ==> !e.Publishes? && !p'.InProgress()
  {
    hide PrepareStep, EntryStep, StageStep, WindowStep;
    PrepareEffects(p, p', e, d);
  }

  lemma OthersLeaveClosing(p: Pc, p': Pc, e: Effect, d: Data)
    requires (CommandStep(p, p', d) && e == Keeps) || PrepareStep(p, p', e, d)
    requires ClosingKept(d) && (d.flags.closed ==> !p.InProgress())
    ensures ClosingKept(Apply(e, d)) && !p'.FirstCloser() && CloserKept(Apply(e, d), p')
    ensures !e.Claims? && !e.ClosesSession? && !e.Deletes? && !e.Records?
    ensures d.flags.closed ==> !e.Publishes? && !p'.InProgress()
  {
    hide CommandStep, PrepareStep, CloserKept, Pc.FirstCloser, Pc.InProgress;
    if PrepareStep(p, p', e, d) {
      PrepareLeavesClosing(p, p', e, d);
    } else {
      CommandLeavesClosing(p, p', d);
      assert Apply(e, d) == d;
    }
  }

  predicate Closing(p: Pc, p': Pc, e: Effect, d: Data) {
    && ClosingKept(Apply(e, d)) && CloserKept(Apply(e, d), p') && !p'.InProgress()
    && (p'.FirstCloser() ==> p.FirstCloser() || !d.flags.closed)
    && (p.FirstCloser() || (e.Claims? && p.Claiming? && !d.flags.closed) || e.Keeps?)
    && (e.Claims? ==> p.Claiming? && !d.flags.closed)
    && (e.Keeps? || e.Claims? || e.ClosesSession? || e.Deletes? || e.Records?)
    && (e.Records? ==> d.result.None?)
  }

  lemma CloserStep(p: Pc, p': Pc, e: Effect, d: Data)
    requires CloseStep(p, p', e, d) && ClosingKept(d) && CloserKept(d, p)
    ensures Closing(p, p', e, d)
  {
    hide Closing, ClosingKept, CloserKept, CloseMoves;
    if p.Claiming? || p.ClosingSession? || p.Deleting? || p.Recording? {
      CloserActs(p, p', e, d);
    } else {
      CloserMoves(p, p', e, d);
    }
  }

  lemma CloserActs(p: Pc, p': Pc, e: Effect, d: Data)
    requires p.Claiming? || p.ClosingSession? || p.Deleting? || p.Recording?
    requires CloseStep(p, p', e, d) && ClosingKept(d) && CloserKept(d, p)
    ensures Closing(p, p', e, d)
  {
    hide CloseMoves;
  }

  lemma CloserMoves(p: Pc, p': Pc, e: Effect, d: Data)
    requires e == Keeps && CloseMoves(p, p', d) && ClosingKept(d) && CloserKept(d, p)
    ensures Closing(p, p', e, d)
  {
  }

  // ----- the invariant is kept

  lemma LockStays(l: Lock, l': Lock, holds: map<nat, Hold>, t: nat, before: Hold, after: Hold)
    requires LockKept(l, holds) && (t in holds ==> holds[t] == before) && (t !in holds ==> before == Nothing)
    requires LockMoves(l, l', t, before, after)
    ensures LockKept(l', holds[t := after])
  {
  }

  lemma LocksStay(s: State, s': State, t: nat, p': Pc, e: Effect)
    requires LockKept(s.mu, Mus(s.pcs)) && LockKept(s.tree, Trees(s.pcs)) && Moves(s, s', t, p', e)
    ensures LockKept(s'.mu, Mus(s'.pcs)) && LockKept(s'.tree, Trees(s'.pcs))
  {
    hide Acts, Apply, LockKept, LockMoves, Pc.Mu, Pc.Tree;
    LockStays(s.mu, s'.mu, Mus(s.pcs), t, s.pcs[t].Mu(), p'.Mu());
    LockStays(s.tree, s'.tree, Trees(s.pcs), t, s.pcs[t].Tree(), p'.Tree());
    assert Mus(s'.pcs) == Mus(s.pcs)[t := p'.Mu()];
    assert Trees(s'.pcs) == Trees(s.pcs)[t := p'.Tree()];
  }

  lemma PrepareStays(d: Data, pcs: map<nat, Pc>, t: nat, p': Pc, e: Effect)
    requires t in pcs && PrepareKept(d, pcs) && Acts(pcs[t], p', e, d)
    ensures PrepareKept(Apply(e, d), pcs[t := p'])
  {
    hide CommandStep, PrepareStep, CloseStep, Pc.Preparing, Pc.Spent, Pc.BeforeWindow, Pc.AfterWindow, Pc.InProgress, Pc.FirstCloser;
    var p := pcs[t];
    if PrepareStep(p, p', e, d) {
      PreparerStep(p, p', e, d);
      PrepareEffects(p, p', e, d);
    } else {
      OthersLeavePreparation(p, p', e, d);
    }
  }

  lemma DirtyStays(d: Data, pcs: map<nat, Pc>, t: nat, p': Pc, e: Effect)
    requires t in pcs && DirtyHidden(d, pcs) && Acts(pcs[t], p', e, d)
    ensures DirtyHidden(Apply(e, d), pcs[t := p'])
  {
    hide Acts, Exposed, Apply;
    DirtyStep(pcs[t], p', e, d);
    if Exposed(Apply(e, d)) {
      if p'.Instrumented? {
        assert pcs[t := p'][t].Instrumented?;
      } else {
        var u :| u in pcs && pcs[u].Instrumented?;
        assert pcs[t := p'][u].Instrumented?;
      }
    }
  }

  lemma InstrumentedExcludesReaders(tree: Lock, pcs: map<nat, Pc>, t: nat, u: nat)
    requires LockKept(tree, Trees(pcs)) && t in pcs && pcs[t].Instrumented? && u in pcs
    ensures pcs[u].Tree() != Read
  {
    assert Trees(pcs)[t] == Write && Trees(pcs)[u] == pcs[u].Tree();
  }

  lemma CommandsStay(s: State, s': State, t: nat, p': Pc, e: Effect)
    requires LockKept(s.tree, Trees(s.pcs)) && DirtyHidden(s.d, s.pcs) && CommandsClean(s.d, s.pcs) && Moves(s, s', t, p', e)
    requires LockKept(s'.tree, Trees(s'.pcs))
    ensures CommandsClean(s'.d, s'.pcs)
  {
    hide Acts, LockMoves, LockKept, Apply;
    DirtyStep(s.pcs[t], p', e, s.d);
    if s'.d.dirty && !s'.d.panicked {
      forall u | u in s'.pcs ensures !s'.pcs[u].Running? {
        if p'.Instrumented? {
          InstrumentedExcludesReaders(s'.tree, s'.pcs, t, u);
        } else if u == t && p'.Running? {
          RunningStep(s.pcs[t], p', e, s.d);
          var v :| v in s.pcs && s.pcs[v].Instrumented?;
          InstrumentedExcludesReaders(s.tree, s.pcs, v, t);
        }
      }
    }
  }

  lemma CloseStays(s: State, s': State, t: nat, p': Pc, e: Effect)
    requires LockKept(s.mu, Mus(s.pcs)) && CloseKept(s.d, s.pcs) && Moves(s, s', t, p', e)
    ensures CloseKept(s'.d, s'.pcs)
  {
    hide CommandStep, PrepareStep, CloseStep, LockMoves, ClosingKept, Pc.FirstCloser, Pc.InProgress, CloserKept;
    var p := s.pcs[t];
    assert CloserKept(s.d, p);
    if CloseStep(p, p', e, s.d) { CloserStep(p, p', e, s.d); } else { OthersLeaveClosing(p, p', e, s.d); }
    forall u | u in s'.pcs && u != t
      ensures CloserKept(s'.d, s'.pcs[u]) && (s.pcs[u].FirstCloser() ==> s.d.flags.closed)
    { OtherCloserStays(s, s', t, p', e, u); }
    if !s.d.flags.closed && s'.d.flags.closed {
      forall u | u in s'.pcs && u != t ensures !s'.pcs[u].InProgress() { ClaimantIsAlone(s, t, u); }
    }
  }

  lemma OtherCloserStays(s: State, s': State, t: nat, p': Pc, e: Effect, u: nat)
    requires CloseKept(s.d, s.pcs) && Moves(s, s', t, p', e) && u in s.pcs && u != t
    ensures CloserKept(s'.d, s.pcs[u]) && (s.pcs[u].FirstCloser() ==> s.d.flags.closed)
  {
    hide CommandStep, PrepareStep, CloseStep, LockMoves, Pc.InProgress;
    var p := s.pcs[t];
    assert CloserKept(s.d, p) && CloserKept(s.d, s.pcs[u]);
    if CloseStep(p, p', e, s.d) { CloserStep(p, p', e, s.d); } else { OthersLeaveClosing(p, p', e, s.d); }
  }

  /** A call that claims the close under the write lock has the workspace to itself. */
  lemma ClaimantIsAlone(s: State, t: nat, u: nat)
    requires LockKept(s.mu, Mus(s.pcs)) && t in s.pcs && u in s.pcs && u != t && s.pcs[t].Claiming?
    ensures !s.pcs[u].InProgress()
  {
    assert Mus(s.pcs)[t] == Write && Mus(s.pcs)[u] == s.pcs[u].Mu();
  }

  lemma ArrivalKeeps(s: State, s': State, t: nat, call: Call)
    requires Inv(s) && Arrives(s, s', t, call)
    ensures Inv(s')
  {
    hide WindowsKept, PreparerKept, ClosingKept, LockKept;
    ArrivalKeepsLocks(s, s', t, call);
    var p := Start(call);
    assert !p.Preparing() && !p.InProgress() && !p.FirstCloser() && CloserKept(s.d, p);
    if Exposed(s.d) {
      var u :| u in s.pcs && s.pcs[u].Instrumented?;
      assert s'.pcs[u].Instrumented?;
    }
  }

  lemma ArrivalKeepsLocks(s: State, s': State, t: nat, call: Call)
    requires LockKept(s.mu, Mus(s.pcs)) && LockKept(s.tree, Trees(s.pcs)) && Arrives(s, s', t, call)
    ensures LockKept(s'.mu, Mus(s'.pcs)) && LockKept(s'.tree, Trees(s'.pcs))
  {
    hide LockKept;
    assert Mus(s'.pcs) == Mus(s.pcs)[t := Nothing] && Trees(s'.pcs) == Trees(s.pcs)[t := Nothing];
    LockStays(s.mu, s.mu, Mus(s.pcs), t, Nothing, Nothing);
    LockStays(s.tree, s.tree, Trees(s.pcs), t, Nothing, Nothing);
  }

  lemma StepKeeps(s: State, s': State)
    requires Inv(s) && Step(s, s')
    ensures Inv(s')
  {
    hide Inv, Moves, Arrives;
    if t, p', e :| Moves(s, s', t, p', e) {
      MoveKeeps(s, s', t, p', e);
    } else {
      var t, call :| Arrives(s, s', t, call);
      ArrivalKeeps(s, s', t, call);
    }
  }

  lemma MoveKeeps(s: State, s': State, t: nat, p': Pc, e: Effect)
    requires Inv(s) && Moves(s, s', t, p', e)
    ensures Inv(s')
  {
    hide Acts, Apply, LockMoves, LockKept, PrepareKept, DirtyHidden, CommandsClean, CloseKept;
    LocksStay(s, s', t, p', e);
    PrepareStays(s.d, s.pcs, t, p', e);
    DirtyStays(s.d, s.pcs, t, p', e);
    CommandsStay(s, s', t, p', e);
    CloseStays(s, s', t, p', e);
  }

  lemma {:induction false} Invariant(run: seq<State>, i: nat)
    requires IsRun(run) && i < |run|
    ensures Inv(run[i])
  {
    if i == 0 {
      assert Mus(map[]) == map[] && Trees(map[]) == map[];
    } else {
      Invariant(run, i - 1);
      StepKeeps(run[i - 1], run[i]);
    }
  }

  // ----- main results

  /** Over every interleaving, no command runs and no phase reads while the tree is instrumented, and at most one window
      ever opens, unless a panic cut the window short while the tree was instrumented. */
  lemma NoCommandOnInstrumentedTree(run: seq<State>, i: nat, t: nat)
    requires IsRun(run) && i < |run| && t in run[i].pcs
    ensures run[i].d.windows <= 1
    ensures run[i].pcs[t].Tree() == Read && run[i].d.dirty && !run[i].pcs[t].Rechecking? ==> run[i].d.panicked
    ensures run[i].d.dirty && !run[i].d.panicked ==> run[i].tree.writer.Some? || run[i].d.flags.prepareFailed
  {
    Invariant(run, i);
    if Exposed(run[i].d) {
      var u :| u in run[i].pcs && run[i].pcs[u].Instrumented?;
      assert Trees(run[i].pcs)[u] == Write;
    }
  }

  /** A window that fails has set the flag while it still holds the tree. */
  lemma FailedWindowIsFlagged(run: seq<State>, i: nat, t: nat)
    requires IsRun(run) && i < |run| && t in run[i].pcs && run[i].pcs[t] == WindowFailed
    ensures run[i].d.flags.prepareFailed && run[i].tree.writer == Some(t)
  {
    Invariant(run, i);
    assert Trees(run[i].pcs)[t] == Write;
  }

  /** From the moment a closer starts deleting, no call is in progress and the session has been closed. */
  lemma DeletionIsAlone(run: seq<State>, i: nat, t: nat, u: nat)
    requires IsRun(run) && i < |run| && t in run[i].pcs && u in run[i].pcs
    requires run[i].pcs[t].Deleting? || run[i].d.deleted
    ensures !run[i].pcs[u].InProgress() && run[i].d.flags.closed
    ensures run[i].d.published ==> run[i].d.sessionClosed
  {
    Invariant(run, i);
  }

  /** Every closer returns the one recorded result, and only after the deletion. */
  lemma ClosersAgree(run: seq<State>, i: nat, t: nat, u: nat)
    requires IsRun(run) && i < |run| && t in run[i].pcs && u in run[i].pcs
    requires run[i].pcs[t].Closed? && run[i].pcs[u].Closed?
    ensures run[i].pcs[t] == run[i].pcs[u] && run[i].d.deleted && run[i].d.result == Some(run[i].pcs[t].err)
  {
    Invariant(run, i);
  }

  /** Once a call is refused because the workspace is closed, nothing begins any more. */
  lemma {:induction false} ClosedForGood(run: seq<State>, i: nat, j: nat)
    requires IsRun(run) && i <= j < |run| && run[i].d.flags.closed
    ensures run[j].d.flags.closed && forall t :: t in run[j].pcs ==> !run[j].pcs[t].InProgress()
    decreases j
  {
    hide Inv, Step;
    Invariant(run, j);
    if i < j {
      ClosedForGood(run, i, j - 1);
      ClosedStays(run[j - 1], run[j]);
    }
    ClosedMeansIdle(run[j]);
  }

  lemma ClosedMeansIdle(s: State)
    requires Inv(s) && s.d.flags.closed
    ensures forall t :: t in s.pcs ==> !s.pcs[t].InProgress()
  {
  }

  lemma ClosedStays(s: State, s': State)
    requires Step(s, s') && s.d.flags.closed
    ensures s'.d.flags.closed
  {
    hide Acts, LockMoves;
  }

  // ----- a panic in the window

  lemma Extended(run: seq<State>, s': State, t: nat, p': Pc, e: Effect) returns (longer: seq<State>)
    requires IsRun(run) && Moves(run[|run| - 1], s', t, p', e)
    ensures IsRun(longer) && longer[|longer| - 1] == s'
  {
    hide Moves;
    longer := run + [s'];
    assert Step(run[|run| - 1], s');
  }

  lemma Joined(run: seq<State>, s': State, t: nat, call: Call) returns (longer: seq<State>)
    requires IsRun(run) && Arrives(run[|run| - 1], s', t, call)
    ensures IsRun(longer) && longer[|longer| - 1] == s'
  {
    longer := run + [s'];
    assert Step(run[|run| - 1], s');
  }

  const FREE := Lock({}, None)
  const MINE := Lock({0}, None)
  const BOTH := Lock({0, 1}, None)
  const THEIRS := Lock({1}, None)
  const WINDOW := Lock({}, Some(0))
  const STARTED := START.(flags := Flags(false, true, false, false))
  const SPENT := STARTED.(spent := true)
  const IN_WINDOW := SPENT.(windows := 1)
  const DIRTY := IN_WINDOW.(dirty := true)
  const CUT := IN_WINDOW.(dirty := true, panicked := true)

  /** A preparation on its own takes a step. */
  lemma Prepares(run: seq<State>, p: Pc, p': Pc, e: Effect, d: Data, mu: Lock, tree: Lock, tree': Lock) returns (longer: seq<State>)
    requires IsRun(run) && run[|run| - 1] == State(mu, tree, d, map[0 := p])
    requires LockMoves(mu, MINE, 0, p.Mu(), p'.Mu()) && LockMoves(tree, tree', 0, p.Tree(), p'.Tree())
    requires PrepareStep(p, p', e, d)
    ensures IsRun(longer) && longer[|longer| - 1] == State(MINE, tree', Apply(e, d), map[0 := p'])
  {
    hide PrepareStep, LockMoves, CommandStep, CloseStep, Apply, IsRun;
    longer := Extended(run, State(MINE, tree', Apply(e, d), map[0 := p']), 0, p', e);
  }

  /** A preparation up to its write window. */
  lemma RunToWindow() returns (run: seq<State>)
    ensures IsRun(run) && run[|run| - 1] == State(MINE, WINDOW, IN_WINDOW, map[0 := Window])
  {
    hide IsRun;
    run := RunToStages();
    run := Prepares(run, At(0), Reading(0), Keeps, SPENT, MINE, FREE, MINE);
    run := Prepares(run, Reading(0), At(1), Keeps, SPENT, MINE, MINE, FREE);
    run := Prepares(run, At(1), At(2), Keeps, SPENT, MINE, FREE, FREE);
    run := Prepares(run, At(2), Window, Opens, SPENT, MINE, FREE, WINDOW);
  }

  lemma StagesBegin()
    ensures LockMoves(FREE, MINE, 0, Nothing, Read) && LockMoves(MINE, MINE, 0, Read, Read) && LockMoves(FREE, FREE, 0, Nothing, Nothing)
    ensures PrepareStep(Start(Prepare), Beginning, Keeps, START) && Apply(Keeps, START) == START
    ensures PrepareStep(Beginning, Begun, Begins, START) && Apply(Begins, START) == STARTED
    ensures PrepareStep(Begun, At(0), Spends, STARTED) && Apply(Spends, STARTED) == SPENT
  {
  }

  lemma RunToStages() returns (run: seq<State>)
    ensures IsRun(run) && run[|run| - 1] == State(MINE, FREE, SPENT, map[0 := At(0)])
  {
    hide PrepareStep, Apply, LockMoves;
    StagesBegin();
    run := [State(FREE, FREE, START, map[])];
    run := Joined(run, State(FREE, FREE, START, map[0 := Start(Prepare)]), 0, Prepare);
    hide IsRun;
    run := Prepares(run, Start(Prepare), Beginning, Keeps, START, FREE, FREE, FREE);
    run := Prepares(run, Beginning, Begun, Begins, START, MINE, FREE, FREE);
    run := Prepares(run, Begun, At(0), Spends, STARTED, MINE, FREE, FREE);
  }

  function Pair(mu: Lock, tree: Lock, d: Data, prepare: Pc, exec: Pc): State {
    State(mu, tree, d, map[0 := prepare, 1 := exec])
  }

  lemma LocksTaken()
    ensures LockMoves(MINE, BOTH, 1, Nothing, Read) && LockMoves(BOTH, BOTH, 1, Read, Read)
    ensures LockMoves(WINDOW, WINDOW, 1, Nothing, Nothing) && LockMoves(WINDOW, WINDOW, 0, Write, Write)
    ensures LockMoves(WINDOW, FREE, 0, Write, Nothing) && LockMoves(FREE, THEIRS, 1, Nothing, Read)
    ensures LockMoves(THEIRS, THEIRS, 1, Read, Read)
  {
  }

  lemma WindowIsCut()
    ensures PrepareStep(Window, Instrumented, Dirties, IN_WINDOW) && Apply(Dirties, IN_WINDOW) == DIRTY
    ensures PrepareStep(Instrumented, Panicked, Cuts, DIRTY) && Apply(Cuts, DIRTY) == CUT
  {
  }

  /** An `Exec` waits for the tree while the window instruments it. */
  lemma RunToInstrumented() returns (run: seq<State>)
    ensures IsRun(run) && run[|run| - 1] == Pair(BOTH, WINDOW, DIRTY, Instrumented, Admitted(Exec))
  {
    hide IsRun, Moves, LockMoves, Apply, PrepareStep;
    LocksTaken();
    WindowIsCut();
    run := RunToWindow();
    run := Joined(run, Pair(MINE, WINDOW, IN_WINDOW, Window, Start(Exec)), 1, Exec);
    run := ExecMoves(run, MINE, BOTH, WINDOW, WINDOW, IN_WINDOW, Window, Start(Exec), Checking(Exec));
    run := ExecMoves(run, BOTH, BOTH, WINDOW, WINDOW, IN_WINDOW, Window, Checking(Exec), Admitted(Exec));
    run := PrepareMoves(run, WINDOW, IN_WINDOW, Dirties, Window, Instrumented);
  }

  /** The flag is set by the deferred function of `prepare`, after a panic has already released the tree: a waiting `Exec`
      gets the lock, passes its second check, and runs on the instrumented tree. */
  lemma PanicLetsCommandIn() returns (run: seq<State>)
    ensures IsRun(run)
    ensures var last := run[|run| - 1]; last.d.dirty && !last.d.flags.prepareFailed && 1 in last.pcs && last.pcs[1] == Running(Exec)
  {
    hide IsRun, Moves, LockMoves, Apply, PrepareStep;
    LocksTaken();
    WindowIsCut();
    run := RunToInstrumented();
    run := PrepareMoves(run, FREE, DIRTY, Cuts, Instrumented, Panicked);
    run := ExecMoves(run, BOTH, BOTH, FREE, THEIRS, CUT, Panicked, Admitted(Exec), Rechecking(Exec));
    run := ExecMoves(run, BOTH, BOTH, THEIRS, THEIRS, CUT, Panicked, Rechecking(Exec), Running(Exec));
  }

  lemma ExecMoves(run: seq<State>, mu: Lock, mu': Lock, tree: Lock, tree': Lock, d: Data, prepare: Pc, p: Pc, p': Pc)
    returns (longer: seq<State>)
    requires IsRun(run) && run[|run| - 1] == Pair(mu, tree, d, prepare, p)
    requires LockMoves(mu, mu', 1, p.Mu(), p'.Mu()) && LockMoves(tree, tree', 1, p.Tree(), p'.Tree()) && CommandStep(p, p', d)
    ensures IsRun(longer) && longer[|longer| - 1] == Pair(mu', tree', d, prepare, p')
  {
    hide LockMoves, CommandStep, PrepareStep, CloseStep, IsRun;
    assert Apply(Keeps, d) == d;
    longer := Extended(run, Pair(mu', tree', d, prepare, p'), 1, p', Keeps);
  }

  lemma PrepareMoves(run: seq<State>, tree': Lock, d: Data, e: Effect, p: Pc, p': Pc) returns (longer: seq<State>)
    requires IsRun(run) && run[|run| - 1] == Pair(BOTH, WINDOW, d, p, Admitted(Exec))
    requires p.Mu() == p'.Mu() && LockMoves(WINDOW, tree', 0, p.Tree(), p'.Tree()) && PrepareStep(p, p', e, d)
    ensures IsRun(longer) && longer[|longer| - 1] == Pair(BOTH, tree', Apply(e, d), p', Admitted(Exec))
  {
    hide CommandStep, PrepareStep, CloseStep, Apply, IsRun;
    longer := Extended(run, Pair(BOTH, tree', Apply(e, d), p', Admitted(Exec)), 0, p', e);
  }
}
