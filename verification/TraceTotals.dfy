/** What the reader reports of a run is what its callers asked to be recorded (trace/trace.go, trace/reader.go). */
module TraceTotals {
  import opened Trace
  import opened TraceReader
  import opened Wrappers

  // ----- what callers asked for

  /** No span takes less than no time. */
  function Took(ms: int): int { if ms < 0 then 0 else ms }

  /** How often, or how long, a request asked for what a tally counts. */
  function Share(r: Request, t: Tally): int {
    match t
    case PhaseMS(name) => if r.EndsPhase? && r.name == name then Took(r.ms) else 0
    case StageMS(key) =>
      if r.EndsStage? && (if r.phase == "" then r.name else r.phase + "/" + r.name) == key then Took(r.ms) else 0
    case PrepareMS(phase) => if r.Prepares? && r.state == "finished" && r.phase == phase then Took(r.ms) else 0
    case ExecCount(name) => if r.Execs? && r.kind == name then 1 else 0
    case ExecMS(name) => if r.Execs? && r.kind == name then Took(r.ms) else 0
    case OutcomeCount(outcome) => if r.Mutates? && r.outcome == outcome && outcome != "" then 1 else 0
    case CountOf(kind) =>
      if (match kind
          case RunStart => false case RunEnd => false
          case PhaseStart => r.BeginsPhase? case PhaseEnd => r.EndsPhase?
          case Stage => r.BeginsStage? || r.EndsStage?
          case Prepare => r.Prepares?
          case Exec => r.Execs? case MutantExec => r.Mutates? case ProbeExec => r.Probes?
          case Other(name) => r.Notes? && r.kind == name) then 1 else 0
  }

  function Asked(calls: seq<Call>, t: Tally): int {
    if calls == [] then 0
    else
      var call := calls[|calls| - 1];
      Asked(calls[..|calls| - 1], t) + (if call.Req? then Share(call.r, t) else 0)
  }

  /** The run itself is counted once at its start and once at its end. */
  function Frame(t: Tally): int { if t == CountOf(RunStart) || t == CountOf(RunEnd) then 1 else 0 }

  lemma OfferWeighs(rec: Rec, call: Call, t: Tally)
    requires call.Req? && ValidEvent(Offer(rec, call))
    ensures Weight(Offer(rec, call), t) == Share(call.r, t)
  {
  }

  /** Whatever becomes of the writes, what was offered adds up to what was asked. */
  lemma {:induction false} HistoryTotals(store: Store, fate: Fate, calls: seq<Call>, t: Tally)
    requires WellPlayed(calls)
    ensures forall e :: e in History(store, fate, calls) ==> ValidEvent(e)
    ensures Total(History(store, fate, calls), t) == Asked(calls, t) + (if t == CountOf(RunStart) then 1 else 0)
    decreases |calls|
  {
    hide ValidEvent, WellCalled, Offer, Play, Opened, Weight, Share;
    HistoryIsValid(store, fate, calls);
    if calls == [] {
      StartWeighs(t);
    } else {
      var before, call := calls[..|calls| - 1], calls[|calls| - 1];
      HistoryTotals(store, fate, before, t);
      var e := Offer(Play(Opened(store, fate), before), call);
      assert e in History(store, fate, calls);
      TotalExtends(History(store, fate, before), e, t);
      OfferWeighs(Play(Opened(store, fate), before), call, t);
    }
  }

  lemma StartWeighs(t: Tally)
    ensures var e := Event(1, RunStart, SCHEMA, true, 0, Some(StartRecord));
            ValidEvent(e) && Total([e], t) == if t == CountOf(RunStart) then 1 else 0
  {
    var e := Event(1, RunStart, SCHEMA, true, 0, Some(StartRecord));
    assert [e][..0] == [];
  }

  lemma EndWeighs(rec: Rec, verdict: string, elapsed: int, fate: Fate, t: Tally)
    ensures var e := Offer(rec, End(verdict, elapsed, fate));
            ValidEvent(e) && Weight(e, t) == if t == CountOf(RunEnd) then 1 else 0
  {
  }

  /** Main result. When no event was lost, what the reader reports is what the callers asked for: every count, every time of a
      phase, stage, preparation and execution, and every outcome. */
  lemma ReportsWhatWasAsked(capacity: int, fate: Fate, calls: seq<Call>, verdict: string, elapsed: int, d: Digest, t: Tally)
    requires WellPlayed(calls) && capacity <= 0
    requires var stream := Finished(Play(Opened(Ring(capacity, [], false, 0), fate), calls), verdict, elapsed, fate).store.events;
             Readable(stream) && Reports(d, stream)
    ensures Value(d.tallies, t) == Asked(calls, t) + Frame(t)
    ensures d.hasRunEnd && d.verdict == verdict && d.events == |calls| + 2 && d.missing == 0
  {
    hide ValidEvent, WellCalled, Offer, Play, Opened, Finished, Weight, Share, Readable, Reports, History;
    var store := Ring(capacity, [], false, 0);
    var rec, end := Play(Opened(store, fate), calls), Offer(Play(Opened(store, fate), calls), End(verdict, elapsed, fate));
    RingHolds(capacity, fate, calls);
    RingEndToEnd(capacity, fate, calls, verdict, elapsed);
    RingEndOffered(rec, verdict, elapsed, fate);
    HistoryTotals(store, fate, calls, t);
    EndWeighs(rec, verdict, elapsed, fate, t);
    HistorySize(store, fate, calls);
    var h := History(store, fate, calls);
    TotalExtends(h, end, t);
    ReportsOf(d, h + [end], t);
  }

  lemma ReportsOf(d: Digest, es: seq<Event>, t: Tally)
    requires es != [] && Readable(es) && Reports(d, es) && es[|es| - 1].kind.RunEnd?
    requires es[|es| - 1].payload.Some? && es[|es| - 1].payload.value.RunRecord? && es[|es| - 1].number == |es|
    ensures Value(d.tallies, t) == Total(es, t) && d.events == |es| && d.hasRunEnd && d.missing == 0
    ensures d.verdict == es[|es| - 1].payload.value.verdict
  {
    hide ValidEvent;
  }

  lemma {:induction false} HistorySize(store: Store, fate: Fate, calls: seq<Call>)
    ensures |History(store, fate, calls)| == |calls| + 1
    decreases |calls|
  {
    if calls != [] { HistorySize(store, fate, calls[..|calls| - 1]); }
  }

  // ----- the phase a stage belongs to

  /** The phase begun last, unless it has ended since. */
  ghost predicate Open(calls: seq<Call>, phase: string) {
    || (phase == "" && forall i :: 0 <= i < |calls| ==> !Begins(calls[i]))
    || exists j :: 0 <= j < |calls| && Begins(calls[j]) && (forall i :: j < i < |calls| ==> !Begins(calls[i]))
                   && phase == (if exists i :: j < i < |calls| && Ends(calls[i], calls[j].r.name) then "" else calls[j].r.name)
  }

  predicate Begins(call: Call) { call.Req? && call.r.BeginsPhase? }

  predicate Ends(call: Call, name: string) { call.Req? && call.r.EndsPhase? && call.r.name == name }

  /** A stage that begins is recorded in the phase that is open. */
  lemma {:induction false} StageIsInItsPhase(store: Store, fate: Fate, calls: seq<Call>, name: string, elapsed: int)
    requires Requests(calls)
    ensures var rec := Play(Opened(store, fate), calls);
            && Open(calls, rec.openPhase) && !rec.ended
            && Offer(rec, Req(BeginsStage(name), elapsed, Written)).payload
               == Some(StageRecord(rec.openPhase, name, "started", "", None))
    decreases |calls|
  {
    hide Delivered, PayloadOf, KindOf;
    if calls == [] {
    } else {
      var before, call := calls[..|calls| - 1], calls[|calls| - 1];
      StageIsInItsPhase(store, fate, before, name, elapsed);
      OpenNext(before, call, Play(Opened(store, fate), before).openPhase);
      assert before + [call] == calls;
    }
    assert PayloadOf(BeginsStage(name), Play(Opened(store, fate), calls).openPhase)
           == StageRecord(Play(Opened(store, fate), calls).openPhase, name, "started", "", None) by { StagePayload(name, Play(Opened(store, fate), calls).openPhase); }
  }

  lemma StagePayload(name: string, phase: string)
    ensures PayloadOf(BeginsStage(name), phase) == StageRecord(phase, name, "started", "", None)
  {
  }

  lemma OpenNext(calls: seq<Call>, call: Call, phase: string)
    requires Open(calls, phase) && call.Req?
    ensures Open(calls + [call], OpenPhase(call.r, phase))
  {
    var after := calls + [call];
    if Begins(call) {
      assert Begins(after[|calls|]);
    } else if exists i :: 0 <= i < |calls| && Begins(calls[i]) {
      var j :| 0 <= j < |calls| && Begins(calls[j]) && (forall i :: j < i < |calls| ==> !Begins(calls[i]))
               && phase == (if exists i :: j < i < |calls| && Ends(calls[i], calls[j].r.name) then "" else calls[j].r.name);
      assert Begins(after[j]);
      if i :| j < i < |calls| && Ends(calls[i], calls[j].r.name) { assert Ends(after[i], after[j].r.name); }
      if Ends(call, calls[j].r.name) { assert Ends(after[|calls|], after[j].r.name); }
    }
  }

  // ----- what can be recorded

  ghost predicate Recordable(e: Event) { exists rec, call: Call :: call.Req? && WellCalled(call.r) && Offer(rec, call) == e }

  /** Between the start and the end of a run the reader takes exactly the events that some caller who keeps the rules could have
      had recorded, but for one thing: it does not look at the time of an execution. */
  lemma RecordableExact(e: Event)
    requires !e.kind.RunStart? && !e.kind.RunEnd?
    ensures Recordable(e) <==> ValidEvent(e) && (e.kind.Exec? ==> e.payload.value.took >= 0)
  {
    if Recordable(e) {
      var rec, call: Call :| call.Req? && WellCalled(call.r) && Offer(rec, call) == e;
      OfferValidExact(rec, call);
    }
    if ValidEvent(e) && (e.kind.Exec? ==> e.payload.value.took >= 0) {
      var p := e.payload.value;
      var rec := Rec(e.number - 1, 0, 0, false, if p.StageRecord? then p.phase else "", EMPTY_FILE);
      var r := RequestFor(e.kind, p);
      RequestRecords(e, r, rec.openPhase);
      assert Offer(rec, Req(r, e.elapsed, Written)) == e;
    }
  }

  function RequestFor(kind: Kind, p: Payload): Request {
    match p
    case PhaseRecord(name, duration) => if kind.PhaseStart? then BeginsPhase(name) else EndsPhase(name, Given(duration))
    case StageRecord(phase, name, state, result, duration) =>
      if state == "started" then BeginsStage(name) else EndsStage(phase, name, result, Given(duration))
    case PrepareRecord(phase, state, result, duration) => Prepares(phase, state, result, Given(duration))
    case ExecRecord(name, took) => Execs(name, took)
    case MutantRecord(outcome) => Mutates(outcome)
    case ProbeRecord(measured, infected) => Probes(measured, infected)
    case PlainRecord(name) => Notes(name)
    case _ => Notes("")
  }

  function Given(duration: Option<int>): int { if duration.Some? then duration.value else 0 }

  lemma RequestRecords(e: Event, r: Request, phase: string)
    requires ValidEvent(e) && !e.kind.RunStart? && !e.kind.RunEnd? && (e.kind.Exec? ==> e.payload.value.took >= 0)
    requires r == RequestFor(e.kind, e.payload.value) && (e.payload.value.StageRecord? ==> phase == e.payload.value.phase)
    ensures WellCalled(r) && KindOf(r) == e.kind && PayloadOf(r, phase) == e.payload.value && Clamped(e.elapsed) == e.elapsed
  {
  }

  /** A run begins with the schema of this version, and nothing else carries one; a run-end has counts that are not negative. */
  lemma FrameExact(e: Event)
    requires e.kind.RunStart? || e.kind.RunEnd?
    ensures ValidEvent(e) <==>
              && e.number > 0 && e.stamped && e.elapsed >= 0 && e.payload.Some?
              && if e.kind.RunStart? then e.schema == "go-mutants/trace-v1" && e.payload.value == StartRecord
                 else e.schema == "" && e.payload.value.RunRecord? && e.payload.value.emitted >= 0 && e.payload.value.dropped >= 0
  {
  }
}
