/** The trace of a run: a recorder numbers events (trace/trace.go), a bounded ring or a file that may refuse a write keeps
    them (trace/sink.go), and a strict reader takes them back in (trace/reader.go). */
module Trace {
  import opened Wrappers

  // ----- events

  /** `Other` stands for the kinds without rules of their own. */
  datatype Kind = RunStart | PhaseStart | PhaseEnd | Stage | Prepare | Exec | MutantExec | ProbeExec | RunEnd | Other(name: string)

  const PLAIN_KINDS := {"validate", "coverage-map", "cache", "snapshot", "sweep", "artifact", "note"}

  datatype Payload =
    | StartRecord
    | PhaseRecord(name: string, duration: Option<int>)
    | StageRecord(phase: string, name: string, state: string, result: string, duration: Option<int>)
    | PrepareRecord(phase: string, state: string, result: string, duration: Option<int>)
    | ExecRecord(kind: string, took: int)
    | MutantRecord(outcome: string)
    | ProbeRecord(measured: bool, infected: Option<seq<string>>)
    | PlainRecord(kind: string)
    | RunRecord(verdict: string, emitted: int, dropped: int)

  datatype Event = Event(number: int, kind: Kind, schema: string, stamped: bool, elapsed: int, payload: Option<Payload>)

  const SCHEMA := "go-mutants/trace-v1"

  predicate Carries(p: Payload, kind: Kind) {
    match kind
    case RunStart => p.StartRecord?
    case PhaseStart => p.PhaseRecord?
    case PhaseEnd => p.PhaseRecord?
    case Stage => p.StageRecord?
    case Prepare => p.PrepareRecord?
    case Exec => p.ExecRecord?
    case MutantExec => p.MutantRecord?
    case ProbeExec => p.ProbeRecord?
    case RunEnd => p.RunRecord?
    case Other(name) => name in PLAIN_KINDS && p == PlainRecord(name)
  }

  predicate SpanState(state: string, result: string, duration: Option<int>) {
    || (state == "started" && result == "" && duration.None?)
    || (state == "finished" && duration.Some? && duration.value >= 0)
  }

  predicate SpanRules(kind: Kind, p: Payload) {
    match p
    case PhaseRecord(_, duration) => if kind.PhaseStart? then duration.None? else duration.Some? && duration.value >= 0
    case StageRecord(_, _, state, result, duration) => SpanState(state, result, duration)
    case PrepareRecord(_, state, result, duration) => SpanState(state, result, duration)
    case ProbeRecord(measured, infected) => measured == infected.Some?
    case RunRecord(_, emitted, dropped) => emitted >= 0 && dropped >= 0
    case _ => true
  }

  /** What the reader demands of a single event. */
  predicate ValidEvent(e: Event) {
    && e.number > 0 && e.stamped && e.elapsed >= 0
    && e.schema == (if e.kind.RunStart? then SCHEMA else "")
    && e.payload.Some? && Carries(e.payload.value, e.kind) && SpanRules(e.kind, e.payload.value)
  }

  // ----- sinks

  /** What becomes of a write to the file: it succeeds, it fails, or it fails after some of its bytes are out. */
  datatype Fate = Written | Refused | Torn

  /** A line of a stream, as the reader decodes it. */
  datatype Line = Blank | Garbled | Coded(e: Event)

  /** A ring loses its oldest events. A file holds `lines`, and when it is `torn` the bytes of a failed write besides, which the
      next line is joined to; `events` are those whose writes succeeded. */
  datatype Store =
    | Ring(capacity: int, events: seq<Event>, closed: bool, dropped: nat)
    | File(events: seq<Event>, lines: seq<Line>, torn: bool, closed: bool, dropped: nat)

  function Newest(events: seq<Event>, room: nat): seq<Event> {
    if |events| <= room then events else events[|events| - room..]
  }

  /** A slot of the ring is kept for the run-end. */
  function Room(capacity: int, kind: Kind): int {
    if kind.RunEnd? then capacity else capacity - 1
  }

  predicate Kept(store: Store, fate: Fate) { !store.closed && (store.File? ==> fate.Written?) }

  function Delivered(store: Store, e: Event, fate: Fate): Store {
    if store.File? && !store.closed && fate.Torn? then store.(dropped := store.dropped + 1, torn := true)
    else if !Kept(store, fate) then store.(dropped := store.dropped + 1)
    else if store.File? then
      store.(events := store.events + [e], lines := store.lines + [if store.torn then Garbled else Coded(e)], torn := false)
    else if store.capacity <= 0 then Ring(store.capacity, store.events + [e], false, store.dropped)
    else
      var all := store.events + [e];
      var kept := Newest(all, Room(store.capacity, e.kind));
      Ring(store.capacity, kept, false, store.dropped + |all| - |kept|)
  }

  /** No write to the ring fails. */
  lemma FateOfRing(store: Store, e: Event, fate: Fate)
    requires store.Ring?
    ensures Delivered(store, e, fate) == Delivered(store, e, Written) && Kept(store, fate) == Kept(store, Written)
  {
  }

  class MemorySink {
    const capacity: int
    var events: seq<Event>
    var closed: bool
    var dropped: nat

    constructor (capacity: int)
      ensures View() == Ring(capacity, [], false, 0)
    {
      this.capacity := capacity;
      events, closed, dropped := [], false, 0;
    }

    function View(): Store
      reads this
    {
      Ring(capacity, events, closed, dropped)
    }

    method Emit(event: Event) returns (kept: bool)
      modifies this
      ensures View() == Delivered(old(View()), event, Written) && kept == Kept(old(View()), Written)
    {
      if closed {
        dropped := dropped + 1;
        return false;
      }
      events := events + [event];
      if capacity > 0 {
        var room := capacity;
        if !event.kind.RunEnd? { room := room - 1; }
        var overflow := |events| - room;
        if overflow > 0 {
          events := events[overflow..];
          dropped := dropped + overflow;
        }
      }
      kept := true;
    }

    method Close()
      modifies this
      ensures View() == old(View()).(closed := true)
    {
      closed := true;
    }
  }

  const EMPTY_FILE := File([], [], false, false, 0)

  class DirSink {
    var lines: seq<Line>
    var torn: bool
    ghost var events: seq<Event>
    var closed: bool
    var dropped: nat

    constructor ()
      ensures View() == EMPTY_FILE
    {
      lines, torn, events, closed, dropped := [], false, [], false, 0;
    }

    ghost function View(): Store
      reads this
    {
      File(events, lines, torn, closed, dropped)
    }

    method Emit(event: Event, fate: Fate) returns (kept: bool)
      modifies this
      ensures View() == Delivered(old(View()), event, fate) && kept == Kept(old(View()), fate)
    {
      if closed || !fate.Written? {
        if !closed && fate.Torn? { torn := true; }
        dropped := dropped + 1;
        return false;
      }
      lines, torn := lines + [if torn then Garbled else Coded(event)], false;
      events := events + [event];
      kept := true;
    }
  }

  // ----- the recorder

  /** What a caller asks to be recorded, with the time it took; a time below zero is recorded as zero. */
  datatype Request =
    | BeginsPhase(name: string) | EndsPhase(name: string, ms: int)
    | BeginsStage(name: string) | EndsStage(phase: string, name: string, result: string, ms: int)
    | Prepares(phase: string, state: string, result: string, ms: int)
    | Execs(kind: string, ms: int) | Mutates(outcome: string)
    | Probes(measured: bool, infected: Option<seq<string>>)
    | Notes(kind: string)

  function Clamped(ms: int): (r: int)
    ensures r >= 0
  {
    if ms > 0 then ms else 0
  }

  function KindOf(r: Request): Kind {
    match r
    case BeginsPhase(_) => PhaseStart case EndsPhase(_, _) => PhaseEnd
    case BeginsStage(_) => Stage case EndsStage(_, _, _, _) => Stage
    case Prepares(_, _, _, _) => Prepare
    case Execs(_, _) => Exec case Mutates(_) => MutantExec case Probes(_, _) => ProbeExec
    case Notes(kind) => Other(kind)
  }

  function PayloadOf(r: Request, openPhase: string): Payload {
    match r
    case BeginsPhase(name) => PhaseRecord(name, None)
    case EndsPhase(name, ms) => PhaseRecord(name, Some(Clamped(ms)))
    case BeginsStage(name) => StageRecord(openPhase, name, "started", "", None)
    case EndsStage(phase, name, result, ms) => StageRecord(phase, name, "finished", result, Some(Clamped(ms)))
    case Prepares(phase, state, result, ms) =>
      PrepareRecord(phase, state, result, if state == "finished" then Some(Clamped(ms)) else None)
    case Execs(kind, ms) => ExecRecord(kind, Clamped(ms))
    case Mutates(outcome) => MutantRecord(outcome)
    case Probes(measured, infected) =>
      ProbeRecord(measured, if measured && infected.None? then Some([]) else infected)
    case Notes(kind) => PlainRecord(kind)
  }

  function OpenPhase(r: Request, openPhase: string): string {
    if r.BeginsPhase? then r.name else if r.EndsPhase? && openPhase == r.name then "" else openPhase
  }

  /** What callers have to keep to, because the recorder takes these records as they are. */
  predicate WellCalled(r: Request) {
    && (r.Prepares? ==> (r.state == "started" && r.result == "") || r.state == "finished")
    && (r.Probes? ==> r.infected.Some? ==> r.measured)
    && (r.Notes? ==> r.kind in PLAIN_KINDS)
  }

  datatype Rec = Rec(number: nat, attempts: nat, failures: nat, ended: bool, openPhase: string, store: Store)

  /** A file and a ring count their own drops. */
  function Emitted(rec: Rec, kind: Kind, schema: string, elapsed: int, payload: Payload, fate: Fate): Rec {
    if rec.ended then rec
    else
      var e := Event(rec.number + 1, kind, schema, true, Clamped(elapsed), Some(payload));
      rec.(number := rec.number + 1, attempts := rec.attempts + 1,
           failures := rec.failures + (if Kept(rec.store, fate) then 0 else 1),
           store := Delivered(rec.store, e, fate))
  }

  function Recorded(rec: Rec, r: Request, elapsed: int, fate: Fate): Rec {
    Emitted(rec.(openPhase := OpenPhase(r, rec.openPhase)), KindOf(r), "", elapsed,
            PayloadOf(r, rec.openPhase), fate)
  }

  function Accounting(rec: Rec, verdict: string): Payload {
    var dropped := rec.store.dropped;
    RunRecord(verdict, if rec.attempts > dropped then rec.attempts - dropped else 0, dropped)
  }

  function Finished(rec: Rec, verdict: string, elapsed: int, fate: Fate): Rec {
    if rec.ended then rec else Emitted(rec, RunEnd, "", elapsed, Accounting(rec, verdict), fate).(ended := true)
  }

  function Opened(store: Store, fate: Fate): Rec {
    Emitted(Rec(0, 0, 0, false, "", store), RunStart, SCHEMA, 0, StartRecord, fate)
  }

  datatype SinkRef = Memory(ring: MemorySink) | Dir(dir: DirSink)

  class Recorder {
    const sink: SinkRef
    var next: nat
    var attempts: nat
    var failures: nat
    var ended: bool
    var openPhase: string

    function Objects(): set<object> {
      {this} + if sink.Memory? then {sink.ring} else {sink.dir}
    }

    ghost function View(): Rec
      reads Objects()
    {
      Rec(next, attempts, failures, ended, openPhase, if sink.Memory? then sink.ring.View() else sink.dir.View())
    }

    constructor (sink: SinkRef, fate: Fate)
      modifies if sink.Memory? then {sink.ring as object} else {sink.dir}
      ensures this.sink == sink
      ensures View() == Opened(old(if sink.Memory? then sink.ring.View() else sink.dir.View()), fate)
    {
      this.sink := sink;
      next, attempts, failures, ended, openPhase := 0, 0, 0, false, "";
      new;
      EmitLocked(RunStart, SCHEMA, 0, StartRecord, fate);
    }

    method EmitLocked(kind: Kind, schema: string, elapsed: int, payload: Payload, fate: Fate)
      modifies Objects()
      ensures View() == Emitted(old(View()), kind, schema, elapsed, payload, fate)
    {
      if ended { return; }
      hide Delivered, Kept, Clamped;
      next := next + 1;
      var event := Event(next, kind, schema, true, Clamped(elapsed), Some(payload));
      attempts := attempts + 1;
      var kept: bool;
      if sink.Memory? {
        FateOfRing(sink.ring.View(), event, fate);
        kept := sink.ring.Emit(event);
      } else {
        kept := sink.dir.Emit(event, fate);
      }
      if !kept { failures := failures + 1; }
    }

    method Record(r: Request, elapsed: int, fate: Fate)
      modifies Objects()
      ensures View() == Recorded(old(View()), r, elapsed, fate)
    {
      var payload := PayloadOf(r, openPhase);
      openPhase := OpenPhase(r, openPhase);
      EmitLocked(KindOf(r), "", elapsed, payload, fate);
    }

    method RunEnd(verdict: string, elapsed: int, fate: Fate)
      modifies Objects()
      ensures View() == Finished(old(View()), verdict, elapsed, fate)
    {
      if ended { return; }
      var dropped := if sink.Memory? then sink.ring.dropped else sink.dir.dropped;
      var emitted := if attempts > dropped then attempts - dropped else 0;
      EmitLocked(Kind.RunEnd, "", elapsed, RunRecord(verdict, emitted, dropped), fate);
      ended := true;
    }
  }
}
