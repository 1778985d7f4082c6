/** The strict reader of a trace (trace/reader.go), and what it finds in a stream the recorder wrote. */
module TraceReader {
  import opened Trace
  import opened Wrappers

  // ----- reading

  datatype Tally =
    | CountOf(kind: Kind) | PhaseMS(name: string) | StageMS(key: string) | PrepareMS(phase: string)
    | ExecCount(name: string) | ExecMS(name: string) | OutcomeCount(outcome: string)

  function StageKey(phase: string, name: string): string { if phase == "" then name else phase + "/" + name }

  /** What an event adds to a tally. */
  function Weight(e: Event, t: Tally): int
    requires ValidEvent(e)
  {
    var p := e.payload.value;
    match t
    case CountOf(kind) => if e.kind == kind then 1 else 0
    case PhaseMS(name) => if e.kind.PhaseEnd? && p.name == name then p.duration.value else 0
    case StageMS(key) =>
      if e.kind.Stage? && p.state == "finished" && StageKey(p.phase, p.name) == key then p.duration.value else 0
    case PrepareMS(phase) => if e.kind.Prepare? && p.state == "finished" && p.phase == phase then p.duration.value else 0
    case ExecCount(name) => if e.kind.Exec? && p.ExecRecord? && p.kind == name then 1 else 0
    case ExecMS(name) => if e.kind.Exec? && p.ExecRecord? && p.kind == name then p.took else 0
    case OutcomeCount(outcome) => if e.kind.MutantExec? && outcome != "" && p.outcome == outcome then 1 else 0
  }

  function Value(m: map<Tally, int>, t: Tally): int { if t in m then m[t] else 0 }

  function Total(es: seq<Event>, t: Tally): int
    requires forall e :: e in es ==> ValidEvent(e)
  {
    if es == [] then 0
    else
      assert es[|es| - 1] in es;
      Total(es[..|es| - 1], t) + Weight(es[|es| - 1], t)
  }

  datatype Digest = Digest(events: nat, first: int, last: int, missing: int, hasRunEnd: bool, dropped: int,
                           verdict: string, tallies: map<Tally, int>)

  predicate Acceptable(d: Digest, e: Event, previous: int) {
    !d.hasRunEnd && !(e.kind.RunStart? && d.events > 0) && (previous != 0 ==> e.number > previous)
  }

  class Summary {
    var events: nat
    var first: int
    var last: int
    var missing: int
    var hasRunEnd: bool
    var dropped: int
    var verdict: string
    var tallies: map<Tally, int>

    function View(): Digest
      reads this
    {
      Digest(events, first, last, missing, hasRunEnd, dropped, verdict, tallies)
    }

    constructor ()
      ensures View() == Digest(0, 0, 0, 0, false, 0, "", map[])
    {
      events, first, last, missing, hasRunEnd, dropped, verdict, tallies := 0, 0, 0, 0, false, 0, "", map[];
    }

    method Add(t: Tally, amount: int)
      modifies this`tallies
      ensures tallies == old(tallies)[t := Value(old(tallies), t) + amount]
    {
      tallies := tallies[t := Value(tallies, t) + amount];
    }

    /** The tallies of one event. */
    method AddTallies(e: Event)
      requires ValidEvent(e)
      modifies this`tallies
      ensures forall t :: Value(tallies, t) == Value(old(tallies), t) + Weight(e, t)
    {
      Add(CountOf(e.kind), 1);
      var p := e.payload.value;
      if e.kind.PhaseEnd? { Add(PhaseMS(p.name), p.duration.value); }
      else if e.kind.Stage? {
        if p.state == "finished" { Add(StageMS(StageKey(p.phase, p.name)), p.duration.value); }
      } else if e.kind.Prepare? {
        if p.state == "finished" { Add(PrepareMS(p.phase), p.duration.value); }
      } else if e.kind.Exec? {
        Add(ExecCount(p.kind), 1);
        Add(ExecMS(p.kind), p.took);
      } else if e.kind.MutantExec? {
        if p.outcome != "" { Add(OutcomeCount(p.outcome), 1); }
      }
    }

    method Accept(e: Event, previous: int) returns (ok: bool)
      requires ValidEvent(e)
      modifies this
      ensures ok == Acceptable(old(View()), e, previous)
      ensures !ok ==> View() == old(View())
      ensures ok ==> Advanced(old(View()), View(), e, previous)
      ensures ok ==> forall t :: Value(tallies, t) == Value(old(tallies), t) + Weight(e, t)
    {
      hide Weight, ValidEvent, SpanRules;
      if hasRunEnd || (e.kind.RunStart? && events > 0) { return false; }
      if previous != 0 {
        if e.number <= previous { return false; }
        missing := missing + e.number - previous - 1;
      } else {
        first := e.number;
        missing := missing + e.number - 1;
      }
      last, events := e.number, events + 1;
      AddTallies(e);
      if e.kind.RunEnd? {
        assert e.payload.Some? && e.payload.value.RunRecord? by { RunEndCarries(e); }
        hasRunEnd, dropped, verdict := true, e.payload.value.dropped, e.payload.value.verdict;
      }
      ok := true;
    }
  }

  lemma RunEndCarries(e: Event)
    requires ValidEvent(e) && e.kind.RunEnd?
    ensures e.payload.Some? && e.payload.value.RunRecord?
  {
  }

  /** The digest after an accepted event, tallies aside. */
  predicate Advanced(d: Digest, d': Digest, e: Event, previous: int) {
    && d'.events == d.events + 1 && d'.last == e.number
    && d'.first == (if previous == 0 then e.number else d.first)
    && d'.missing == d.missing + e.number - previous - 1
    && d'.hasRunEnd == e.kind.RunEnd?
    && (e.kind.RunEnd? && e.payload.Some? && e.payload.value.RunRecord? ==>
          d'.dropped == e.payload.value.dropped && d'.verdict == e.payload.value.verdict)
  }

  function Codes(lines: seq<Line>): seq<Event> {
    if lines == [] then []
    else
      var last := lines[|lines| - 1];
      Codes(lines[..|lines| - 1]) + (if last.Coded? then [last.e] else [])
  }

  /** The streams the reader takes: valid events, in strictly rising order, a run-start at most at the start, a run-end at
      most at the end. */
  predicate Readable(es: seq<Event>) {
    && (forall e :: e in es ==> ValidEvent(e))
    && (forall i :: 0 < i < |es| ==> es[i - 1].number < es[i].number && !es[i].kind.RunStart?)
    && (forall i :: 0 <= i < |es| - 1 ==> !es[i].kind.RunEnd?)
  }

  /** What the reader reports of a stream. */
  ghost predicate Reports(d: Digest, es: seq<Event>)
    requires Readable(es)
  {
    && d.events == |es| && (d.hasRunEnd <==> es != [] && es[|es| - 1].kind.RunEnd?)
    && (es == [] ==> d.missing == 0)
    && (es != [] ==>
          var last := es[|es| - 1];
          && last in es && d.first == es[0].number && d.last == last.number && d.missing == last.number - |es|
          && (d.hasRunEnd && last.payload.Some? && last.payload.value.RunRecord? ==>
                d.dropped == last.payload.value.dropped && d.verdict == last.payload.value.verdict))
    && forall t :: Value(d.tallies, t) == Total(es, t)
  }

  lemma {:induction false} CodesPrefix(lines: seq<Line>, n: nat)
    requires n <= |lines|
    ensures |Codes(lines[..n])| <= |Codes(lines)| && Codes(lines[..n]) == Codes(lines)[..|Codes(lines[..n])|]
    decreases |lines| - n
  {
    if n < |lines| {
      assert lines[..n + 1][..n] == lines[..n];
      CodesPrefix(lines, n + 1);
    } else {
      assert lines[..n] == lines;
    }
  }

  function LastNumber(es: seq<Event>): int { if es == [] then 0 else es[|es| - 1].number }

  /** Reads a whole stream, or refuses it. */
  method ReadStream(lines: seq<Line>) returns (r: Option<Digest>)
    ensures r.Some? <==> Garbled !in lines && Readable(Codes(lines))
    ensures r.Some? ==> Reports(r.value, Codes(lines))
  {
    hide Codes, Reports, Readable, ValidEvent, Weight, Acceptable, Advanced;
    var summary := new Summary();
    var previous := 0;
    var i := 0;
    NothingRead(lines, summary.View());
    while i < |lines|
      invariant i <= |lines| && fresh(summary)
      invariant Garbled !in lines[..i] && Readable(Codes(lines[..i]))
      invariant Reports(summary.View(), Codes(lines[..i])) && previous == LastNumber(Codes(lines[..i]))
    {
      ghost var es := Codes(lines[..i]);
      NextLine(lines, i);
      if lines[i].Garbled? { return None; }
      if lines[i].Coded? {
        var e := lines[i].e;
        if !ValidEvent(e) {
          Refused(es, e, Codes(lines), summary.View());
          return None;
        }
        ghost var d := summary.View();
        var ok := summary.Accept(e, previous);
        if !ok {
          Refused(es, e, Codes(lines), d);
          return None;
        }
        Taken(es, e, d, summary.View());
        previous := e.number;
      }
      i := i + 1;
    }
    assert lines[..i] == lines;
    r := Some(summary.View());
  }

  lemma NothingRead(lines: seq<Line>, d: Digest)
    requires d == Digest(0, 0, 0, 0, false, 0, "", map[])
    ensures Readable(Codes(lines[..0])) && Reports(d, Codes(lines[..0])) && LastNumber(Codes(lines[..0])) == 0
  {
    assert lines[..0] == [];
  }

  lemma NextLine(lines: seq<Line>, i: nat)
    requires i < |lines|
    ensures var es, next := Codes(lines[..i]), Codes(lines[..i + 1]);
            && next == (if lines[i].Coded? then es + [lines[i].e] else es)
            && |next| <= |Codes(lines)| && next == Codes(lines)[..|next|]
    ensures Garbled !in lines[..i] && !lines[i].Garbled? ==> Garbled !in lines[..i + 1]
  {
    assert lines[..i + 1][..i] == lines[..i] && lines[..i + 1] == lines[..i] + [lines[i]];
    CodesPrefix(lines, i + 1);
  }

  lemma Refused(es: seq<Event>, e: Event, all: seq<Event>, d: Digest)
    requires |es| < |all| && all[..|es| + 1] == es + [e]
    requires Readable(es) && Reports(d, es)
    requires !ValidEvent(e) || !Acceptable(d, e, LastNumber(es))
    ensures !Readable(all)
  {
    hide ValidEvent, Total, Value, Weight;
    assert all[|es|] == (es + [e])[|es|] == e;
    if es != [] { assert all[|es| - 1] == (es + [e])[|es| - 1] == es[|es| - 1]; }
  }

  lemma Taken(es: seq<Event>, e: Event, d: Digest, d': Digest)
    requires Readable(es) && Reports(d, es) && ValidEvent(e) && Acceptable(d, e, LastNumber(es))
    requires Advanced(d, d', e, LastNumber(es))
    requires forall t :: Value(d'.tallies, t) == Value(d.tallies, t) + Weight(e, t)
    ensures Readable(es + [e]) && Reports(d', es + [e]) && LastNumber(es + [e]) == e.number
  {
    hide ValidEvent, Total, Value, Weight;
    var all := es + [e];
    if es != [] { assert ValidEvent(es[|es| - 1]) && es[|es| - 1].number > 0 by { PositiveNumber(es[|es| - 1]); } }
    forall t ensures Value(d'.tallies, t) == Total(all, t) { TotalExtends(es, e, t); }
  }

  lemma PositiveNumber(e: Event)
    requires ValidEvent(e)
    ensures e.number > 0
  {
  }

  lemma TotalExtends(es: seq<Event>, e: Event, t: Tally)
    requires (forall x :: x in es ==> ValidEvent(x)) && ValidEvent(e)
    ensures (forall x :: x in es + [e] ==> ValidEvent(x)) && Total(es + [e], t) == Total(es, t) + Weight(e, t)
  {
    hide ValidEvent, Weight;
    assert (es + [e])[..|es|] == es;
  }

  // ----- what the recorder writes

  datatype Call = Req(r: Request, elapsed: int, fate: Fate) | End(verdict: string, elapsed: int, fate: Fate)

  function Played(rec: Rec, call: Call): Rec {
    match call
    case Req(r, elapsed, fate) => Recorded(rec, r, elapsed, fate)
    case End(verdict, elapsed, fate) => Finished(rec, verdict, elapsed, fate)
  }

  function Play(rec: Rec, calls: seq<Call>): Rec {
    if calls == [] then rec else Played(Play(rec, calls[..|calls| - 1]), calls[|calls| - 1])
  }

  /** The event a call offers to the sink. */
  function Offer(rec: Rec, call: Call): Event {
    match call
    case Req(r, elapsed, _) => Event(rec.number + 1, KindOf(r), "", true, Clamped(elapsed), Some(PayloadOf(r, rec.openPhase)))
    case End(verdict, elapsed, _) => Event(rec.number + 1, RunEnd, "", true, Clamped(elapsed), Some(Accounting(rec, verdict)))
  }

  /** Everything offered from the opening of the recorder on. */
  function History(store: Store, fate: Fate, calls: seq<Call>): seq<Event> {
    if calls == [] then [Event(1, RunStart, SCHEMA, true, 0, Some(StartRecord))]
    else
      var before := calls[..|calls| - 1];
      History(store, fate, before) + [Offer(Play(Opened(store, fate), before), calls[|calls| - 1])]
  }

  /** A request makes a valid event exactly when its caller kept to the rules. */
  lemma OfferValidExact(rec: Rec, call: Call)
    requires call.Req?
    ensures ValidEvent(Offer(rec, call)) <==> WellCalled(call.r)
  {
  }

  predicate Requests(calls: seq<Call>) { forall c :: c in calls ==> c.Req? }

  ghost predicate Numbered(h: seq<Event>) {
    && h != [] && h[0].kind.RunStart?
    && (forall i :: 0 <= i < |h| ==> h[i].number == i + 1 && !h[i].kind.RunEnd?)
    && (forall i :: 0 < i < |h| ==> !h[i].kind.RunStart?)
  }

  lemma NewestAgain(h: seq<Event>, e: Event, room: nat)
    ensures Newest(Newest(h, room) + [e], room) == Newest(h + [e], room)
  {
  }

  /** Until the run ends, a ring holds the newest events that leave a slot free, and has counted all the others. */
  lemma {:induction false} RingHolds(capacity: int, fate: Fate, calls: seq<Call>)
    requires Requests(calls)
    ensures var h := History(Ring(capacity, [], false, 0), fate, calls);
            var rec := Play(Opened(Ring(capacity, [], false, 0), fate), calls);
            && Numbered(h) && !rec.ended && rec.number == rec.attempts == |h|
            && rec.store.Ring? && rec.store.capacity == capacity && !rec.store.closed
            && rec.store.events == (if capacity <= 0 then h else Newest(h, capacity - 1))
            && rec.store.dropped == |h| - |rec.store.events| && rec.failures == 0
    decreases |calls|
  {
    if calls != [] {
      var before := calls[..|calls| - 1];
      RingHolds(capacity, fate, before);
      RingTakes(History(Ring(capacity, [], false, 0), fate, before),
                Play(Opened(Ring(capacity, [], false, 0), fate), before), calls[|calls| - 1], capacity);
    }
  }

  lemma RingTakes(h: seq<Event>, rec: Rec, call: Call, capacity: int)
    requires call.Req? && Numbered(h) && !rec.ended && rec.number == rec.attempts == |h|
    requires rec.store.Ring? && rec.store.capacity == capacity && !rec.store.closed
    requires rec.store.events == (if capacity <= 0 then h else Newest(h, capacity - 1))
    requires rec.store.dropped == |h| - |rec.store.events| && rec.failures == 0
    ensures var h', rec' := h + [Offer(rec, call)], Played(rec, call);
            && Numbered(h') && !rec'.ended && rec'.number == rec'.attempts == |h'| && rec'.failures == 0
            && rec'.store.Ring? && rec'.store.capacity == capacity && !rec'.store.closed
            && rec'.store.events == (if capacity <= 0 then h' else Newest(h', capacity - 1))
            && rec'.store.dropped == |h'| - |rec'.store.events|
  {
    hide PayloadOf, OpenPhase, Newest;
    var e := Offer(rec, call);
    NewestSize(h + [e], capacity);
    if capacity > 0 { NewestAgain(h, e, capacity - 1); }
  }

  lemma NewestSize(h: seq<Event>, capacity: int)
    ensures capacity > 0 ==> |Newest(h, capacity - 1)| == if |h| <= capacity - 1 then |h| else capacity - 1
  {
  }

  /** Main result for the ring. After the run-end it holds the newest contiguous stretch of what was offered, ending in the
      run-end; what the reader finds missing is what the run-end says was dropped; and what the run-end says was
      emitted is what is held before it. The reader takes the stream exactly when the held events are valid. */
  lemma RingEndToEnd(capacity: int, fate: Fate, calls: seq<Call>, verdict: string, elapsed: int)
    requires Requests(calls)
    ensures
      var h := History(Ring(capacity, [], false, 0), fate, calls);
      var rec := Play(Opened(Ring(capacity, [], false, 0), fate), calls);
      var end := Offer(rec, End(verdict, elapsed, fate));
      var stream := Finished(rec, verdict, elapsed, fate).store.events;
      && stream == (if capacity <= 0 then h else Newest(h, capacity - 1)) + [end]
      && (capacity > 0 ==> |stream| <= capacity)
      && end.number == |h| + 1
      && end.payload.value.dropped == end.number - |stream|
      && end.payload.value.emitted == |stream| - 1
      && (Readable(stream) <==> forall e :: e in stream ==> ValidEvent(e))
  {
    hide ValidEvent, History, Offer, Finished, Newest, Play, Opened;
    RingHolds(capacity, fate, calls);
    var h := History(Ring(capacity, [], false, 0), fate, calls);
    var rec := Play(Opened(Ring(capacity, [], false, 0), fate), calls);
    NewestSize(h, capacity);
    RingEndOffered(rec, verdict, elapsed, fate);
    var kept := rec.store.events;
    NewestFits(h, capacity);
    forall i | 0 <= i < |kept| ensures kept[i] == h[|h| - |kept| + i] { NewestAt(h, capacity, i); }
    RingEnds(h, kept, Offer(rec, End(verdict, elapsed, fate)));
  }

  lemma NewestFits(h: seq<Event>, capacity: int)
    ensures |if capacity <= 0 then h else Newest(h, capacity - 1)| <= |h|
  {
  }

  /** The newest events of the history with the run-end behind them. */
  lemma RingEnds(h: seq<Event>, kept: seq<Event>, end: Event)
    requires Numbered(h) && |kept| <= |h| && forall i :: 0 <= i < |kept| ==> kept[i] == h[|h| - |kept| + i]
    requires end.kind.RunEnd? && end.number == |h| + 1
    ensures Readable(kept + [end]) <==> forall e :: e in kept + [end] ==> ValidEvent(e)
  {
    hide ValidEvent;
    var stream := kept + [end];
    forall i | 0 < i < |stream| ensures stream[i - 1].number < stream[i].number && !stream[i].kind.RunStart? {
      if i < |kept| { assert kept[i] == h[|h| - |kept| + i] && kept[i - 1] == h[|h| - |kept| + i - 1]; }
    }
    forall i | 0 <= i < |stream| - 1 ensures !stream[i].kind.RunEnd? { assert stream[i] == h[|h| - |kept| + i]; }
  }

  predicate WellPlayed(calls: seq<Call>) { forall c :: c in calls ==> c.Req? && WellCalled(c.r) }

  /** What callers who keep to the rules have recorded is valid, event by event. */
  lemma {:induction false} HistoryIsValid(store: Store, fate: Fate, calls: seq<Call>)
    requires WellPlayed(calls)
    ensures forall e :: e in History(store, fate, calls) ==> ValidEvent(e)
    decreases |calls|
  {
    hide ValidEvent, WellCalled, Offer, Play, Opened;
    if calls == [] {
      StartIsValid();
    } else {
      var before := calls[..|calls| - 1];
      HistoryIsValid(store, fate, before);
      OfferValidExact(Play(Opened(store, fate), before), calls[|calls| - 1]);
    }
  }

  lemma StartIsValid()
    ensures ValidEvent(Event(1, RunStart, SCHEMA, true, 0, Some(StartRecord)))
  {
  }

  lemma EndIsValid(rec: Rec, verdict: string, elapsed: int, fate: Fate)
    requires rec.number >= 0 && rec.store.dropped >= 0
    ensures ValidEvent(Offer(rec, End(verdict, elapsed, fate)))
  {
  }

  /** What a caller wants of a ring: the trace is read back, ends in the run-end, and what the reader misses is what the
      recorder dropped. */
  lemma RingIsRead(capacity: int, fate: Fate, calls: seq<Call>, verdict: string, elapsed: int)
    requires WellPlayed(calls)
    ensures var stream := Finished(Play(Opened(Ring(capacity, [], false, 0), fate), calls), verdict, elapsed, fate).store.events;
            Readable(stream) && forall d :: Reports(d, stream) ==> d.hasRunEnd && d.missing == d.dropped
  {
    hide ValidEvent, WellCalled, History, Offer, Finished, Newest, Play, Opened, Readable, Reports;
    var store := Ring(capacity, [], false, 0);
    var h, rec := History(store, fate, calls), Play(Opened(store, fate), calls);
    RingHolds(capacity, fate, calls);
    HistoryIsValid(store, fate, calls);
    EndIsValid(rec, verdict, elapsed, fate);
    RingEndToEnd(capacity, fate, calls, verdict, elapsed);
    RingEndOffered(rec, verdict, elapsed, fate);
    var stream := Finished(rec, verdict, elapsed, fate).store.events;
    var kept := if capacity <= 0 then h else Newest(h, capacity - 1);
    forall i | 0 <= i < |kept| ensures kept[i] in h { NewestAt(h, capacity, i); }
    forall d | Reports(d, stream) ensures d.hasRunEnd && d.missing == d.dropped { MissingIsDropped(stream, d); }
  }

  lemma NewestAt(h: seq<Event>, capacity: int, i: nat)
    requires i < |if capacity <= 0 then h else Newest(h, capacity - 1)|
    ensures var kept := if capacity <= 0 then h else Newest(h, capacity - 1); |kept| <= |h| && kept[i] == h[|h| - |kept| + i]
  {
  }

  lemma RingEndOffered(rec: Rec, verdict: string, elapsed: int, fate: Fate)
    requires !rec.ended && !rec.store.closed && rec.store.Ring? && rec.attempts >= rec.store.dropped
    requires rec.store.capacity > 0 ==> |rec.store.events| <= rec.store.capacity - 1
    ensures var end := Offer(rec, End(verdict, elapsed, fate));
            && Finished(rec, verdict, elapsed, fate).store.events == rec.store.events + [end]
            && end.kind.RunEnd? && end.number == rec.number + 1
            && end.payload == Some(RunRecord(verdict, rec.attempts - rec.store.dropped, rec.store.dropped))
  {
  }

  // ----- a file that may refuse any write

  /** What was stored is part of what was offered, in order; the rest was counted. */
  lemma {:induction false} FileHolds(fate: Fate, calls: seq<Call>)
    requires Requests(calls)
    ensures var h := History(EMPTY_FILE, fate, calls);
            var rec := Play(Opened(EMPTY_FILE, fate), calls);
            && Numbered(h) && !rec.ended && rec.number == rec.attempts == |h|
            && rec.store.File? && !rec.store.closed && rec.failures == rec.store.dropped == |h| - |rec.store.events|
            && (forall e :: e in rec.store.events ==> e in h && e.number <= |h|)
            && (forall i :: 0 < i < |rec.store.events| ==> rec.store.events[i - 1].number < rec.store.events[i].number)
    decreases |calls|
  {
    if calls != [] {
      var before := calls[..|calls| - 1];
      FileHolds(fate, before);
      FileTakes(History(EMPTY_FILE, fate, before), Play(Opened(EMPTY_FILE, fate), before), calls[|calls| - 1]);
    }
  }

  lemma FileDelivered(store: Store, e: Event, fate: Fate)
    requires store.File? && !store.closed
    ensures var after := Delivered(store, e, fate);
            && after.File? && !after.closed && after.events == store.events + (if fate.Written? then [e] else [])
            && after.dropped == store.dropped + (if fate.Written? then 0 else 1)
  {
  }

  lemma FileTakes(h: seq<Event>, rec: Rec, call: Call)
    requires call.Req? && Numbered(h) && !rec.ended && rec.number == rec.attempts == |h|
    requires rec.store.File? && !rec.store.closed && rec.failures == rec.store.dropped == |h| - |rec.store.events|
    requires forall e :: e in rec.store.events ==> e in h && e.number <= |h|
    requires forall i :: 0 < i < |rec.store.events| ==> rec.store.events[i - 1].number < rec.store.events[i].number
    ensures var h', rec' := h + [Offer(rec, call)], Played(rec, call);
            && Numbered(h') && !rec'.ended && rec'.number == rec'.attempts == |h'|
            && rec'.store.File? && !rec'.store.closed && rec'.failures == rec'.store.dropped == |h'| - |rec'.store.events|
            && (forall e :: e in rec'.store.events ==> e in h' && e.number <= |h'|)
            && (forall i :: 0 < i < |rec'.store.events| ==> rec'.store.events[i - 1].number < rec'.store.events[i].number)
  {
    hide PayloadOf, OpenPhase, Delivered;
    var e := Offer(rec, call);
    FileDelivered(rec.store, e, call.fate);
    assert rec.store.events != [] ==> rec.store.events[|rec.store.events| - 1] in rec.store.events;
    assert Played(rec, call).store.events == rec.store.events + (if call.fate.Written? then [e] else []);
  }

  /** Main result for a file: whatever writes fail, once the run-end is stored the stream rises strictly and ends in it, and
      the gaps the reader counts are the drops the run-end records. */
  lemma FileEndToEnd(fate: Fate, calls: seq<Call>, verdict: string, elapsed: int)
    requires Requests(calls)
    ensures
      var rec := Play(Opened(EMPTY_FILE, fate), calls);
      var end := Offer(rec, End(verdict, elapsed, Written));
      var stream := Finished(rec, verdict, elapsed, Written).store.events;
      && stream == rec.store.events + [end]
      && (forall i :: 0 < i < |stream| ==> stream[i - 1].number < stream[i].number)
      && end.payload.value.dropped == end.number - |stream|
      && end.payload.value.emitted == |stream| - 1
      && (Readable(stream) <==> forall e :: e in stream ==> ValidEvent(e))
  {
    hide ValidEvent, Offer, History, Finished, Play, Opened, Numbered;
    FileHolds(fate, calls);
    var h := History(EMPTY_FILE, fate, calls);
    var rec := Play(Opened(EMPTY_FILE, fate), calls);
    EndOffered(rec, verdict, elapsed, Written);
    FileEnds(h, rec.store.events, Offer(rec, End(verdict, elapsed, Written)));
  }

  /** Events of the history, in order, with the run-end behind them. */
  lemma FileEnds(h: seq<Event>, kept: seq<Event>, end: Event)
    requires Numbered(h) && (forall e :: e in kept ==> e in h && e.number <= |h|)
    requires forall i :: 0 < i < |kept| ==> kept[i - 1].number < kept[i].number
    requires end.kind.RunEnd? && end.number == |h| + 1
    ensures var stream := kept + [end];
            && (forall i :: 0 < i < |stream| ==> stream[i - 1].number < stream[i].number)
            && (Readable(stream) <==> forall e :: e in stream ==> ValidEvent(e))
  {
    hide ValidEvent;
    var stream := kept + [end];
    forall i | 0 <= i < |kept| ensures kept[i].number <= |h| && !kept[i].kind.RunEnd? && (i > 0 ==> !kept[i].kind.RunStart?) {
      assert kept[i] in kept;
      var j :| 0 <= j < |h| && h[j] == kept[i];
      if i > 0 { RisesAbove(kept, i); }
    }
    forall i | 0 < i < |stream| ensures stream[i - 1].number < stream[i].number {}
  }

  /** No write left bytes behind, the opening one included. */
  predicate NothingTorn(fate: Fate, calls: seq<Call>) { !fate.Torn? && forall c :: c in calls ==> !c.fate.Torn? }

  /** What the lines of a file are worth to the reader: all of it, or nothing. */
  ghost predicate LinesKept(store: Store, whole: bool)
    requires store.File?
  {
    if whole then !store.torn && Garbled !in store.lines && Codes(store.lines) == store.events
    else store.torn || Garbled in store.lines
  }

  lemma {:induction false} LinesHold(fate: Fate, calls: seq<Call>)
    requires Requests(calls)
    ensures var rec := Play(Opened(EMPTY_FILE, fate), calls);
            rec.store.File? && LinesKept(rec.store, NothingTorn(fate, calls))
    decreases |calls|
  {
    hide LinesKept, Delivered, Offer, Opened, History, Numbered;
    if calls == [] {
      EmptyIsWhole();
      OpenedFile(fate);
      LinesTake(EMPTY_FILE, true, Event(1, RunStart, SCHEMA, true, 0, Some(StartRecord)), fate);
    } else {
      var before, call := calls[..|calls| - 1], calls[|calls| - 1];
      LinesHold(fate, before);
      FileHolds(fate, before);
      var rec := Play(Opened(EMPTY_FILE, fate), before);
      LinesTake(rec.store, NothingTorn(fate, before), Offer(rec, call), call.fate);
      RequestDelivers(rec, call);
      assert calls == before + [call];
      assert NothingTorn(fate, calls) == (NothingTorn(fate, before) && !call.fate.Torn?);
    }
  }

  lemma OpenedFile(fate: Fate)
    ensures Opened(EMPTY_FILE, fate).store == Delivered(EMPTY_FILE, Event(1, RunStart, SCHEMA, true, 0, Some(StartRecord)), fate)
  {
    hide Delivered;
  }

  lemma RequestDelivers(rec: Rec, call: Call)
    requires call.Req? && !rec.ended
    ensures Played(rec, call).store == Delivered(rec.store, Offer(rec, call), call.fate)
  {
    hide Delivered, PayloadOf, OpenPhase, KindOf;
  }

  lemma EmptyIsWhole()
    ensures LinesKept(EMPTY_FILE, true)
  {
  }

  lemma LinesTake(store: Store, whole: bool, e: Event, fate: Fate)
    requires store.File? && !store.closed && LinesKept(store, whole)
    ensures Delivered(store, e, fate).File? && LinesKept(Delivered(store, e, fate), whole && !fate.Torn?)
  {
    var after := Delivered(store, e, fate);
    if fate.Written? { assert after.lines[..|after.lines| - 1] == store.lines; }
  }

  /** The same for a file. Once the run-end is stored the reader takes the stream exactly when no failed write left bytes behind,
      and then what it misses is what was dropped. */
  lemma FileIsRead(fate: Fate, calls: seq<Call>, verdict: string, elapsed: int)
    requires WellPlayed(calls)
    ensures var store := Finished(Play(Opened(EMPTY_FILE, fate), calls), verdict, elapsed, Written).store;
            && store.File?
            && (Garbled !in store.lines && Readable(Codes(store.lines)) <==> NothingTorn(fate, calls))
            && (NothingTorn(fate, calls) ==>
                  forall d :: Reports(d, Codes(store.lines)) ==> d.hasRunEnd && d.missing == d.dropped)
  {
    hide ValidEvent, WellCalled, History, Offer, Play, Opened, Readable, Reports, Codes, LinesKept, Finished, Delivered;
    var rec := Play(Opened(EMPTY_FILE, fate), calls);
    LinesHold(fate, calls);
    FileHolds(fate, calls);
    EndDelivered(rec, verdict, elapsed);
    LinesTake(rec.store, NothingTorn(fate, calls), Offer(rec, End(verdict, elapsed, Written)), Written);
    WholeOrGarbled(Finished(rec, verdict, elapsed, Written).store, NothingTorn(fate, calls));
    EventsAreRead(fate, calls, verdict, elapsed);
  }

  lemma EndDelivered(rec: Rec, verdict: string, elapsed: int)
    requires !rec.ended && rec.store.File? && !rec.store.closed
    ensures var store := Finished(rec, verdict, elapsed, Written).store;
            store == Delivered(rec.store, Offer(rec, End(verdict, elapsed, Written)), Written) && store.File? && !store.torn
  {
  }

  lemma WholeOrGarbled(store: Store, whole: bool)
    requires store.File? && !store.torn && LinesKept(store, whole)
    ensures if whole then Garbled !in store.lines && Codes(store.lines) == store.events else Garbled in store.lines
  {
    hide Codes;
  }

  /** The events whose writes succeeded make a readable stream, whatever the others came to. */
  lemma EventsAreRead(fate: Fate, calls: seq<Call>, verdict: string, elapsed: int)
    requires WellPlayed(calls)
    ensures var stream := Finished(Play(Opened(EMPTY_FILE, fate), calls), verdict, elapsed, Written).store.events;
            Readable(stream) && forall d :: Reports(d, stream) ==> d.hasRunEnd && d.missing == d.dropped
  {
    hide ValidEvent, WellCalled, History, Offer, Finished, Play, Opened, Readable, Reports;
    var h, rec := History(EMPTY_FILE, fate, calls), Play(Opened(EMPTY_FILE, fate), calls);
    FileHolds(fate, calls);
    HistoryIsValid(EMPTY_FILE, fate, calls);
    EndIsValid(rec, verdict, elapsed, Written);
    FileEndToEnd(fate, calls, verdict, elapsed);
    EndOffered(rec, verdict, elapsed, Written);
    var stream := Finished(rec, verdict, elapsed, Written).store.events;
    forall d | Reports(d, stream) ensures d.hasRunEnd && d.missing == d.dropped { MissingIsDropped(stream, d); }
  }

  lemma EndOffered(rec: Rec, verdict: string, elapsed: int, fate: Fate)
    requires !rec.ended && !rec.store.closed && fate.Written? && rec.store.File? && rec.attempts >= rec.store.dropped
    ensures var end := Offer(rec, End(verdict, elapsed, fate));
            && Finished(rec, verdict, elapsed, fate).store.events == rec.store.events + [end]
            && end.kind.RunEnd? && end.number == rec.number + 1
            && end.payload == Some(RunRecord(verdict, rec.attempts - rec.store.dropped, rec.store.dropped))
  {
  }

  lemma {:induction false} RisesAbove(es: seq<Event>, i: nat)
    requires i < |es| && forall k :: 0 < k < |es| ==> es[k - 1].number < es[k].number
    requires es[0].number >= 1
    ensures es[i].number >= i + 1
  {
    if i > 0 { RisesAbove(es, i - 1); }
  }

  /** Nothing follows the run-end, whatever is asked after it. */
  lemma {:induction false} EndedForGood(rec: Rec, calls: seq<Call>)
    requires rec.ended
    ensures Play(rec, calls).ended && Play(rec, calls).store == rec.store && Play(rec, calls).number == rec.number
    decreases |calls|
  {
    if calls != [] { EndedForGood(rec, calls[..|calls| - 1]); }
  }

  /** The reader and the recorder agree on what was lost. */
  lemma MissingIsDropped(stream: seq<Event>, d: Digest)
    requires stream != [] && Readable(stream) && Reports(d, stream)
    requires var end := stream[|stream| - 1];
             (end.kind.RunEnd? && end.payload.Some? && end.payload.value.RunRecord?
              && end.payload.value.dropped == end.number - |stream|)
    ensures d.hasRunEnd && d.missing == d.dropped
  {
  }
}
