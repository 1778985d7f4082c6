/** The shared module listing (module.go). The first caller of a query lists the module, later callers of the same query
    wait for its answer, and an answer nobody waits for any more is cancelled. Every `Exec` forgets all answers. */
module Listing {
  // ----- one answer, and the table of answers

  /** `closed` counts how often the `done` channel was closed. `failed` says that the answer is an error. */
  datatype View = View(interested: int, settled: bool, failed: bool, cancelled: bool, closed: nat)

  const FRESH := View(1, false, false, false, 0)

  function Joined(v: View): View { v.(interested := v.interested + 1) }

  /** The last one to lose interest in an unsettled answer cancels it. */
  predicate Abandons(v: View) { v.interested - 1 <= 0 && !v.settled }

  function Left(v: View): View {
    v.(interested := v.interested - 1, cancelled := v.cancelled || Abandons(v))
  }

  function Settled(v: View, failed: bool): View {
    v.(settled := true, failed := failed, cancelled := true, closed := v.closed + 1)
  }

  class Answer {
    var interested: int
    var settled: bool
    var failed: bool
    var cancelled: bool
    var closed: nat

    function Read(): View
      reads this
    {
      View(interested, settled, failed, cancelled, closed)
    }

    constructor ()
      ensures Read() == FRESH
    {
      interested, settled, failed, cancelled, closed := 1, false, false, false, 0;
    }
  }

  /** The answer of a query in the table. */
  ghost predicate Names(t: Table, all: seq<Answer>, id: nat, key: string, answer: Answer) {
    id < |all| == |t.entries| && all[id] == answer && t.entries[id].key == key
  }

  class Workspace {
    var modules: map<string, Answer>

    /** `t` is this table, with the answers in the order of their creation. */
    ghost predicate Shows(t: Table, all: seq<Answer>)
      reads this, all
    {
      && |all| == |t.entries| && (forall i, j :: 0 <= i < j < |all| ==> all[i] != all[j])
      && (forall id :: 0 <= id < |all| ==> all[id].Read() == t.entries[id].view)
      && modules.Keys == t.modules.Keys
      && forall key :: key in modules ==> t.modules[key] < |all| && modules[key] == all[t.modules[key]]
    }

    constructor ()
      ensures modules == map[]
    {
      modules := map[];
    }

    method JoinModule(key: string, ghost t: Table, ghost all: seq<Answer>, ghost call: nat) returns (answer: Answer, leading: bool)
      modifies this, modules.Values
      ensures leading == (key !in old(modules))
      ensures leading ==> fresh(answer) && answer.Read() == FRESH && modules == old(modules)[key := answer]
      ensures !leading ==> answer == old(modules)[key] && modules == old(modules)
                           && answer.Read() == Joined(old(modules[key].Read()))
      ensures forall a <- old(modules).Values :: a != answer ==> a.Read() == old(a.Read())
      ensures old(Shows(t, all)) ==> Shows(Join(t, call, key), if leading then all + [answer] else all)
    {
      if key in modules {
        answer, leading := modules[key], false;
        answer.interested := answer.interested + 1;
      } else {
        answer := new Answer();
        leading := true;
        modules := modules[key := answer];
      }
    }

    method LeaveModule(key: string, answer: Answer, ghost t: Table, ghost all: seq<Answer>, ghost call: nat, ghost c: Caller, ghost phase: Phase)
      modifies this, answer
      ensures answer.Read() == Left(old(answer.Read()))
      ensures modules == if Abandons(old(answer.Read())) && key in old(modules) && old(modules)[key] == answer
                         then old(modules) - {key} else old(modules)
      ensures old(Shows(t, all)) && Names(t, all, c.id, key, answer) ==> Shows(Leave(t, call, c, phase), all)
    {
      answer.interested := answer.interested - 1;
      if answer.interested > 0 || answer.settled { return; }
      answer.cancelled := true;
      if key in modules && modules[key] == answer { modules := modules - {key}; }
    }

    method SettleModule(key: string, answer: Answer, failed: bool, ghost t: Table, ghost all: seq<Answer>, ghost call: nat, ghost c: Caller)
      modifies this, answer
      ensures answer.Read() == Settled(old(answer.Read()), failed)
      ensures answer.settled && answer.failed == failed && answer.cancelled
      ensures answer.closed == old(answer.closed) + 1 && answer.interested == old(answer.interested)
      ensures modules == if failed && key in old(modules) && old(modules)[key] == answer
                         then old(modules) - {key} else old(modules)
      ensures old(Shows(t, all)) && Names(t, all, c.id, key, answer) ==> Shows(Settle(t, call, c, failed), all)
    {
      answer.failed, answer.settled := failed, true;
      if key in modules && modules[key] == answer && failed { modules := modules - {key}; }
      answer.cancelled := true;
      answer.closed := answer.closed + 1;
    }

    /** The answers are left to those who wait for them. */
    method ForgetModules(ghost t: Table, ghost all: seq<Answer>)
      modifies this
      ensures modules == map[]
      ensures old(Shows(t, all)) ==> Shows(t.(modules := map[]), all)
    {
      modules := map[];
    }
  }

  // ----- the protocol: any number of calls, on any number of queries

  /** `joined` and `released` are the calls that did so; `cutShort` says that the listing was cancelled before it
      settled. Entries are numbered in the order of their creation. */
  datatype Entry = Entry(view: View, key: string, joined: set<nat>, released: set<nat>, cutShort: bool)

  datatype Role = Leader | Follower

  /** `Working`: the leader lists, a follower waits. `Ending`: the result is known and the release is due. `shared` says
      that the result is the answer's, as opposed to the caller's own cancellation. */
  datatype Phase = Working | Ending(shared: bool) | Ended(shared: bool)

  datatype Caller = Caller(id: nat, role: Role, phase: Phase, released: bool)

  datatype Table = Table(entries: seq<Entry>, modules: map<string, nat>, callers: map<nat, Caller>)

  const START := Table([], map[], map[])

  function WithEntry(t: Table, id: nat, e: Entry): Table
    requires id < |t.entries|
  {
    t.(entries := t.entries[id := e])
  }

  function Dropped(modules: map<string, nat>, key: string, id: nat, drop: bool): map<string, nat> {
    if drop && key in modules && modules[key] == id then modules - {key} else modules
  }

  function Join(t: Table, call: nat, key: string): Table
    requires key in t.modules ==> t.modules[key] < |t.entries|
  {
    if key in t.modules then
      var id := t.modules[key];
      var e := t.entries[id];
      WithEntry(t, id, e.(view := Joined(e.view), joined := e.joined + {call}))
        .(callers := t.callers[call := Caller(id, Follower, Working, false)])
    else
      var id := |t.entries|;
      t.(entries := t.entries + [Entry(FRESH, key, {call}, {}, false)],
         modules := t.modules[key := id],
         callers := t.callers[call := Caller(id, Leader, Working, false)])
  }

  function Leave(t: Table, call: nat, c: Caller, phase: Phase): Table
    requires c.id < |t.entries|
  {
    var e := t.entries[c.id];
    WithEntry(t, c.id, e.(view := Left(e.view), released := e.released + {call}))
      .(modules := Dropped(t.modules, e.key, c.id, Abandons(e.view)),
        callers := t.callers[call := c.(released := true, phase := phase)])
  }

  function Settle(t: Table, call: nat, c: Caller, failed: bool): Table
    requires c.id < |t.entries|
  {
    var e := t.entries[c.id];
    WithEntry(t, c.id, e.(view := Settled(e.view, failed), cutShort := e.view.cancelled))
      .(modules := Dropped(t.modules, e.key, c.id, failed), callers := t.callers[call := c.(phase := Ending(true))])
  }

  datatype Action =
    | Joins(key: string)
    | Watches                // the leader's context is done while it lists: the watcher releases
    | Settles(failed: bool)  // the leader's listing is over
    | Sees                   // a follower sees `done` closed
    | GivesUp                // a follower's context is done first
    | Releases               // the deferred release
    | Forgets                // an `Exec` ends, or the workspace closes

  ghost predicate Acts(t: Table, t': Table, call: nat, a: Action) {
    if a.Joins? then
      call !in t.callers && (a.key in t.modules ==> t.modules[a.key] < |t.entries|) && t' == Join(t, call, a.key)
    else if a.Forgets? then t' == t.(modules := map[])
    else call in t.callers && t.callers[call].id < |t.entries| && CallerActs(t, t', call, t.callers[call], a)
  }

  ghost predicate CallerActs(t: Table, t': Table, call: nat, c: Caller, a: Action)
    requires c.id < |t.entries|
  {
    if a.Watches? then c.role.Leader? && c.phase.Working? && !c.released && t' == Leave(t, call, c, c.phase)
    else if a.Settles? then c.role.Leader? && c.phase.Working? && t' == Settle(t, call, c, a.failed)
    else if a.Sees? then
      && c.role.Follower? && c.phase.Working? && t.entries[c.id].view.closed > 0
      && t' == Goes(t, call, c, Ending(true))
    else if a.GivesUp? then c.role.Follower? && c.phase.Working? && t' == Goes(t, call, c, Ending(false))
    else if !a.Releases? || !c.phase.Ending? then false
    else if c.released then t' == Goes(t, call, c, Ended(c.phase.shared))
    else t' == Leave(t, call, c, Ended(c.phase.shared))
  }

  function Goes(t: Table, call: nat, c: Caller, phase: Phase): Table {
    t.(callers := t.callers[call := c.(phase := phase)])
  }

  ghost predicate Step(t: Table, t': Table) { exists call, a :: Acts(t, t', call, a) }

  ghost predicate IsRun(run: seq<Table>) {
    run != [] && run[0] == START && forall i :: 0 < i < |run| ==> Step(run[i - 1], run[i])
  }

  // ----- the invariant

  /** Interest is what has been joined and not yet released; `done` closes once; nothing wanted is cancelled. */
  ghost predicate EntryKept(t: Table, id: nat)
    requires id < |t.entries|
  {
    var e := t.entries[id];
    && e.released <= e.joined && e.view.interested == |e.joined| - |e.released|
    && e.view.closed == (if e.view.settled then 1 else 0)
    && (if e.view.settled then e.view.cancelled else e.view.cancelled <==> e.joined == e.released)
    && (e.cutShort ==> e.view.settled && e.joined == e.released)
    && (forall k :: k in e.joined <==> k in t.callers && t.callers[k].id == id)
    && (forall k :: k in e.released <==> k in t.callers && t.callers[k].id == id && t.callers[k].released)
    && (e.view.settled <==> !exists k :: Lists(t, k, id))
    && (forall j, k :: Leads(t, j, id) && Leads(t, k, id) ==> j == k)
  }

  ghost predicate Leads(t: Table, k: nat, id: nat) { k in t.callers && t.callers[k].id == id && t.callers[k].role.Leader? }

  ghost predicate Lists(t: Table, k: nat, id: nat) { Leads(t, k, id) && t.callers[k].phase.Working? }

  predicate CallerKept(t: Table, c: Caller) {
    && c.id < |t.entries|
    && (c.role.Follower? && c.phase.Working? ==> !c.released)
    && ((c.phase.Ending? || c.phase.Ended?) && c.phase.shared ==> t.entries[c.id].view.settled)
    && (c.phase.Ended? ==> c.released)
    && (c.role.Follower? && c.phase.Ending? ==> !c.released)
  }

  /** A listed answer is settled without error, or unsettled, not cancelled, and wanted by at least one call. */
  predicate ListedKept(t: Table, key: string)
    requires key in t.modules
  {
    && t.modules[key] < |t.entries|
    && var e := t.entries[t.modules[key]];
       && e.key == key
       && (e.view.settled ==> !e.view.failed && !e.cutShort)
       && (!e.view.settled ==> !e.view.cancelled && e.view.interested >= 1)
  }

  ghost predicate Inv(t: Table) {
    && (forall id :: 0 <= id < |t.entries| ==> EntryKept(t, id))
    && (forall k :: k in t.callers ==> CallerKept(t, t.callers[k]))
    && (forall key :: key in t.modules ==> ListedKept(t, key))
  }

  lemma SameSize(a: set<nat>, b: set<nat>)
    requires a <= b && |a| == |b|
    ensures a == b
  {
    if x :| x in b && x !in a {
      SizeMonotone(a + {x}, b);
    }
  }

  lemma {:induction false} SizeMonotone(a: set<nat>, b: set<nat>)
    requires a <= b
    ensures |a| <= |b|
    decreases a
  {
    if x :| x in a { SizeMonotone(a - {x}, b - {x}); }
  }

  lemma JoinKeeps(t: Table, call: nat, key: string)
    requires Inv(t) && call !in t.callers
    ensures key in t.modules ==> t.modules[key] < |t.entries|
    ensures Inv(Join(t, call, key))
  {
    assert key in t.modules ==> ListedKept(t, key);
    var t' := Join(t, call, key);
    forall id | 0 <= id < |t'.entries| ensures EntryKept(t', id) { JoinKeepsEntry(t, call, key, id); }
    forall k | k in t'.callers ensures CallerKept(t', t'.callers[k]) { if k != call { assert CallerKept(t, t.callers[k]); } }
    forall k | k in t'.modules ensures ListedKept(t', k) { if k != key { assert ListedKept(t, k); } }
  }

  lemma JoinKeepsEntry(t: Table, call: nat, key: string, id: nat)
    requires Inv(t) && call !in t.callers && (key in t.modules ==> t.modules[key] < |t.entries|)
    requires id < |Join(t, call, key).entries|
    ensures EntryKept(Join(t, call, key), id)
  {
    var t' := Join(t, call, key);
    if id < |t.entries| {
      assert EntryKept(t, id);
      assert key in t.modules ==> ListedKept(t, key);
      forall k ensures Leads(t', k, id) <==> Leads(t, k, id) {}
      forall k ensures Lists(t', k, id) <==> Lists(t, k, id) {}
    } else {
      assert forall k :: k in t.callers ==> CallerKept(t, t.callers[k]);
      assert Lists(t', call, id);
    }
  }

  lemma LeaveKeeps(t: Table, call: nat, phase: Phase)
    requires Inv(t) && call in t.callers && !t.callers[call].released
    requires var c := t.callers[call];
             (phase == c.phase && c.role.Leader? && c.phase.Working?) || (phase.Ended? && c.phase.Ending? && phase.shared == c.phase.shared)
    ensures t.callers[call].id < |t.entries| && Inv(Leave(t, call, t.callers[call], phase))
  {
    var c := t.callers[call];
    assert CallerKept(t, c);
    var t' := Leave(t, call, c, phase);
    forall id | 0 <= id < |t'.entries| ensures EntryKept(t', id) {
      assert EntryKept(t, id);
      if id == c.id { LeaveKeepsEntry(t, call, phase); } else { OtherEntryKept(t, t', call, id); }
    }
    forall k | k in t'.callers ensures CallerKept(t', t'.callers[k]) { assert CallerKept(t, t.callers[k]); }
    forall key | key in t'.modules ensures ListedKept(t', key) {
      assert ListedKept(t, key) && EntryKept(t, c.id);
    }
  }

  lemma LeaveKeepsEntry(t: Table, call: nat, phase: Phase)
    requires call in t.callers && !t.callers[call].released && CallerKept(t, t.callers[call])
    requires EntryKept(t, t.callers[call].id) && (phase.Working? <==> t.callers[call].phase.Working?)
    ensures EntryKept(Leave(t, call, t.callers[call], phase), t.callers[call].id)
  {
    var c := t.callers[call];
    var e, t' := t.entries[c.id], Leave(t, call, c, phase);
    assert call in e.joined && call !in e.released;
    SizeMonotone(e.released + {call}, e.joined);
    if Abandons(e.view) { SameSize(e.released + {call}, e.joined); }
    SameListers(t, t', call, c.id);
  }

  /** A step of one call that keeps its role, and does not stop or start listing, keeps who lists what. */
  lemma SameListers(t: Table, t': Table, call: nat, id: nat)
    requires call in t.callers && t'.callers.Keys == t.callers.Keys
    requires forall k :: k in t.callers && k != call ==> t'.callers[k] == t.callers[k]
    requires var c, c' := t.callers[call], t'.callers[call];
             c'.id == c.id && c'.role == c.role && (c.id == id && c.role.Leader? ==> (c'.phase.Working? <==> c.phase.Working?))
    ensures forall k :: Leads(t', k, id) <==> Leads(t, k, id)
    ensures (exists k :: Lists(t', k, id)) <==> exists k :: Lists(t, k, id)
  {
    forall k ensures Leads(t', k, id) <==> Leads(t, k, id) {}
    forall k ensures Lists(t', k, id) <==> Lists(t, k, id) {}
  }

  /** A call's step does not touch another entry. */
  lemma OtherEntryKept(t: Table, t': Table, call: nat, id: nat)
    requires id < |t.entries| == |t'.entries| && EntryKept(t, id) && t'.entries[id] == t.entries[id]
    requires call in t.callers && t'.callers.Keys == t.callers.Keys && t.callers[call].id != id
    requires forall k :: k in t.callers && k != call ==> t'.callers[k] == t.callers[k]
    requires t'.callers[call].id == t.callers[call].id && t'.callers[call].role == t.callers[call].role
    ensures EntryKept(t', id)
  {
    SameListers(t, t', call, id);
  }

  lemma SettleKeeps(t: Table, call: nat, failed: bool)
    requires Inv(t) && call in t.callers && t.callers[call].role.Leader? && t.callers[call].phase.Working?
    ensures t.callers[call].id < |t.entries| && Inv(Settle(t, call, t.callers[call], failed))
  {
    var c := t.callers[call];
    assert CallerKept(t, c);
    var t' := Settle(t, call, c, failed);
    assert EntryKept(t, c.id) && Lists(t, call, c.id);
    forall id | 0 <= id < |t'.entries| ensures EntryKept(t', id) {
      assert EntryKept(t, id);
      if id == c.id { SettleKeepsEntry(t, call, failed); } else { OtherEntryKept(t, t', call, id); }
    }
    forall k | k in t'.callers ensures CallerKept(t', t'.callers[k]) { assert CallerKept(t, t.callers[k]); }
    forall key | key in t'.modules ensures ListedKept(t', key) { assert ListedKept(t, key); }
  }

  lemma SettleKeepsEntry(t: Table, call: nat, failed: bool)
    requires call in t.callers && CallerKept(t, t.callers[call]) && Lists(t, call, t.callers[call].id)
    requires EntryKept(t, t.callers[call].id)
    ensures EntryKept(Settle(t, call, t.callers[call], failed), t.callers[call].id)
  {
    var c := t.callers[call];
    var t' := Settle(t, call, c, failed);
    forall k ensures Leads(t', k, c.id) <==> Leads(t, k, c.id) {}
    forall k ensures !Lists(t', k, c.id) {
      assert Leads(t, call, c.id) && (Leads(t, k, c.id) ==> k == call);
    }
  }

  lemma GoesKeeps(t: Table, call: nat, phase: Phase)
    requires Inv(t) && call in t.callers
    requires var c := t.callers[call];
             && c.id < |t.entries|
             && ((c.role.Follower? && c.phase.Working? && phase.Ending? && (phase.shared ==> t.entries[c.id].view.closed > 0))
                 || (c.released && c.phase.Ending? && phase == Ended(c.phase.shared)))
    ensures Inv(Goes(t, call, t.callers[call], phase))
  {
    var c := t.callers[call];
    var t' := Goes(t, call, c, phase);
    assert CallerKept(t, c) && EntryKept(t, c.id);
    forall id | 0 <= id < |t'.entries| ensures EntryKept(t', id) {
      assert EntryKept(t, id);
      SameListers(t, t', call, id);
    }
    forall k | k in t'.callers ensures CallerKept(t', t'.callers[k]) { assert CallerKept(t, t.callers[k]); }
    forall key | key in t'.modules ensures ListedKept(t', key) { assert ListedKept(t, key); }
  }

  lemma ForgetKeeps(t: Table)
    requires Inv(t)
    ensures Inv(t.(modules := map[]))
  {
    var t' := t.(modules := map[]);
    forall id | 0 <= id < |t'.entries| ensures EntryKept(t', id) {
      assert EntryKept(t, id);
      forall k ensures Leads(t', k, id) <==> Leads(t, k, id) {}
      forall k ensures Lists(t', k, id) <==> Lists(t, k, id) {}
    }
    forall k | k in t'.callers ensures CallerKept(t', t'.callers[k]) { assert CallerKept(t, t.callers[k]); }
  }

  lemma StepKeeps(t: Table, t': Table)
    requires Inv(t) && Step(t, t')
    ensures Inv(t')
  {
    hide Inv, Join, Leave, Settle;
    var call, a :| Acts(t, t', call, a);
    if a.Joins? { JoinKeeps(t, call, a.key); }
    else if a.Forgets? { ForgetKeeps(t); }
    else {
      var c := t.callers[call];
      if a.Watches? { LeaveKeeps(t, call, c.phase); }
      else if a.Settles? { SettleKeeps(t, call, a.failed); }
      else if a.Sees? { GoesKeeps(t, call, Ending(true)); }
      else if a.GivesUp? { GoesKeeps(t, call, Ending(false)); }
      else if c.released { GoesKeeps(t, call, Ended(c.phase.shared)); }
      else { LeaveKeeps(t, call, Ended(c.phase.shared)); }
    }
  }

  lemma {:induction false} Invariant(run: seq<Table>, i: nat)
    requires IsRun(run) && i < |run|
    ensures Inv(run[i])
  {
    hide Inv, Step;
    if i == 0 {
      StartKept();
    } else {
      Invariant(run, i - 1);
      StepKeeps(run[i - 1], run[i]);
    }
  }

  lemma StartKept()
    ensures Inv(START)
  {
  }

  // ----- main results

  /** In every reachable state an answer in the table is settled without error, or unsettled, not cancelled and wanted by
      at least one call; interest is joins less releases; `done` closed at most once, exactly when settled; and an answer is
      cancelled exactly when it is settled or every call that joined it has released it. */
  lemma TableIsSound(run: seq<Table>, i: nat)
    requires IsRun(run) && i < |run|
    ensures forall key :: key in run[i].modules ==>
              && run[i].modules[key] < |run[i].entries|
              && var v := run[i].entries[run[i].modules[key]].view;
                 if v.settled then !v.failed else !v.cancelled && v.interested >= 1
    ensures forall id :: 0 <= id < |run[i].entries| ==>
              var e := run[i].entries[id];
              && e.view.interested == |e.joined - e.released|
              && e.view.closed == (if e.view.settled then 1 else 0)
              && (e.view.cancelled <==> e.view.settled || e.joined == e.released)
  {
    Invariant(run, i);
    forall key | key in run[i].modules ensures ListedKept(run[i], key) {}
    forall id | 0 <= id < |run[i].entries|
      ensures var e := run[i].entries[id];
              && e.view.interested == |e.joined - e.released| && e.view.closed == (if e.view.settled then 1 else 0)
              && (e.view.cancelled <==> e.view.settled || e.joined == e.released)
    {
      assert EntryKept(run[i], id);
      DifferenceSize(run[i].entries[id].joined, run[i].entries[id].released);
    }
  }

  lemma DifferenceSize(a: set<nat>, b: set<nat>)
    requires b <= a
    ensures |a - b| == |a| - |b|
  {
    assert (a - b) + b == a;
  }

  /** No call that shares an answer gets the cancellation of another: what it sees was not cut short. */
  lemma NobodyElsesCancellation(run: seq<Table>, i: nat, call: nat)
    requires IsRun(run) && 0 < i < |run| && Acts(run[i - 1], run[i], call, Sees)
    ensures var id := run[i].callers[call].id; id < |run[i].entries| && !run[i].entries[id].cutShort
  {
    Invariant(run, i - 1);
    var t, c := run[i - 1], run[i - 1].callers[call];
    assert CallerKept(t, c) && EntryKept(t, c.id);
    assert call in t.entries[c.id].joined && call !in t.entries[c.id].released;
  }

  /** A call that has not ended can go on, unless it follows a listing whose leader is still at it. */
  lemma FollowersAreAnswered(run: seq<Table>, i: nat, call: nat)
    requires IsRun(run) && i < |run| && call in run[i].callers && !run[i].callers[call].phase.Ended?
    ensures var t, c := run[i], run[i].callers[call];
            || (c.role.Leader? && c.phase.Working? && exists t' :: Acts(t, t', call, Settles(false)))
            || (c.phase.Ending? && exists t' :: Acts(t, t', call, Releases))
            || (exists t' :: Acts(t, t', call, Sees))
            || exists leader :: Lists(t, leader, c.id)
    ensures var t, c := run[i], run[i].callers[call];
            c.role.Follower? && c.phase.Working? ==> exists t' :: Acts(t, t', call, GivesUp)
  {
    Invariant(run, i);
    var t, c := run[i], run[i].callers[call];
    assert CallerKept(t, c) && EntryKept(t, c.id);
    if c.phase.Ending? {
      assert Acts(t, if c.released then Goes(t, call, c, Ended(c.phase.shared)) else Leave(t, call, c, Ended(c.phase.shared)), call, Releases);
    } else if c.role.Leader? {
      assert Acts(t, Settle(t, call, c, false), call, Settles(false));
    } else {
      assert Acts(t, Goes(t, call, c, Ending(false)), call, GivesUp);
      if t.entries[c.id].view.settled { assert Acts(t, Goes(t, call, c, Ending(true)), call, Sees); }
    }
  }

  /** A leader whose context ends while it lists gives up its interest; when nobody else is interested the listing is cancelled
      and its answer is out of the table, and when somebody is it goes on. */
  lemma LeaderGivesUp(run: seq<Table>, i: nat, call: nat) returns (t': Table)
    requires IsRun(run) && i < |run| && call in run[i].callers
    requires var c := run[i].callers[call]; c.role.Leader? && c.phase.Working? && !c.released
    ensures Acts(run[i], t', call, Watches)
    ensures var id := run[i].callers[call].id;
            && id < |run[i].entries| == |t'.entries|
            && var e, alone := run[i].entries[id], run[i].entries[id].joined == run[i].entries[id].released + {call};
               && !e.view.settled && (t'.entries[id].view.cancelled <==> alone)
               && (alone ==> forall key :: key in t'.modules ==> t'.modules[key] != id)
               && (!alone ==> t'.modules == run[i].modules)
  {
    Invariant(run, i);
    var t, c := run[i], run[i].callers[call];
    assert CallerKept(t, c) && EntryKept(t, c.id) && Lists(t, call, c.id);
    t' := Leave(t, call, c, c.phase);
    LeaveKeeps(t, call, c.phase);
    assert EntryKept(t', c.id);
    var e := t.entries[c.id];
    assert call in e.joined && call !in e.released;
    forall key | key in t'.modules && t'.modules[key] == c.id ensures e.joined != e.released + {call} { assert ListedKept(t', key); }
    if e.joined != e.released + {call} { StillWanted(t, call, c); }
  }

  lemma StillWanted(t: Table, call: nat, c: Caller)
    requires c.id < |t.entries| && EntryKept(t, c.id)
    requires var e := t.entries[c.id]; call in e.joined && call !in e.released && e.joined != e.released + {call}
    ensures !Abandons(t.entries[c.id].view)
  {
    var e := t.entries[c.id];
    if |e.joined| <= |e.released| + 1 {
      SizeMonotone(e.released + {call}, e.joined);
      SameSize(e.released + {call}, e.joined);
    }
  }

  /** Nothing that happens to one answer takes another out of the table, except forgetting. */
  lemma StaleLeaderEvictsNothing(t: Table, t': Table, call: nat, a: Action, key: string)
    requires Inv(t) && Acts(t, t', call, a) && !a.Forgets? && !a.Joins?
    requires key in t.modules && t.modules[key] != t.callers[call].id
    ensures key in t'.modules && t'.modules[key] == t.modules[key]
  {
  }

  /** A call that joins after the answers were forgotten gets an answer made after that, however late older listings
      settle: its number is not among those that existed when the `Exec` ended. */
  lemma {:induction false} AnswerIsNewerThanExec(run: seq<Table>, i: nat, k: nat)
    requires IsRun(run) && i <= k < |run| && run[i].modules == map[]
    ensures |run[i].entries| <= |run[k].entries|
    ensures forall key :: key in run[k].modules ==> run[k].modules[key] >= |run[i].entries|
    ensures forall call :: call in run[k].callers && call !in run[i].callers ==> run[k].callers[call].id >= |run[i].entries|
    ensures forall call :: call in run[i].callers ==> call in run[k].callers
    decreases k
  {
    hide Acts, Step;
    if i < k {
      AnswerIsNewerThanExec(run, i, k - 1);
      StepIsNewer(run[k - 1], run[k], |run[i].entries|, run[i].callers.Keys);
    }
  }

  lemma StepIsNewer(t: Table, t': Table, n: nat, early: set<nat>)
    requires Step(t, t') && n <= |t.entries| && early <= t.callers.Keys
    requires forall key :: key in t.modules ==> t.modules[key] >= n
    requires forall call :: call in t.callers && call !in early ==> t.callers[call].id >= n
    ensures n <= |t'.entries| && early <= t'.callers.Keys
    ensures forall key :: key in t'.modules ==> t'.modules[key] >= n
    ensures forall call :: call in t'.callers && call !in early ==> t'.callers[call].id >= n
  {
    hide Joined, Left, Settled, Abandons;
    var call, a :| Acts(t, t', call, a);
  }
}
