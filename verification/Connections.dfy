/** `src/daemon/connections.rs`: the registry of in-flight connections. `register` and the
    guard's `Drop` are three and two atomic steps; here any number of tasks interleave
    them. A registration is named by its place in the order of `fetch_add` calls. */
module Connections {
  import opened IdCounter

  datatype Connection = Connection(src: string, kind: string, dst: string)

  /** State events, tagged with the registration they are about. */
  datatype Event = Opened(k: nat) | Closed(k: nat)

  /** How far registration and teardown of one connection have come. */
  datatype Phase = Allocated | Inserted | Open | Removed | Gone

  datatype Registration = Registration(id: nat, info: Connection, phase: Phase)

  datatype State = State(
    regs: seq<Registration>,
    nextId: nat,
    active: map<nat, Connection>,
    sent: seq<Event>)

  datatype Step =
    | FetchAdd(info: Connection)
    | Insert(k: nat)
    | SendOpened(k: nat)
    | Remove(k: nat)
    | SendClosed(k: nat)

  const INITIAL := State([], 1, map[], [])

  predicate InPhase(s: State, k: nat, p: Phase) {
    k < |s.regs| && s.regs[k].phase == p
  }

  predicate Enabled(s: State, step: Step) {
    match step
    case FetchAdd(_) => true
    case Insert(k) => InPhase(s, k, Allocated)
    case SendOpened(k) => InPhase(s, k, Inserted)
    case Remove(k) => InPhase(s, k, Open)
    case SendClosed(k) => InPhase(s, k, Removed)
  }

  function Moved(s: State, k: nat, p: Phase): State
    requires k < |s.regs|
  {
    s.(regs := s.regs[k := s.regs[k].(phase := p)])
  }

  function Apply(s: State, step: Step): State
    requires Enabled(s, step)
  {
    match step
    case FetchAdd(info) =>
      s.(regs := s.regs + [Registration(s.nextId, info, Allocated)], nextId := (s.nextId + 1) % WRAP)
    case Insert(k) => Moved(s, k, Inserted).(active := s.active[s.regs[k].id := s.regs[k].info])
    case SendOpened(k) => Moved(s, k, Open).(sent := s.sent + [Opened(k)])
    case Remove(k) => Moved(s, k, Removed).(active := s.active - {s.regs[k].id})
    case SendClosed(k) => Moved(s, k, Gone).(sent := s.sent + [Closed(k)])
  }

  predicate Runs(s: State, steps: seq<Step>)
    decreases |steps|
  {
    steps == [] || (Enabled(s, steps[0]) && Runs(Apply(s, steps[0]), steps[1..]))
  }

  function Final(s: State, steps: seq<Step>): State
    requires Runs(s, steps)
    decreases |steps|
  {
    if steps == [] then s else Final(Apply(s, steps[0]), steps[1..])
  }

  /** How many registrations are in phase `p`. */
  function Count(regs: seq<Registration>, p: Phase): nat {
    if regs == [] then 0
    else Count(regs[..|regs| - 1], p) + (if regs[|regs| - 1].phase == p then 1 else 0)
  }

  function Opens(sent: seq<Event>): nat {
    if sent == [] then 0
    else Opens(sent[..|sent| - 1]) + (if sent[|sent| - 1].Opened? then 1 else 0)
  }

  function Closes(sent: seq<Event>): nat {
    if sent == [] then 0
    else Closes(sent[..|sent| - 1]) + (if sent[|sent| - 1].Closed? then 1 else 0)
  }

  lemma {:induction false} CountUpdate(regs: seq<Registration>, k: nat, r: Registration, p: Phase)
    requires k < |regs|
    ensures Count(regs[k := r], p)
      == Count(regs, p) - (if regs[k].phase == p then 1 else 0) + (if r.phase == p then 1 else 0)
    decreases |regs|
  {
    var n := |regs| - 1;
    if k < n {
      CountUpdate(regs[..n], k, r, p);
      assert regs[k := r][..n] == regs[..n][k := r];
    } else {
      assert regs[k := r][..n] == regs[..n];
    }
  }

  lemma CountAppend(regs: seq<Registration>, r: Registration, p: Phase)
    ensures Count(regs + [r], p) == Count(regs, p) + (if p == r.phase then 1 else 0)
  {
    assert (regs + [r])[..|regs|] == regs;
  }

  lemma SentAppend(sent: seq<Event>, e: Event)
    ensures Opens(sent + [e]) == Opens(sent) + (if e.Opened? then 1 else 0)
    ensures Closes(sent + [e]) == Closes(sent) + (if e.Closed? then 1 else 0)
  {
    assert (sent + [e])[..|sent|] == sent;
  }

  predicate Live(p: Phase) {
    p == Inserted || p == Open
  }

  predicate DistinctIds(regs: seq<Registration>) {
    forall i, j :: 0 <= i < j < |regs| ==> regs[i].id != regs[j].id
  }

  predicate IdsDrawn(s: State) {
    s.nextId == IdAt(1, |s.regs|) && forall k :: 0 <= k < |s.regs| ==> s.regs[k].id == IdAt(1, k)
  }

  /** The map holds the inserted, not yet removed registrations under their own ids, with
      their own data. */
  ghost predicate MapMatches(s: State) {
    && (forall k :: 0 <= k < |s.regs| && Live(s.regs[k].phase) ==>
          s.regs[k].id in s.active && s.active[s.regs[k].id] == s.regs[k].info)
    && (forall id :: id in s.active ==>
          exists k :: 0 <= k < |s.regs| && Live(s.regs[k].phase) && s.regs[k].id == id)
  }

  predicate Announced(p: Phase) {
    p == Open || p == Removed || p == Gone
  }

  /** Every registration's events were sent as far as it has come, the opening first. */
  ghost predicate EventsMatch(s: State) {
    (forall k: nat :: EventsOf(s, k)) && OpenedFirst(s.sent)
  }

  predicate EventsOf(s: State, k: nat) {
    && (Opened(k) in s.sent <==> k < |s.regs| && Announced(s.regs[k].phase))
    && (Closed(k) in s.sent <==> InPhase(s, k, Gone))
  }

  predicate OpenedFirst(sent: seq<Event>) {
    forall j :: 0 <= j < |sent| && sent[j].Closed? ==> Opened(sent[j].k) in sent[..j]
  }

  predicate Tally(s: State) {
    && Opens(s.sent) == Count(s.regs, Open) + Count(s.regs, Removed) + Count(s.regs, Gone)
    && Closes(s.sent) == Count(s.regs, Gone)
    && |s.active| == Count(s.regs, Inserted) + Count(s.regs, Open)
  }

  ghost predicate Books(s: State) {
    MapMatches(s) && EventsMatch(s) && Tally(s)
  }

  ghost predicate Inv(s: State) {
    |s.regs| <= WRAP && IdsDrawn(s) && Books(s)
  }

  lemma IdsUnique(s: State)
    requires |s.regs| <= WRAP && IdsDrawn(s)
    ensures DistinctIds(s.regs)
  {
    DistinctIff(1, |s.regs|);
  }

  lemma MapKept(s: State, step: Step)
    requires MapMatches(s) && DistinctIds(s.regs) && Enabled(s, step)
    ensures MapMatches(Apply(s, step))
  {
    var t := Apply(s, step);
    forall k | 0 <= k < |t.regs| && Live(t.regs[k].phase)
      ensures t.regs[k].id in t.active && t.active[t.regs[k].id] == t.regs[k].info
    {
      LiveStayListed(s, step, k);
    }
    forall id | id in t.active ensures exists k :: 0 <= k < |t.regs| && Live(t.regs[k].phase) && t.regs[k].id == id {
      var k := ListedStayLive(s, step, id);
    }
  }

  lemma LiveStayListed(s: State, step: Step, k: nat)
    requires MapMatches(s) && DistinctIds(s.regs) && Enabled(s, step)
    requires k < |Apply(s, step).regs| && Live(Apply(s, step).regs[k].phase)
    ensures var t := Apply(s, step); t.regs[k].id in t.active && t.active[t.regs[k].id] == t.regs[k].info
  {
  }

  lemma ListedStayLive(s: State, step: Step, id: nat) returns (k: nat)
    requires MapMatches(s) && DistinctIds(s.regs) && Enabled(s, step) && id in Apply(s, step).active
    ensures var t := Apply(s, step); k < |t.regs| && Live(t.regs[k].phase) && t.regs[k].id == id
  {
    if step.Insert? && id == s.regs[step.k].id {
      k := step.k;
    } else {
      k :| 0 <= k < |s.regs| && Live(s.regs[k].phase) && s.regs[k].id == id;
    }
  }

  lemma EventsKept(s: State, step: Step)
    requires EventsMatch(s) && Enabled(s, step)
    ensures EventsMatch(Apply(s, step))
  {
    var t := Apply(s, step);
    forall k: nat ensures EventsOf(t, k) {
      EventsOfKept(s, step, k);
    }
    if step.SendOpened? || step.SendClosed? {
      assert EventsOf(s, step.k);
      SendKeepsOrder(s.sent, if step.SendOpened? then Opened(step.k) else Closed(step.k));
    }
  }

  lemma EventsOfKept(s: State, step: Step, k: nat)
    requires EventsOf(s, k) && Enabled(s, step)
    ensures EventsOf(Apply(s, step), k)
  {
  }

  lemma SendKeepsOrder(sent: seq<Event>, e: Event)
    requires OpenedFirst(sent) && (e.Closed? ==> Opened(e.k) in sent)
    ensures OpenedFirst(sent + [e])
  {
    var more := sent + [e];
    forall j | 0 <= j < |more| && more[j].Closed? ensures Opened(more[j].k) in more[..j] {
      assert more[..j] == sent[..j];
      assert sent[..|sent|] == sent;
    }
  }

  lemma EntryAdded(m: map<nat, Connection>, id: nat, info: Connection)
    requires id !in m
    ensures |m[id := info]| == |m| + 1 && m[id := info] - {id} == m
  {
    assert m[id := info].Keys == m.Keys + {id};
  }

  lemma EntryRemoved(m: map<nat, Connection>, id: nat)
    requires id in m
    ensures |m - {id}| == |m| - 1
  {
    assert m.Keys == (m - {id}).Keys + {id};
  }

  lemma ListedIff(s: State, k: nat)
    requires MapMatches(s) && DistinctIds(s.regs) && k < |s.regs|
    ensures s.regs[k].id in s.active <==> Live(s.regs[k].phase)
  {
  }

  function SizeAfter(s: State, step: Step): int {
    |s.active| + (if step.Insert? then 1 else 0) - (if step.Remove? then 1 else 0)
  }

  /** One more or one less entry, as the step inserts or removes one. */
  lemma SizeKept(s: State, step: Step)
    requires Enabled(s, step)
    requires !step.FetchAdd? ==> (s.regs[step.k].id in s.active <==> Live(s.regs[step.k].phase))
    ensures |Apply(s, step).active| == SizeAfter(s, step)
  {
    match step
    case Insert(k) => EntryAdded(s.active, s.regs[k].id, s.regs[k].info);
    case Remove(k) => EntryRemoved(s.active, s.regs[k].id);
    case _ =>
  }

  lemma TallyKept(s: State, step: Step)
    requires Tally(s) && Enabled(s, step)
    requires |Apply(s, step).active| == SizeAfter(s, step)
    ensures Tally(Apply(s, step))
  {
    if step.FetchAdd? {
      var r := Registration(s.nextId, step.info, Allocated);
      CountAppend(s.regs, r, Inserted);
      CountAppend(s.regs, r, Open);
      CountAppend(s.regs, r, Removed);
      CountAppend(s.regs, r, Gone);
    } else if step.Insert? || step.Remove? {
      AllMoved(s, step.k, if step.Insert? then Inserted else Removed);
    } else {
      TallyKeptBySend(s, step);
    }
  }

  lemma TallyKeptBySend(s: State, step: Step)
    requires Tally(s) && Enabled(s, step) && (step.SendOpened? || step.SendClosed?)
    ensures Tally(Apply(s, step))
  {
    var t, to := Apply(s, step), if step.SendOpened? then Open else Gone;
    var e := if step.SendOpened? then Opened(step.k) else Closed(step.k);
    assert t == Moved(s, step.k, to).(sent := s.sent + [e]);
    AllMoved(s, step.k, to);
    SentAppend(s.sent, e);
  }

  predicate MovedCount(s: State, k: nat, to: Phase, p: Phase)
    requires k < |s.regs|
  {
    Count(Moved(s, k, to).regs, p)
    == Count(s.regs, p) - (if s.regs[k].phase == p then 1 else 0) + (if to == p then 1 else 0)
  }

  lemma AllMoved(s: State, k: nat, to: Phase)
    requires k < |s.regs|
    ensures MovedCount(s, k, to, Inserted) && MovedCount(s, k, to, Open)
    ensures MovedCount(s, k, to, Removed) && MovedCount(s, k, to, Gone)
  {
    var r := s.regs[k].(phase := to);
    CountUpdate(s.regs, k, r, Inserted);
    CountUpdate(s.regs, k, r, Open);
    CountUpdate(s.regs, k, r, Removed);
    CountUpdate(s.regs, k, r, Gone);
  }

  lemma BooksKept(s: State, step: Step)
    requires Books(s) && DistinctIds(s.regs) && Enabled(s, step)
    ensures Books(Apply(s, step))
  {
    MapKept(s, step);
    EventsKept(s, step);
    if !step.FetchAdd? {
      ListedIff(s, step.k);
    }
    SizeKept(s, step);
    TallyKept(s, step);
  }

  lemma NextDrawn(k: nat)
    ensures (IdAt(1, k) + 1) % WRAP == IdAt(1, k + 1)
  {
    var n := 1 + k;
    assert (n % WRAP + 1) % WRAP == (n + 1) % WRAP;
  }

  lemma IdsDrawnKept(s: State, step: Step)
    requires IdsDrawn(s) && Enabled(s, step)
    ensures IdsDrawn(Apply(s, step))
  {
    NextDrawn(|s.regs|);
  }

  lemma StepKeeps(s: State, step: Step)
    requires Inv(s) && Enabled(s, step) && |Apply(s, step).regs| <= WRAP
    ensures Inv(Apply(s, step))
  {
    IdsUnique(s);
    IdsDrawnKept(s, step);
    BooksKept(s, step);
  }

  lemma {:induction false} RegistrationsGrow(s: State, steps: seq<Step>)
    requires Runs(s, steps)
    ensures |s.regs| <= |Final(s, steps).regs|
    decreases |steps|
  {
    if steps != [] {
      RegistrationsGrow(Apply(s, steps[0]), steps[1..]);
    }
  }

  lemma {:induction false} RunKeeps(s: State, steps: seq<Step>)
    requires Inv(s) && Runs(s, steps) && |Final(s, steps).regs| <= WRAP
    ensures Inv(Final(s, steps))
    decreases |steps|
  {
    if steps != [] {
      RegistrationsGrow(Apply(s, steps[0]), steps[1..]);
      StepKeeps(s, steps[0]);
      RunKeeps(Apply(s, steps[0]), steps[1..]);
    }
  }

  /** After every interleaving that draws at most 2^64 ids: the table's keys are exactly
      the ids of the inserted and not yet removed connections, no two connections share
      an id, and each connection's close event was sent after its open event. */
  lemma RegistryExact(steps: seq<Step>)
    requires Runs(INITIAL, steps) && |Final(INITIAL, steps).regs| <= WRAP
    ensures var s := Final(INITIAL, steps);
      MapMatches(s) && DistinctIds(s.regs) && OpenedFirst(s.sent)
  {
    EmptyInv();
    RunKeeps(INITIAL, steps);
    IdsUnique(Final(INITIAL, steps));
  }

  /** The account of events and entries at every moment of every interleaving: what is
      listed but not announced, and what is announced as open but no longer listed, make
      up the difference; so close events never outnumber open events, and once no call is
      under way the difference of the two is the number `len` reports. */
  lemma EventsAccountForLen(steps: seq<Step>)
    requires Runs(INITIAL, steps) && |Final(INITIAL, steps).regs| <= WRAP
    ensures var s := Final(INITIAL, steps);
      && Closes(s.sent) <= Opens(s.sent)
      && Opens(s.sent) - Closes(s.sent) + Count(s.regs, Inserted) == |s.active| + Count(s.regs, Removed)
      && ((forall k :: 0 <= k < |s.regs| ==> s.regs[k].phase == Open || s.regs[k].phase == Gone) ==>
            Opens(s.sent) - Closes(s.sent) == |s.active|)
  {
    EmptyInv();
    RunKeeps(INITIAL, steps);
    var s := Final(INITIAL, steps);
    if forall k :: 0 <= k < |s.regs| ==> s.regs[k].phase == Open || s.regs[k].phase == Gone {
      NoneCounted(s.regs, Inserted);
      NoneCounted(s.regs, Removed);
    }
  }

  lemma {:induction false} NoneCounted(regs: seq<Registration>, p: Phase)
    requires forall k :: 0 <= k < |regs| ==> regs[k].phase != p
    ensures Count(regs, p) == 0
  {
    if regs != [] {
      NoneCounted(regs[..|regs| - 1], p);
    }
  }

  lemma EmptyInv()
    ensures Inv(INITIAL)
  {
  }

  /** The registry object. Its methods take the atomic steps above, one field update each;
      the ghost fields record what was passed to the state channel, and the registrations. */
  class ConnectionRegistry {
    var nextId: nat
    var active: map<nat, Connection>
    ghost var sent: seq<Event>
    ghost var regs: seq<Registration>

    ghost function Value(): State
      reads this
    {
      State(regs, nextId, active, sent)
    }

    constructor ()
      ensures Value() == INITIAL
    {
      nextId, active, sent, regs := 1, map[], [], [];
    }

    /** `fetch_add`, `insert` and `send`, uninterrupted. `id` is what the guard keeps. */
    method Register(info: Connection) returns (id: nat, ghost k: nat)
      requires Inv(Value()) && |regs| < WRAP
      modifies this
      ensures Inv(Value()) && k == |old(regs)| && InPhase(Value(), k, Open) && regs[k].id == id
      ensures Runs(old(Value()), [FetchAdd(info), Insert(k), SendOpened(k)])
      ensures Value() == Final(old(Value()), [FetchAdd(info), Insert(k), SendOpened(k)])
      ensures active == old(active)[id := info] && id !in old(active) && sent == old(sent) + [Opened(k)]
      ensures |regs| == |old(regs)| + 1
    {
      ghost var s0 := Value();
      k := |regs|;
      id := nextId;
      nextId := (nextId + 1) % WRAP;
      regs := regs + [Registration(id, info, Allocated)];
      ghost var s1 := Apply(s0, FetchAdd(info));
      assert Value() == s1;
      active := active[id := info];
      regs := regs[k := regs[k].(phase := Inserted)];
      ghost var s2 := Apply(s1, Insert(k));
      assert Value() == s2;
      sent := sent + [Opened(k)];
      regs := regs[k := regs[k].(phase := Open)];
      assert Value() == Apply(s2, SendOpened(k));
      RegistrationSteps(s0, info);
    }

    /** `ActiveConnGuard::drop` */
    method DropGuard(id: nat, ghost k: nat)
      requires Inv(Value()) && InPhase(Value(), k, Open) && regs[k].id == id
      modifies this
      ensures Inv(Value()) && InPhase(Value(), k, Gone) && nextId == old(nextId)
      ensures Runs(old(Value()), [Remove(k), SendClosed(k)])
      ensures Value() == Final(old(Value()), [Remove(k), SendClosed(k)])
      ensures active == old(active) - {id} && sent == old(sent) + [Closed(k)]
    {
      ghost var s0 := Value();
      active := active - {id};
      regs := regs[k := regs[k].(phase := Removed)];
      ghost var s1 := Apply(s0, Remove(k));
      assert Value() == s1;
      sent := sent + [Closed(k)];
      regs := regs[k := regs[k].(phase := Gone)];
      assert Value() == Apply(s1, SendClosed(k));
      TeardownSteps(s0, k);
    }

    /** `snapshot`: one row for each entry, in no particular order. */
    method Snapshot() returns (rows: seq<(nat, Connection)>)
      ensures |rows| == |active|
      ensures forall i :: 0 <= i < |rows| ==> rows[i].0 in active && rows[i].1 == active[rows[i].0]
      ensures forall id :: id in active ==> (id, active[id]) in rows
    {
      var left := active.Keys;
      rows := [];
      while left != {}
        invariant left <= active.Keys && |rows| + |left| == |active.Keys|
        invariant forall i :: 0 <= i < |rows| ==> rows[i].0 in active && rows[i].1 == active[rows[i].0]
        invariant forall id :: id in active && id !in left ==> (id, active[id]) in rows
        decreases |left|
      {
        var id :| id in left;
        left := left - {id};
        rows := rows + [(id, active[id])];
      }
    }
  }

  lemma TwoSteps(s: State, a: Step, b: Step)
    requires Enabled(s, a) && Enabled(Apply(s, a), b)
    ensures Runs(s, [a, b]) && Final(s, [a, b]) == Apply(Apply(s, a), b)
  {
    var s1 := Apply(s, a);
    assert [a, b][1..] == [b] && [b][1..] == [];
    assert Runs(Apply(s1, b), []);
    assert Runs(s1, [b]) && Final(s1, [b]) == Apply(s1, b);
  }

  lemma ThreeSteps(s: State, a: Step, b: Step, c: Step)
    requires Enabled(s, a) && Enabled(Apply(s, a), b) && Enabled(Apply(Apply(s, a), b), c)
    ensures Runs(s, [a, b, c]) && Final(s, [a, b, c]) == Apply(Apply(Apply(s, a), b), c)
  {
    assert [a, b, c][1..] == [b, c];
    TwoSteps(Apply(s, a), b, c);
  }

  lemma NextIdIsFree(s: State)
    requires Inv(s) && |s.regs| < WRAP
    ensures s.nextId !in s.active
  {
    if s.nextId in s.active {
      var k :| 0 <= k < |s.regs| && Live(s.regs[k].phase) && s.regs[k].id == s.nextId;
      IdsDiffer(1, k, |s.regs|);
      assert false;
    }
  }

  lemma RegistrationSteps(s: State, info: Connection)
    requires Inv(s) && |s.regs| < WRAP
    ensures var k := |s.regs|; var steps := [FetchAdd(info), Insert(k), SendOpened(k)];
      && Enabled(s, FetchAdd(info)) && Enabled(Apply(s, FetchAdd(info)), Insert(k))
      && Enabled(Apply(Apply(s, FetchAdd(info)), Insert(k)), SendOpened(k))
      && Runs(s, steps)
      && Final(s, steps) == Apply(Apply(Apply(s, FetchAdd(info)), Insert(k)), SendOpened(k))
      && Inv(Final(s, steps)) && s.nextId !in s.active
  {
    var k := |s.regs|;
    NextIdIsFree(s);
    ThreeSteps(s, FetchAdd(info), Insert(k), SendOpened(k));
    RunKeeps(s, [FetchAdd(info), Insert(k), SendOpened(k)]);
  }

  lemma TeardownSteps(s: State, k: nat)
    requires Inv(s) && InPhase(s, k, Open)
    ensures var steps := [Remove(k), SendClosed(k)];
      && Enabled(Apply(s, Remove(k)), SendClosed(k)) && Runs(s, steps)
      && Final(s, steps) == Apply(Apply(s, Remove(k)), SendClosed(k))
      && Inv(Final(s, steps))
  {
    TwoSteps(s, Remove(k), SendClosed(k));
    RunKeeps(s, [Remove(k), SendClosed(k)]);
  }
}
