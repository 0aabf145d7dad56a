/** `src/daemon/control_plane.rs`: the fan-out of state events to the peers of the control
    socket, with peers being accepted and leaving at any point of a round. */
module ControlPeers {
  import opened Wrappers
  import opened IdCounter

  /** An accepted control connection. `joined` is the next round to take its snapshot when
      the peer was put on the table. `tried` and `got` list the rounds in which a signal
      was sent to it and accepted by it; `left` is the number of rounds begun when it
      first failed or its monitor took it off the table. */
  datatype Peer = Peer(
    id: nat, listed: bool, failed: bool, joined: Option<nat>, left: Option<nat>, tried: seq<nat>, got: seq<nat>)

  /** Where the fan-out task is. `todo` is what remains of its snapshot. */
  datatype Fanout =
    | Idle
    | Received
    | Sending(todo: map<nat, nat>, failedIds: set<nat>)

  /** `log` is everything sent on the state channel, `rounds` how much of it the fan-out
      has received; `table` maps peer ids to connections, named in order of acceptance. */
  datatype State = State(log: seq<string>, rounds: nat, peers: seq<Peer>, table: map<nat, nat>, fanout: Fanout)

  const INITIAL := State([], 0, [], map[], Idle)

  datatype Step =
    | Emit(reason: string)
    | Accept
    | InsertPeer(p: nat)
    | MonitorRemoves(p: nat)
    | Receive
    | Snapshot
    | Send(id: nat, accepted: bool)
    | EndRound

  predicate Enabled(s: State, step: Step) {
    match step
    case Emit(_) => true
    case Accept => true
    case InsertPeer(p) => p < |s.peers| && !s.peers[p].listed
    case MonitorRemoves(p) => p < |s.peers| && s.peers[p].listed
    case Receive => s.fanout == Idle && s.rounds < |s.log|
    case Snapshot => s.fanout == Received
    case Send(id, _) => s.fanout.Sending? && id in s.fanout.todo && s.fanout.todo[id] < |s.peers| && s.rounds > 0
    case EndRound => s.fanout.Sending? && s.fanout.todo == map[]
  }

  function Leaves(peer: Peer, rounds: nat): Peer {
    if peer.left.Some? then peer else peer.(left := Some(rounds))
  }

  function Sent(peer: Peer, round: nat, accepted: bool): Peer {
    if accepted then peer.(tried := peer.tried + [round], got := peer.got + [round])
    else Leaves(peer.(tried := peer.tried + [round], failed := true), round + 1)
  }

  function Apply(s: State, step: Step): State
    requires Enabled(s, step)
  {
    match step
    case Emit(reason) => s.(log := s.log + [reason])
    case Accept => s.(peers := s.peers + [Peer(IdAt(1, |s.peers|), false, false, None, None, [], [])])
    case InsertPeer(p) =>
      var next := if s.fanout == Received && s.rounds > 0 then s.rounds - 1 else s.rounds;
      s.(peers := s.peers[p := s.peers[p].(listed := true, joined := Some(next))], table := s.table[s.peers[p].id := p])
    case MonitorRemoves(p) =>
      s.(peers := s.peers[p := Leaves(s.peers[p], s.rounds)], table := s.table - {s.peers[p].id})
    case Receive => s.(rounds := s.rounds + 1, fanout := Received)
    case Snapshot => s.(fanout := if s.table == map[] then Idle else Sending(s.table, {}))
    case Send(id, accepted) =>
      var p := s.fanout.todo[id];
      s.(peers := s.peers[p := Sent(s.peers[p], s.rounds - 1, accepted)],
         fanout := Sending(s.fanout.todo - {id}, if accepted then s.fanout.failedIds else s.fanout.failedIds + {id}))
    case EndRound => s.(table := s.table - s.fanout.failedIds, fanout := Idle)
  }

  predicate Runs(s: State, steps: seq<Step>)
    decreases |steps|
  {
    steps == [] || (Enabled(s, steps[0]) && Runs(Apply(s, steps[0]), steps[1..]))
  }

  function Final(s: State, steps: seq<Step>): State
    requires Runs(s, steps)
    decreases |steps|
  {
    if steps == [] then s else Final(Apply(s, steps[0]), steps[1..])
  }

  // ----- Invariants -----

  predicate InTable(s: State, p: nat) {
    p < |s.peers| && s.peers[p].id in s.table && s.table[s.peers[p].id] == p
  }

  predicate InTodo(s: State, p: nat) {
    p < |s.peers| && s.fanout.Sending? && s.peers[p].id in s.fanout.todo && s.fanout.todo[s.peers[p].id] == p
  }

  predicate InFailedIds(s: State, p: nat)
    requires p < |s.peers|
  {
    s.fanout.Sending? && s.peers[p].id in s.fanout.failedIds
  }

  predicate Consecutive(rounds: seq<nat>) {
    forall i :: 0 <= i < |rounds| ==> rounds[i] == rounds[0] + i
  }

  /** The round in which a peer of the table is due next. */
  function NextRound(s: State, p: nat): int
    requires p < |s.peers|
  {
    if s.fanout == Received || InTodo(s, p) then s.rounds - 1 else s.rounds
  }

  /** A peer's own record: one round after another, only the last one possibly failed, and
      none from the round it left on. */
  predicate RecordInv(peer: Peer, rounds: nat) {
    && Consecutive(peer.tried)
    && (if peer.failed then peer.tried != [] && peer.got == peer.tried[..|peer.tried| - 1] else peer.got == peer.tried)
    && (forall i :: 0 <= i < |peer.tried| ==> peer.tried[i] < rounds)
    && (peer.failed ==> peer.left.Some?)
    && (peer.left.Some? ==>
          peer.left.value <= rounds && forall i :: 0 <= i < |peer.tried| ==> peer.tried[i] < peer.left.value)
  }

  /** Where a peer can be: due next in the table or the snapshot, or in neither for good. */
  predicate PlaceInv(s: State, p: nat)
    requires p < |s.peers|
  {
    var peer := s.peers[p];
    && (!peer.listed ==> !InTable(s, p) && !InTodo(s, p) && peer.tried == [] && peer.left == None)
    && (InTable(s, p) || InTodo(s, p) ==> peer.tried == [] || peer.tried[|peer.tried| - 1] + 1 == NextRound(s, p))
    && (InTodo(s, p) ==> !peer.failed)
    && (peer.left.Some? ==>
          (InTable(s, p) ==> InFailedIds(s, p)) && (InTodo(s, p) ==> s.rounds - 1 < peer.left.value))
    && (InFailedIds(s, p) ==> !InTodo(s, p) && peer.failed)
  }

  predicate PeerInv(s: State, p: nat)
    requires p < |s.peers|
  {
    RecordInv(s.peers[p], s.rounds) && PlaceInv(s, p)
  }

  predicate Names(s: State, m: map<nat, nat>) {
    forall id :: id in m ==> m[id] < |s.peers| && s.peers[m[id]].id == id
  }

  predicate Known(s: State, id: nat) {
    exists p :: 0 <= p < |s.peers| && s.peers[p].id == id
  }

  predicate TableInv(s: State) {
    && Names(s, s.table)
    && (s.fanout.Sending? ==> Names(s, s.fanout.todo))
    && (s.fanout.Sending? ==> forall id :: id in s.fanout.failedIds ==> Known(s, id))
    && (s.fanout != Idle ==> s.rounds > 0)
    && s.rounds <= |s.log|
  }

  predicate IdsDrawn(s: State) {
    forall p :: 0 <= p < |s.peers| ==> s.peers[p].id == IdAt(1, p)
  }

  predicate DistinctIds(s: State) {
    forall p, q :: 0 <= p < q < |s.peers| ==> s.peers[p].id != s.peers[q].id
  }

  predicate PeersInv(s: State) {
    forall p :: 0 <= p < |s.peers| ==> PeerInv(s, p)
  }

  lemma TableKept(s: State, step: Step)
    requires TableInv(s) && Enabled(s, step)
    ensures TableInv(Apply(s, step))
  {
    var t := Apply(s, step);
    assert forall p :: 0 <= p < |s.peers| ==> t.peers[p].id == s.peers[p].id;
    forall id | Known(s, id) ensures Known(t, id) {
      var p :| 0 <= p < |s.peers| && s.peers[p].id == id;
      assert t.peers[p].id == id;
    }
    if step.Send? {
      var q := s.fanout.todo[step.id];
      assert s.peers[q].id == step.id;
    }
  }

  lemma ConsecutiveAppend(rounds: seq<nat>, r: nat)
    requires Consecutive(rounds) && (rounds == [] || rounds[|rounds| - 1] + 1 == r)
    ensures Consecutive(rounds + [r])
  {
    if rounds != [] {
      assert rounds[|rounds| - 1] == rounds[0] + (|rounds| - 1);
    }
  }

  lemma OtherKeptBySend(s: State, id: nat, accepted: bool, p: nat)
    requires TableInv(s) && p < |s.peers| && PeerInv(s, p) && Enabled(s, Send(id, accepted)) && s.peers[p].id != id
    ensures PeerInv(Apply(s, Send(id, accepted)), p)
  {
    var t := Apply(s, Send(id, accepted));
    assert t.peers[p] == s.peers[p];
    assert InTodo(t, p) == InTodo(s, p) && InFailedIds(t, p) == InFailedIds(s, p) && InTable(t, p) == InTable(s, p);
  }

  lemma SentRecorded(peer: Peer, round: nat, rounds: nat, accepted: bool)
    requires RecordInv(peer, rounds) && !peer.failed && round + 1 == rounds
    requires peer.tried == [] || peer.tried[|peer.tried| - 1] + 1 == round
    requires peer.left.Some? ==> round < peer.left.value
    ensures RecordInv(Sent(peer, round, accepted), rounds)
  {
    ConsecutiveAppend(peer.tried, round);
    assert (peer.tried + [round])[..|peer.tried|] == peer.tried;
  }

  lemma SignalledPlaced(s: State, t: State, p: nat, accepted: bool)
    requires p < |s.peers| == |t.peers| && s.rounds == t.rounds > 0 && PlaceInv(s, p) && InTodo(s, p)
    requires t.peers[p] == Sent(s.peers[p], s.rounds - 1, accepted) && t.table == s.table && t.fanout.Sending?
    requires !InTodo(t, p) && InFailedIds(t, p) == !accepted
    ensures PlaceInv(t, p)
  {
    assert InTable(t, p) == InTable(s, p);
  }

  lemma SignalledKept(s: State, t: State, p: nat, accepted: bool)
    requires p < |s.peers| == |t.peers| && s.rounds == t.rounds > 0 && PeerInv(s, p) && InTodo(s, p)
    requires t.peers[p] == Sent(s.peers[p], s.rounds - 1, accepted) && t.table == s.table && t.fanout.Sending?
    requires !InTodo(t, p) && InFailedIds(t, p) == !accepted
    ensures PeerInv(t, p)
  {
    SentRecorded(s.peers[p], s.rounds - 1, s.rounds, accepted);
    SignalledPlaced(s, t, p, accepted);
  }

  lemma PeerKeptBySend(s: State, id: nat, accepted: bool, p: nat)
    requires TableInv(s) && DistinctIds(s) && p < |s.peers| && PeerInv(s, p) && Enabled(s, Send(id, accepted))
    ensures p < |Apply(s, Send(id, accepted)).peers| && PeerInv(Apply(s, Send(id, accepted)), p)
  {
    var q := s.fanout.todo[id];
    assert s.peers[q].id == id;
    if p == q {
      SignalledKept(s, Apply(s, Send(id, accepted)), p, accepted);
    } else {
      assert s.peers[p].id != id;
      OtherKeptBySend(s, id, accepted, p);
    }
  }

  lemma PeerKept(s: State, step: Step, p: nat)
    requires TableInv(s) && DistinctIds(s) && p < |s.peers| && PeerInv(s, p) && Enabled(s, step)
    ensures p < |Apply(s, step).peers| && PeerInv(Apply(s, step), p)
  {
    if step.Send? {
      PeerKeptBySend(s, step.id, step.accepted, p);
    } else if step.InsertPeer? || step.MonitorRemoves? {
      PeerKeptByTable(s, step, p);
    } else {
      PeerKeptByRound(s, step, p);
    }
  }

  lemma PeerKeptByTable(s: State, step: Step, p: nat)
    requires TableInv(s) && DistinctIds(s) && p < |s.peers| && PeerInv(s, p) && Enabled(s, step)
    requires step.InsertPeer? || step.MonitorRemoves?
    ensures PeerInv(Apply(s, step), p)
  {
    if step.p != p {
      assert s.peers[step.p].id != s.peers[p].id;
    }
  }

  lemma PeerKeptByRound(s: State, step: Step, p: nat)
    requires TableInv(s) && DistinctIds(s) && p < |s.peers| && PeerInv(s, p) && Enabled(s, step)
    requires !step.Send? && !step.InsertPeer? && !step.MonitorRemoves?
    ensures p < |Apply(s, step).peers| && PeerInv(Apply(s, step), p)
  {
  }

  /** What a listed peer has been sent so far: everything from the round it joined on. */
  predicate JoinInv(s: State, p: nat)
    requires p < |s.peers|
  {
    var peer := s.peers[p];
    && (peer.listed <==> peer.joined.Some?)
    && (peer.listed && peer.left == None ==> InTable(s, p))
    && (peer.listed && (InTable(s, p) || InTodo(s, p)) ==> peer.joined.value + |peer.tried| == NextRound(s, p))
    && (peer.listed && peer.left.Some? && !InTodo(s, p) ==>
          peer.joined.value + |peer.tried| <= peer.left.value <= peer.joined.value + |peer.tried| + 1)
    && (peer.listed && peer.tried != [] ==> peer.tried[0] == peer.joined.value)
  }

  predicate JoinsInv(s: State) {
    forall p :: 0 <= p < |s.peers| ==> JoinInv(s, p)
  }

  lemma JoinKeptBySend(s: State, id: nat, accepted: bool, p: nat)
    requires TableInv(s) && DistinctIds(s) && p < |s.peers| && PeerInv(s, p) && JoinInv(s, p) && Enabled(s, Send(id, accepted))
    ensures JoinInv(Apply(s, Send(id, accepted)), p)
  {
    var q, t := s.fanout.todo[id], Apply(s, Send(id, accepted));
    assert s.peers[q].id == id;
    if p == q {
      assert InTodo(s, p) && !InTodo(t, p) && InTable(t, p) == InTable(s, p);
    } else {
      assert s.peers[p].id != id && t.peers[p] == s.peers[p];
      assert InTodo(t, p) == InTodo(s, p) && InTable(t, p) == InTable(s, p);
    }
  }

  lemma JoinKeptByTable(s: State, step: Step, p: nat)
    requires TableInv(s) && DistinctIds(s) && p < |s.peers| && PeerInv(s, p) && JoinInv(s, p) && Enabled(s, step)
    requires step.InsertPeer? || step.MonitorRemoves?
    ensures JoinInv(Apply(s, step), p)
  {
    if step.p != p {
      assert s.peers[step.p].id != s.peers[p].id;
    }
  }

  lemma JoinKept(s: State, step: Step, p: nat)
    requires TableInv(s) && DistinctIds(s) && p < |s.peers| && PeerInv(s, p) && JoinInv(s, p) && Enabled(s, step)
    ensures p < |Apply(s, step).peers| && JoinInv(Apply(s, step), p)
  {
    if step.Send? {
      JoinKeptBySend(s, step.id, step.accepted, p);
    } else if step.InsertPeer? || step.MonitorRemoves? {
      JoinKeptByTable(s, step, p);
    }
  }

  ghost predicate Inv(s: State) {
    TableInv(s) && IdsDrawn(s) && PeersInv(s) && JoinsInv(s)
  }

  lemma IdsUnique(s: State)
    requires IdsDrawn(s) && |s.peers| <= WRAP
    ensures DistinctIds(s)
  {
    DistinctIff(1, |s.peers|);
  }

  lemma StepKeeps(s: State, step: Step)
    requires Inv(s) && Enabled(s, step) && |Apply(s, step).peers| <= WRAP
    ensures Inv(Apply(s, step))
  {
    var t := Apply(s, step);
    TableKept(s, step);
    IdsUnique(t);
    assert DistinctIds(s) by { IdsUnique(s); }
    forall p | 0 <= p < |t.peers| ensures PeerInv(t, p) && JoinInv(t, p) {
      if p < |s.peers| {
        PeerKept(s, step, p);
        JoinKept(s, step, p);
      } else {
        assert forall q :: 0 <= q < |s.peers| ==> t.peers[q] == s.peers[q] && t.peers[q].id != t.peers[p].id;
      }
    }
  }

  lemma {:induction false} PeersGrow(s: State, steps: seq<Step>)
    requires Runs(s, steps)
    ensures |s.peers| <= |Final(s, steps).peers|
    decreases |steps|
  {
    if steps != [] {
      PeersGrow(Apply(s, steps[0]), steps[1..]);
    }
  }

  lemma {:induction false} RunKeeps(s: State, steps: seq<Step>)
    requires Inv(s) && Runs(s, steps) && |Final(s, steps).peers| <= WRAP
    ensures Inv(Final(s, steps))
    decreases |steps|
  {
    if steps != [] {
      PeersGrow(Apply(s, steps[0]), steps[1..]);
      StepKeeps(s, steps[0]);
      RunKeeps(Apply(s, steps[0]), steps[1..]);
    }
  }

  /** The state events a peer received, in the order it received them. */
  function Delivered(log: seq<string>, rounds: seq<nat>): seq<string>
    requires forall i :: 0 <= i < |rounds| ==> rounds[i] < |log|
  {
    if rounds == [] then [] else Delivered(log, rounds[..|rounds| - 1]) + [log[rounds[|rounds| - 1]]]
  }

  lemma {:induction false} DeliveredBlock(log: seq<string>, rounds: seq<nat>)
    requires Consecutive(rounds) && forall i :: 0 <= i < |rounds| ==> rounds[i] < |log|
    ensures rounds != [] ==> rounds[0] + |rounds| <= |log| && Delivered(log, rounds) == log[rounds[0]..rounds[0] + |rounds|]
  {
    if rounds != [] {
      var n := |rounds| - 1;
      assert rounds[n] == rounds[0] + n;
      DeliveredBlock(log, rounds[..n]);
      if n > 0 {
        assert rounds[..n][0] == rounds[0];
        assert log[rounds[0]..rounds[0] + n] + [log[rounds[0] + n]] == log[rounds[0]..rounds[0] + n + 1];
      } else {
        assert Delivered(log, rounds[..0]) == [];
      }
    }
  }

  /** Whatever the interleaving (for at most 2^64 accepted connections): the events a peer
      received form one contiguous block of the event stream, in its order; it was sent
      one event per round, each round from its first to its last; only its last signal can
      have failed; and none was sent in a round after it failed or left. */
  lemma PeerSeesOneBlock(steps: seq<Step>, p: nat)
    requires Runs(INITIAL, steps) && p < |Final(INITIAL, steps).peers| <= WRAP
    ensures var s := Final(INITIAL, steps); var peer := s.peers[p];
      && Consecutive(peer.tried) && peer.got <= peer.tried && |peer.tried| <= |peer.got| + 1
      && (forall i :: 0 <= i < |peer.got| ==> peer.got[i] < |s.log|)
      && (peer.got != [] ==> peer.got[0] + |peer.got| <= |s.log|)
      && (peer.got != [] ==> Delivered(s.log, peer.got) == s.log[peer.got[0]..peer.got[0] + |peer.got|])
      && (peer.left.Some? ==> forall i :: 0 <= i < |peer.tried| ==> peer.tried[i] < peer.left.value)
  {
    RunKeeps(INITIAL, steps);
    var s := Final(INITIAL, steps);
    assert PeerInv(s, p);
    DeliveredBlock(s.log, s.peers[p].got);
  }

  /** The state events that were sent on the channel, in order. */
  function Emitted(steps: seq<Step>): seq<string> {
    if steps == [] then []
    else Emitted(steps[..|steps| - 1]) + (if steps[|steps| - 1].Emit? then [steps[|steps| - 1].reason] else [])
  }

  lemma {:induction false} LogIsEmitted(s: State, steps: seq<Step>, past: seq<Step>)
    requires Runs(s, steps) && s.log == Emitted(past)
    ensures Final(s, steps).log == Emitted(past + steps)
    decreases |steps|
  {
    if steps == [] {
      assert past + steps == past;
    } else {
      assert (past + [steps[0]])[..|past|] == past;
      assert past + [steps[0]] + steps[1..] == past + steps;
      LogIsEmitted(Apply(s, steps[0]), steps[1..], past + [steps[0]]);
    }
  }

  function Accepted(steps: seq<Step>): nat {
    if steps == [] then 0 else Accepted(steps[..|steps| - 1]) + (if steps[|steps| - 1] == Accept then 1 else 0)
  }

  predicate LifeTrace(s: State, past: seq<Step>, p: nat) {
    if p < |s.peers| then
      && (s.peers[p].listed <==> InsertPeer(p) in past)
      && (s.peers[p].left.Some? <==> MonitorRemoves(p) in past || s.peers[p].failed)
      && (MonitorRemoves(p) in past ==> InsertPeer(p) in past && !InTable(s, p))
    else InsertPeer(p) !in past && MonitorRemoves(p) !in past
  }

  lemma LifeTraceKept(s: State, step: Step, past: seq<Step>, p: nat)
    requires LifeTrace(s, past, p) && Enabled(s, step)
    ensures LifeTrace(Apply(s, step), past + [step], p)
  {
    assert forall x :: x in past + [step] <==> x in past || x == step;
  }

  lemma {:induction false} LifeTraceRuns(s: State, steps: seq<Step>, past: seq<Step>, p: nat)
    requires Runs(s, steps) && LifeTrace(s, past, p) && |s.peers| == Accepted(past)
    ensures LifeTrace(Final(s, steps), past + steps, p) && |Final(s, steps).peers| == Accepted(past + steps)
    decreases |steps|
  {
    if steps == [] {
      assert past + steps == past;
    } else {
      assert (past + [steps[0]])[..|past|] == past;
      LifeTraceKept(s, steps[0], past, p);
      LifeTraceRuns(Apply(s, steps[0]), steps[1..], past + [steps[0]], p);
      assert past + [steps[0]] + steps[1..] == past + steps;
    }
  }

  /** Over every run: each accepted connection is a peer; it is listed exactly once it was
      inserted; it counts as gone exactly if its monitor removed it or a signal failed; and
      one whose monitor removed it is off the table for good. */
  lemma PeerLife(steps: seq<Step>, p: nat)
    requires Runs(INITIAL, steps)
    ensures var s := Final(INITIAL, steps);
      && |s.peers| == Accepted(steps)
      && (p < |s.peers| ==>
            && (s.peers[p].listed <==> InsertPeer(p) in steps)
            && (s.peers[p].left.Some? <==> MonitorRemoves(p) in steps || s.peers[p].failed)
            && (MonitorRemoves(p) in steps ==> !InTable(s, p)))
  {
    LifeTraceRuns(INITIAL, steps, [], p);
    assert [] + steps == steps;
  }

  /** Nothing is missed: a peer that is listed and has neither failed nor left has received
      every state event from the round it joined on, up to the last round that has taken
      its snapshot or, if that round is still to reach it, the one before. A peer that has
      left was sent every one up to then, but for at most the last. */
  lemma PeerMissesNothing(steps: seq<Step>, p: nat)
    requires Runs(INITIAL, steps) && p < |Final(INITIAL, steps).peers| <= WRAP && Final(INITIAL, steps).peers[p].listed
    ensures var s := Final(INITIAL, steps); var peer := s.peers[p];
      && s.log == Emitted(steps) && peer.joined.Some?
      && (peer.left == None ==>
            && InTable(s, p) && peer.joined.value <= NextRound(s, p) <= |s.log|
            && (forall i :: 0 <= i < |peer.got| ==> peer.got[i] < |s.log|)
            && Delivered(s.log, peer.got) == Emitted(steps)[peer.joined.value..NextRound(s, p)])
      && (peer.left.Some? && !InTodo(s, p) ==>
            && (peer.tried != [] ==> peer.tried[0] == peer.joined.value)
            && |peer.tried| <= peer.left.value - peer.joined.value <= |peer.tried| + 1)
  {
    RunKeeps(INITIAL, steps);
    LogIsEmitted(INITIAL, steps, []);
    assert [] + steps == steps;
    var s := Final(INITIAL, steps);
    assert PeerInv(s, p) && JoinInv(s, p);
    DeliveredBlock(s.log, s.peers[p].got);
  }

  /** One round that nothing disturbs, whatever each peer answers: it tries every peer of the
      table and ends. */
  lemma RoundRuns(before: seq<Step>, accepts: set<nat>) returns (steps: seq<Step>)
    requires Runs(INITIAL, before) && |Final(INITIAL, before).peers| <= WRAP
    requires var s := Final(INITIAL, before); s.fanout == Idle && s.rounds < |s.log|
    ensures Runs(INITIAL, steps)
    ensures var s, t := Final(INITIAL, before), Final(INITIAL, steps);
      && t.fanout == Idle && t.rounds == s.rounds + 1 && t.log == s.log && |t.peers| == |s.peers|
      && forall p :: 0 <= p < |s.peers| && InTable(s, p) ==> Tried(s, t, p, accepts)
  {
    var s := Final(INITIAL, before);
    RunsAppend(INITIAL, before, Receive);
    steps := before + [Receive];
    RunsAppend(INITIAL, steps, Snapshot);
    steps := steps + [Snapshot];
    var t := Final(INITIAL, steps);
    if s.table != map[] {
      steps := SendsRun(steps, accepts);
      var u := Final(INITIAL, steps);
      RunsAppend(INITIAL, steps, EndRound);
      steps := steps + [EndRound];
      forall p | 0 <= p < |s.peers| && InTable(s, p) ensures Tried(s, Final(INITIAL, steps), p, accepts) {
        assert Signalled(t, u, p) && InTodo(t, p);
      }
    }
  }

  /** Signalled in the round, and still on the table exactly if it accepted. */
  predicate Tried(s: State, t: State, p: nat, accepts: set<nat>)
    requires p < |s.peers| == |t.peers|
  {
    && t.peers[p].tried == s.peers[p].tried + [s.rounds] && t.peers[p].listed == s.peers[p].listed
    && (InTable(t, p) <==> s.peers[p].id in accepts)
  }

  /** A peer that connects while the fan-out is idle receives the next event, and one that
      then disconnects is gone. */
  lemma NewPeerServed(before: seq<Step>, reason: string) returns (steps: seq<Step>)
    requires Runs(INITIAL, before) && |Final(INITIAL, before).peers| < WRAP
    requires var s := Final(INITIAL, before); s.fanout == Idle && s.rounds == |s.log|
    ensures Runs(INITIAL, steps)
    ensures var s, t := Final(INITIAL, before), Final(INITIAL, steps); var p := |s.peers|;
      && t.fanout == Idle && t.log == s.log + [reason] && t.rounds == |t.log|
      && |t.peers| == p + 1 && t.peers[p].tried == [s.rounds] && t.peers[p].left.Some? && !InTable(t, p)
  {
    var s := Final(INITIAL, before);
    var p := |s.peers|;
    RunsAppend(INITIAL, before, Accept);
    steps := before + [Accept];
    RunsAppend(INITIAL, steps, InsertPeer(p));
    steps := steps + [InsertPeer(p)];
    RunsAppend(INITIAL, steps, Emit(reason));
    steps := steps + [Emit(reason)];
    var u := Final(INITIAL, steps);
    assert InTable(u, p) && u.peers[p].tried == [];
    steps := RoundRuns(steps, {u.peers[p].id});
    RunsAppend(INITIAL, steps, MonitorRemoves(p));
    steps := steps + [MonitorRemoves(p)];
  }

  lemma {:induction false} RunsAppend(s: State, steps: seq<Step>, step: Step)
    requires Runs(s, steps) && Enabled(Final(s, steps), step)
    ensures Runs(s, steps + [step]) && Final(s, steps + [step]) == Apply(Final(s, steps), step)
    decreases |steps|
  {
    if steps == [] {
      assert [] + [step] == [step] && [step][1..] == [];
      assert Runs(Apply(s, step), []);
    } else {
      RunsAppend(Apply(s, steps[0]), steps[1..], step);
      assert (steps + [step])[1..] == steps[1..] + [step];
    }
  }

  predicate Signalled(s: State, t: State, p: nat)
    requires p < |s.peers| == |t.peers|
  {
    t.peers[p].id == s.peers[p].id && t.peers[p].listed == s.peers[p].listed
    && t.peers[p].tried == if InTodo(s, p) && !InTodo(t, p) then s.peers[p].tried + [s.rounds - 1] else s.peers[p].tried
  }

  lemma OneSend(s: State, id: nat, accepted: bool)
    requires TableInv(s) && DistinctIds(s) && Enabled(s, Send(id, accepted))
    ensures var t := Apply(s, Send(id, accepted));
      && t == s.(peers := t.peers, fanout := t.fanout) && |t.peers| == |s.peers|
      && t.fanout.Sending? && t.fanout.todo == s.fanout.todo - {id}
      && t.fanout.failedIds == s.fanout.failedIds + (if accepted then {} else {id})
      && (forall p :: 0 <= p < |s.peers| ==> Signalled(s, t, p) && (InTodo(t, p) ==> InTodo(s, p)))
  {
    assert s.peers[s.fanout.todo[id]].id == id;
  }

  /** `t` is `s` with all of its snapshot signalled. */
  predicate SendsDone(s: State, t: State, accepts: set<nat>) {
    && |t.peers| == |s.peers| && t == s.(peers := t.peers, fanout := t.fanout)
    && s.fanout.Sending? && t.fanout.Sending? && t.fanout.todo == map[]
    && t.fanout.failedIds == s.fanout.failedIds + (set id | id in s.fanout.todo && id !in accepts)
    && (forall p :: 0 <= p < |s.peers| ==> Signalled(s, t, p))
  }

  lemma OneSendMore(s: State, u: State, id: nat, accepts: set<nat>)
    requires TableInv(s) && DistinctIds(s) && Enabled(s, Send(id, id in accepts))
    requires SendsDone(Apply(s, Send(id, id in accepts)), u, accepts)
    ensures SendsDone(s, u, accepts)
  {
    var t := Apply(s, Send(id, id in accepts));
    OneSend(s, id, id in accepts);
    forall p | 0 <= p < |s.peers| ensures Signalled(s, u, p) {
      assert Signalled(s, t, p) && Signalled(t, u, p);
    }
  }

  lemma RunDistinct(steps: seq<Step>)
    requires Runs(INITIAL, steps) && |Final(INITIAL, steps).peers| <= WRAP
    ensures TableInv(Final(INITIAL, steps)) && DistinctIds(Final(INITIAL, steps))
  {
    RunKeeps(INITIAL, steps);
    IdsUnique(Final(INITIAL, steps));
  }

  lemma SendsRun(before: seq<Step>, accepts: set<nat>) returns (steps: seq<Step>)
    requires Runs(INITIAL, before) && |Final(INITIAL, before).peers| <= WRAP
    requires Final(INITIAL, before).fanout.Sending?
    ensures Runs(INITIAL, steps) && SendsDone(Final(INITIAL, before), Final(INITIAL, steps), accepts)
    decreases |Final(INITIAL, before).fanout.todo|
  {
    steps := before;
    var s := Final(INITIAL, before);
    if s.fanout.todo != map[] {
      RunDistinct(before);
      var id :| id in s.fanout.todo;
      RunsAppend(INITIAL, before, Send(id, id in accepts));
      assert s.fanout.todo.Keys == (s.fanout.todo - {id}).Keys + {id};
      steps := SendsRun(before + [Send(id, id in accepts)], accepts);
      OneSendMore(s, Final(INITIAL, steps), id, accepts);
    }
  }

  /** A failure or departure is remembered as first noted: the bound above never moves. */
  lemma {:induction false} LeftIsFinal(s: State, steps: seq<Step>, p: nat)
    requires Runs(s, steps) && p < |s.peers| && s.peers[p].left.Some?
    ensures p < |Final(s, steps).peers| && Final(s, steps).peers[p].left == s.peers[p].left
    decreases |steps|
  {
    if steps != [] {
      LeftIsFinal(Apply(s, steps[0]), steps[1..], p);
    }
  }

  /** No two control peers ever share an id, up to 2^64 accepted connections. */
  lemma PeerIdsNeverReused(steps: seq<Step>)
    requires Runs(INITIAL, steps) && |Final(INITIAL, steps).peers| <= WRAP
    ensures DistinctIds(Final(INITIAL, steps))
  {
    RunKeeps(INITIAL, steps);
    IdsUnique(Final(INITIAL, steps));
  }

  // ----- One round as the fan-out task runs it -----

  /** The peer table and what the task does with one state event when nothing comes
      between: signal every peer of the snapshot, collect the ids that failed, then take
      those off the table. `accepts` tells which peers take the signal. */
  class PeerTable {
    var peers: map<nat, nat>

    /** One signal to every peer of the snapshot; the ids of those that did not take it. */
    method SignalAll(snapshot: map<nat, nat>, accepts: set<nat>) returns (signalled: seq<nat>, failedIds: seq<nat>)
      ensures multiset(signalled) == multiset(snapshot.Keys)
      ensures forall id :: id in failedIds <==> id in snapshot && id !in accepts
    {
      signalled, failedIds := [], [];
      var todo := snapshot.Keys;
      while todo != {}
        invariant todo <= snapshot.Keys
        invariant multiset(signalled) + multiset(todo) == multiset(snapshot.Keys)
        invariant forall id :: id in failedIds <==> id in snapshot && id !in todo && id !in accepts
        decreases |todo|
      {
        var id :| id in todo;
        assert todo == (todo - {id}) + {id};
        todo := todo - {id};
        signalled := signalled + [id];
        if id !in accepts {
          failedIds := failedIds + [id];
        }
      }
    }

    method FanOut(accepts: set<nat>) returns (signalled: seq<nat>)
      modifies this
      ensures peers == map id | id in old(peers) && id in accepts :: old(peers)[id]
      ensures multiset(signalled) == multiset(old(peers).Keys)
    {
      var snapshot := peers;
      if snapshot == map[] {
        return [];
      }
      var failedIds: seq<nat>;
      signalled, failedIds := SignalAll(snapshot, accepts);
      for i := 0 to |failedIds|
        invariant peers == map id | id in snapshot && id !in failedIds[..i] :: snapshot[id]
      {
        peers := peers - {failedIds[i]};
        assert failedIds[..i + 1] == failedIds[..i] + [failedIds[i]];
      }
      assert failedIds[..|failedIds|] == failedIds;
    }
  }
}
