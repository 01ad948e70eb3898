/** Which datagrams a flow gets, what it does with them, and what the totals count. */
module FlowClaims {
  import opened Bytes
  import opened FlowTable

  /** The peer has a flow in the table whose task still receives and has room for one more. */
  predicate HasRoom(s: State, p: Peer)
  {
    && p in s.flows && s.flows[p] < |s.tasks|
    && s.tasks[s.flows[p]].phase in {Opening, Relaying, Failing} && |s.tasks[s.flows[p]].queue| < 256
  }

  /** A datagram that arrives at a running listener and is queued to its peer's flow, or opens one. */
  predicate Accepted(s: State, e: Event)
  {
    s.running && e.Arrive? && (HasRoom(s, e.peer) || Opens(s, e, e.peer))
  }

  // ------------------------------------------------------------------
  // One datagram
  // ------------------------------------------------------------------

  lemma OpenFlowTasks(s: State, peer: Peer, id: nat, blocked: bool, outcome: Opened)
    ensures var s' := OpenFlow(s, peer, id, blocked, outcome);
      && s'.received == s.received
      && s'.tasks == if |s.flows| < MAX_FLOWS && !blocked && outcome == Stream
                     then s.tasks + [Flow(peer, [id], [], [], 0, 0, Opening, false)] else s.tasks
  {
  }

  /** The flow has the datagram at the end of its queue. */
  function WithOneMore(f: Flow, id: nat): Flow
  {
    Flow(f.peer, f.queue + [id], f.taken, f.written, f.bytesIn, f.bytesOut, f.phase, f.counted)
  }

  lemma RoutedTasks(s: State, peer: Peer, id: nat, blocked: bool, outcome: Opened)
    requires TableOk(s)
    ensures var s' := Routed(s, peer, id, blocked, outcome);
      && s'.received == s.received
      && (HasRoom(s, peer) ==> s'.tasks == s.tasks[s.flows[peer] := WithOneMore(s.tasks[s.flows[peer]], id)])
      && (!HasRoom(s, peer) ==>
            s'.tasks == if Orphaned(s, peer) && |s.flows - {peer}| < MAX_FLOWS && !blocked && outcome == Stream
                        then s.tasks + [Flow(peer, [id], [], [], 0, 0, Opening, false)] else s.tasks)
  {
    if Orphaned(s, peer) {
      OpenFlowTasks(s, peer, id, blocked, outcome);
      OpenFlowTasks(s.(flows := s.flows - {peer}), peer, id, blocked, outcome);
      if peer !in s.flows {
        assert s.flows - {peer} == s.flows;
      }
    }
  }

  /** A datagram goes to the end of the queue of its peer's flow, or opens a flow with it as the only
      one waiting, or to no flow; and changes no other flow. */
  lemma ArrivalExactly(s: State, e: Event)
    requires e.Arrive? && s.running && TableOk(s)
    ensures var s' := Next(s, e); var id := |s.received|;
      && s'.received == s.received + [Datagram(e.peer, e.data)]
      && (HasRoom(s, e.peer) ==> s'.tasks == s.tasks[s.flows[e.peer] := WithOneMore(s.tasks[s.flows[e.peer]], id)])
      && (!HasRoom(s, e.peer) ==>
            s'.tasks == if Opens(s, e, e.peer) then s.tasks + [Flow(e.peer, [id], [], [], 0, 0, Opening, false)] else s.tasks)
  {
    var s1 := s.(received := s.received + [Datagram(e.peer, e.data)]);
    assert Orphaned(s1, e.peer) == Orphaned(s, e.peer) && HasRoom(s1, e.peer) == HasRoom(s, e.peer);
    RoutedTasks(s1, e.peer, |s.received|, e.blocked, e.outcome);
  }

  // ------------------------------------------------------------------
  // Over runs
  // ------------------------------------------------------------------

  ghost predicate IsClaimed(s: State, id: nat)
  {
    exists i :: 0 <= i < |s.tasks| && id in Claimed(s.tasks[i])
  }

  lemma ClaimedAfterSet(s: State, s': State, i: nat, f: Flow, added: seq<nat>, id: nat)
    requires i < |s.tasks| && s'.tasks == s.tasks[i := f] && Claimed(f) == Claimed(s.tasks[i]) + added
    ensures IsClaimed(s', id) <==> IsClaimed(s, id) || id in added
  {
    if IsClaimed(s, id) {
      var j :| 0 <= j < |s.tasks| && id in Claimed(s.tasks[j]);
      assert id in Claimed(s'.tasks[j]);
    }
    if id in added {
      assert id in Claimed(s'.tasks[i]);
    }
    if IsClaimed(s', id) {
      var j :| 0 <= j < |s'.tasks| && id in Claimed(s'.tasks[j]);
      assert j != i ==> id in Claimed(s.tasks[j]);
      assert j == i ==> id in Claimed(s.tasks[i]) || id in added;
    }
  }

  lemma ClaimedAfterAppend(s: State, s': State, f: Flow, id: nat)
    requires s'.tasks == s.tasks + [f]
    ensures IsClaimed(s', id) <==> IsClaimed(s, id) || id in Claimed(f)
  {
    if IsClaimed(s, id) {
      var j :| 0 <= j < |s.tasks| && id in Claimed(s.tasks[j]);
      assert id in Claimed(s'.tasks[j]);
    }
    if id in Claimed(f) {
      assert id in Claimed(s'.tasks[|s.tasks|]);
    }
    if IsClaimed(s', id) {
      var j :| 0 <= j < |s'.tasks| && id in Claimed(s'.tasks[j]);
      assert j < |s.tasks| ==> id in Claimed(s.tasks[j]);
    }
  }

  lemma OneMoreClaimed(f: Flow, id: nat)
    ensures Claimed(WithOneMore(f, id)) == Claimed(f) + [id]
  {
  }

  lemma ArrivalClaims(s: State, e: Event, id: nat)
    requires e.Arrive? && s.running && TableOk(s)
    ensures IsClaimed(Next(s, e), id) <==> IsClaimed(s, id) || (Accepted(s, e) && id == |s.received|)
  {
    ArrivalExactly(s, e);
    var s' := Next(s, e);
    if HasRoom(s, e.peer) {
      var i := s.flows[e.peer];
      OneMoreClaimed(s.tasks[i], |s.received|);
      ClaimedAfterSet(s, s', i, s'.tasks[i], [|s.received|], id);
    } else if Opens(s, e, e.peer) {
      var f := Flow(e.peer, [|s.received|], [], [], 0, 0, Opening, false);
      assert Claimed(f) == [|s.received|];
      ClaimedAfterAppend(s, s', f, id);
    }
  }

  lemma TurnClaims(s: State, i: nat, m: Move, id: nat)
    requires FlowsOk(s) && i < |s.tasks|
    ensures IsClaimed(Turned(s, i, m), id) <==> IsClaimed(s, id)
    ensures Turned(s, i, m).received == s.received
  {
    assert FlowOk(s.received, s.tasks[i]);
    MovedOk(s.received, s.tasks[i], m);
    var s' := Turned(s, i, m);
    if s'.tasks == s.tasks[i := Moved(s.received, s.tasks[i], m)] {
      assert Claimed(s.tasks[i]) + [] == Claimed(s.tasks[i]);
      ClaimedAfterSet(s, s', i, Moved(s.received, s.tasks[i], m), [], id);
    }
  }

  lemma StepClaims(s: State, e: Event, id: nat)
    requires TableOk(s) && FlowsOk(s)
    ensures IsClaimed(Next(s, e), id) <==> IsClaimed(s, id) || (Accepted(s, e) && id == |s.received|)
    ensures |Next(s, e).received| == |s.received| + (if s.running && e.Arrive? then 1 else 0)
  {
    if e.Arrive? && s.running {
      ArrivalClaims(s, e, id);
      ArrivalExactly(s, e);
    } else if e.Turn? && e.i < |s.tasks| {
      TurnClaims(s, e.i, e.move, id);
    }
  }

  lemma NotYetClaimed(s: State, id: nat)
    requires FlowsOk(s) && id >= |s.received|
    ensures !IsClaimed(s, id)
  {
    forall i | 0 <= i < |s.tasks|
      ensures id !in Claimed(s.tasks[i])
    {
      assert FlowOk(s.received, s.tasks[i]);
    }
  }

  /** In `s`, the datagram that `e` brought to `s0` is among the claims of a flow exactly if it was
      accepted then. */
  ghost predicate Decided(s0: State, e: Event, s: State)
  {
    |s0.received| < |s.received| && (IsClaimed(s, |s0.received|) <==> Accepted(s0, e))
  }

  lemma DecidedFirst(s: State, e: Event)
    requires TableOk(s) && FlowsOk(s) && e.Arrive? && s.running
    ensures Decided(s, e, Next(s, e))
  {
    StepClaims(s, e, |s.received|);
    NotYetClaimed(s, |s.received|);
  }

  lemma DecidedStays(s0: State, e: Event, s: State, later: Event)
    requires TableOk(s) && FlowsOk(s) && Decided(s0, e, s)
    ensures Decided(s0, e, Next(s, later))
  {
    StepClaims(s, later, |s0.received|);
  }

  lemma RunDecidedFirst(events: seq<Event>, e: Event)
    requires e.Arrive? && Run(events).running
    ensures Decided(Run(events), e, Run(events + [e]))
  {
    IsolationAndOrder(events);
    RunSnoc(events, e);
    DecidedFirst(Run(events), e);
  }

  lemma RunDecidedStays(s0: State, e: Event, events: seq<Event>, later: Event)
    requires Decided(s0, e, Run(events))
    ensures Decided(s0, e, Run(events + [later]))
  {
    IsolationAndOrder(events);
    RunSnoc(events, later);
    DecidedStays(s0, e, Run(events), later);
  }

  /** Over every run: the datagram of an event is among the claims of a flow exactly if its peer's flow
      was receiving with fewer than 256 waiting when it arrived, or it opened a flow. */
  lemma {:induction false} ClaimedIff(events: seq<Event>, e: Event, later: seq<Event>)
    requires e.Arrive? && Run(events).running
    ensures Decided(Run(events), e, Run(events + [e] + later))
  {
    if later == [] {
      assert events + [e] + later == events + [e];
      RunDecidedFirst(events, e);
    } else {
      var front := later[..|later| - 1];
      ClaimedIff(events, e, front);
      RunDecidedStays(Run(events), e, events + [e] + front, later[|later| - 1]);
      assert events + [e] + front + [later[|later| - 1]] == events + [e] + later;
    }
  }

  /** While a flow relays, every datagram it claimed is written or still waits, in order. */
  lemma NothingLost(events: seq<Event>, i: nat)
    requires i < |Run(events).tasks| && Run(events).tasks[i].phase in {Opening, Relaying, Failing}
    ensures var f := Run(events).tasks[i]; f.written + f.queue == Claimed(f)
  {
    IsolationAndOrder(events);
    assert FlowOk(Run(events).received, Run(events).tasks[i]);
  }

  // ------------------------------------------------------------------
  // Moves
  // ------------------------------------------------------------------

  /** The phase a move leads to. */
  predicate Leads(f: Flow, m: Move, phase: Phase)
  {
    phase ==
      if m == Preamble(true) && f.phase == Opening then Relaying
      else if m == Preamble(false) && f.phase == Opening then Failing
      else if (m == End || (m == Relay(false) && f.queue != [])) && f.phase == Relaying then Ended
      else if m == Report && f.phase == Ended then Reported
      else if m == Signal && f.phase in {Reported, Failing} then Gone
      else f.phase
  }

  /** A relay takes the first datagram that waits and writes it, unless the write fails; returned bytes
      are counted while relaying; nothing else touches either. */
  lemma MovesExactly(received: seq<Datagram>, f: Flow, m: Move)
    requires FlowOk(received, f)
    ensures var g := Moved(received, f, m); var relays := m.Relay? && f.phase == Relaying && f.queue != [];
      && g.peer == f.peer && Leads(f, m, g.phase)
      && g.queue == (if relays then f.queue[1..] else f.queue)
      && g.taken == (if relays then f.taken + [f.queue[0]] else f.taken)
      && g.written == (if relays && m.ok then f.written + [f.queue[0]] else f.written)
      && g.bytesOut == f.bytesOut + (if m.Return? && f.phase == Relaying then m.n else 0)
  {
    match f.phase case Opening => case Relaying => case Failing => case Ended => case Reported => case Gone =>
  }

  /** A turn moves its flow and no other. Only a report adds to the totals, the flow's own counters; only
      a signal goes into the channel, for which it waits while 64 are there. */
  lemma TurnsExactly(s: State, i: nat, m: Move)
    requires i < |s.tasks| && FlowsOk(s)
    ensures var s' := Turned(s, i, m); var f := s.tasks[i]; var signals := m == Signal && f.phase in {Reported, Failing};
      if signals && |s.closed| >= 64 then s' == s
      else
        && |s'.tasks| == |s.tasks| && (forall j :: 0 <= j < |s.tasks| && j != i ==> s'.tasks[j] == s.tasks[j])
        && Leads(f, m, s'.tasks[i].phase)
        && s'.closed == (if signals then s.closed + [f.peer] else s.closed)
        && s'.totalIn == s.totalIn + (if m == Report && f.phase == Ended then f.bytesIn else 0)
        && s'.totalOut == s.totalOut + (if m == Report && f.phase == Ended then f.bytesOut else 0)
        && s'.flows == s.flows && s'.received == s.received && s'.running == s.running
  {
    assert FlowOk(s.received, s.tasks[i]);
    MovesExactly(s.received, s.tasks[i], m);
  }

  // ------------------------------------------------------------------
  // Totals
  // ------------------------------------------------------------------

  /** A flow that has finished relaying and said so. */
  predicate Finished(f: Flow)
  {
    f.phase == Reported || f.phase == Gone
  }

  function BytesInOf(tasks: seq<Flow>): nat
  {
    if tasks == [] then 0
    else BytesInOf(tasks[..|tasks| - 1]) + (if Finished(tasks[|tasks| - 1]) then tasks[|tasks| - 1].bytesIn else 0)
  }

  function BytesOutOf(tasks: seq<Flow>): nat
  {
    if tasks == [] then 0
    else BytesOutOf(tasks[..|tasks| - 1]) + (if Finished(tasks[|tasks| - 1]) then tasks[|tasks| - 1].bytesOut else 0)
  }

  /** A flow that never relayed counted nothing; one that did is counted when it reports. */
  predicate CountOk(f: Flow)
  {
    && (f.phase in {Opening, Failing} ==> f.bytesIn == 0 && f.bytesOut == 0)
    && (f.phase in {Opening, Failing, Relaying, Ended} ==> !f.counted)
    && (f.phase == Reported ==> f.counted)
    && (f.phase == Gone && !f.counted ==> f.bytesIn == 0 && f.bytesOut == 0)
  }

  ghost predicate CountsOk(s: State)
  {
    forall i :: 0 <= i < |s.tasks| ==> CountOk(s.tasks[i])
  }

  lemma MoveCounts(received: seq<Datagram>, f: Flow, m: Move)
    requires CountOk(f)
    ensures CountOk(Moved(received, f, m))
  {
  }

  lemma ArrivalCounts(s: State, e: Event)
    requires TableOk(s) && CountsOk(s) && e.Arrive? && s.running
    ensures CountsOk(Next(s, e))
  {
    ArrivalExactly(s, e);
  }

  lemma StepCounts(s: State, e: Event)
    requires TableOk(s) && CountsOk(s)
    ensures CountsOk(Next(s, e))
  {
    if e.Arrive? && s.running {
      ArrivalCounts(s, e);
    } else if e.Turn? && e.i < |s.tasks| {
      MoveCounts(s.received, s.tasks[e.i], e.move);
    }
  }

  lemma {:induction false} RunCounts(events: seq<Event>)
    ensures CountsOk(Run(events))
  {
    if events != [] {
      var before := events[..|events| - 1];
      RunCounts(before);
      IsolationAndOrder(before);
      StepCounts(Run(before), events[|events| - 1]);
    }
  }

  lemma {:induction false} SumsAgree(tasks: seq<Flow>)
    requires forall i :: 0 <= i < |tasks| ==> CountOk(tasks[i])
    ensures SumIn(tasks) == BytesInOf(tasks) && SumOut(tasks) == BytesOutOf(tasks)
  {
    if tasks != [] {
      SumsAgree(tasks[..|tasks| - 1]);
    }
  }

  /** Over every run the totals are the byte counts of all flows that have finished, and of no other. */
  lemma TotalsOfFinished(events: seq<Event>)
    ensures Run(events).totalIn == BytesInOf(Run(events).tasks) && Run(events).totalOut == BytesOutOf(Run(events).tasks)
  {
    IsolationAndOrder(events);
    RunCounts(events);
    SumsAgree(Run(events).tasks);
  }
}
