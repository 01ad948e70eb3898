/** The UDP flow table of one dedicated route: a listener that keys flows on the client's source
    address, and one task a flow, in any interleaving. */
module FlowTable {
  import opened Bytes
  import opened History

  type Peer = string

  /** A task is opening its stream, relaying, on its way out after a failed preamble, done relaying,
      reported, or gone. */
  datatype Phase = Opening | Relaying | Failing | Ended | Reported | Gone

  /** Datagrams are named by their place in the order of arrival. */
  datatype Flow = Flow(peer: Peer, queue: seq<nat>, taken: seq<nat>, written: seq<nat>, bytesIn: nat, bytesOut: nat,
                       phase: Phase, counted: bool)
  {
    /** Whether the sender of the flow's queue still finds its receiver. */
    predicate Receiving() {
      phase.Opening? || phase.Relaying? || phase.Failing?
    }
  }

  datatype Datagram = Datagram(peer: Peer, data: seq<Byte>)

  /** `flows` names a task for each peer; `closed` is the channel of close signals. `senders` is
      history: the task that sent each signal, which the signal itself does not say. */
  datatype State = State(received: seq<Datagram>, flows: map<Peer, nat>, tasks: seq<Flow>, closed: seq<Peer>,
                         senders: seq<nat>, running: bool, totalIn: nat, totalOut: nat)

  const MAX_FLOWS := 4096

  const QUEUE := 256

  const SIGNALS := 64

  /** What opening a stream for a new flow comes to. */
  datatype Opened = Stream | NoStream | TunnelGone

  /** What a flow task does next. */
  datatype Move = Preamble(ok: bool) | Relay(ok: bool) | Return(n: nat) | End | Report | Signal

  datatype Event =
    | Arrive(peer: Peer, data: seq<Byte>, blocked: bool, outcome: Opened)
    | CloseSignal
    | Turn(i: nat, move: Move)

  // ------------------------------------------------------------------
  // Specification
  // ------------------------------------------------------------------

  function Init(): State
  {
    State([], map[], [], [], [], true, 0, 0)
  }

  function Set(s: State, i: nat, f: Flow): State
    requires i < |s.tasks|
  {
    s.(tasks := s.tasks[i := f])
  }

  function NewFlow(peer: Peer, id: nat): Flow
  {
    Flow(peer, [id], [], [], 0, 0, Opening, false)
  }

  /** A datagram with no flow to ride: open one, if the table has room and policy allows. */
  function OpenFlow(s: State, peer: Peer, id: nat, blocked: bool, outcome: Opened): State
  {
    if |s.flows| >= MAX_FLOWS || blocked then s
    else match outcome
      case TunnelGone => s.(running := false)
      case NoStream => s
      case Stream => s.(tasks := s.tasks + [NewFlow(peer, id)], flows := s.flows[peer := |s.tasks|])
  }

  function Arrived(s: State, peer: Peer, data: seq<Byte>, blocked: bool, outcome: Opened): State
  {
    Routed(s.(received := s.received + [Datagram(peer, data)]), peer, |s.received|, blocked, outcome)
  }

  /** Send datagram `id` to the flow of its peer, or to a new one. */
  function Routed(s: State, peer: Peer, id: nat, blocked: bool, outcome: Opened): State
  {
    if peer in s.flows && s.flows[peer] < |s.tasks| then
      var i := s.flows[peer];
      if s.tasks[i].Receiving() then
        if |s.tasks[i].queue| < QUEUE then Set(s, i, Queued(s.tasks[i], id)) else s
      else OpenFlow(s.(flows := s.flows - {peer}), peer, id, blocked, outcome)
    else OpenFlow(s, peer, id, blocked, outcome)
  }

  function Queued(f: Flow, id: nat): Flow
  {
    f.(queue := f.queue + [id])
  }

  /** One datagram taken off the queue, counted, and written. */
  function Relayed(received: seq<Datagram>, f: Flow, ok: bool): Flow
    requires f.queue != []
  {
    var id := f.queue[0];
    f.(queue := f.queue[1..], taken := f.taken + [id],
       bytesIn := f.bytesIn + (if id < |received| then |received[id].data| else 0),
       written := if ok then f.written + [id] else f.written,
       phase := if ok then Relaying else Ended)
  }

  /** One move of a flow; a move that is not enabled does nothing. */
  function Moved(received: seq<Datagram>, f: Flow, m: Move): Flow
  {
    match m
    case Preamble(ok) => if f.phase.Opening? then f.(phase := if ok then Relaying else Failing) else f
    case Relay(ok) => if f.phase.Relaying? && f.queue != [] then Relayed(received, f, ok) else f
    case Return(n) => if f.phase.Relaying? then f.(bytesOut := f.bytesOut + n) else f
    case End => if f.phase.Relaying? then f.(phase := Ended) else f
    case Report => if f.phase.Ended? then f.(phase := Reported, counted := true) else f
    case Signal => if f.phase.Reported? || f.phase.Failing? then f.(phase := Gone) else f
  }

  predicate Reports(f: Flow, m: Move)
  {
    m.Report? && f.phase.Ended?
  }

  predicate Signals(f: Flow, m: Move)
  {
    m.Signal? && (f.phase.Reported? || f.phase.Failing?)
  }

  function Turned(s: State, i: nat, m: Move): State
    requires i < |s.tasks|
  {
    var f := s.tasks[i];
    if Signals(f, m) && |s.closed| >= SIGNALS then s
    else
      s.(tasks := s.tasks[i := Moved(s.received, f, m)],
         closed := if Signals(f, m) then s.closed + [f.peer] else s.closed,
         senders := if Signals(f, m) then s.senders + [i] else s.senders,
         totalIn := s.totalIn + (if Reports(f, m) then f.bytesIn else 0),
         totalOut := s.totalOut + (if Reports(f, m) then f.bytesOut else 0))
  }

  /** One turn of the listener or of a flow. */
  function Next(s: State, e: Event): State
  {
    match e
    case Arrive(peer, data, blocked, outcome) => if s.running then Arrived(s, peer, data, blocked, outcome) else s
    case CloseSignal =>
      if s.running && s.closed != [] then
        s.(flows := s.flows - {s.closed[0]}, closed := s.closed[1..],
           senders := if s.senders == [] then [] else s.senders[1..])
      else s
    case Turn(i, m) => if i < |s.tasks| then Turned(s, i, m) else s
  }

  function Run(events: seq<Event>): State
  {
    if events == [] then Init() else Next(Run(events[..|events| - 1]), events[|events| - 1])
  }

  // ------------------------------------------------------------------
  // The listener and its flows
  // ------------------------------------------------------------------

  class Listener {
    var received: seq<Datagram>
    var flows: map<Peer, nat>
    var tasks: seq<Flow>
    var closed: seq<Peer>
    ghost var senders: seq<nat>
    var running: bool
    var totalIn: nat
    var totalOut: nat

    ghost function Contents(): State
      reads this
    {
      State(received, flows, tasks, closed, senders, running, totalIn, totalOut)
    }

    constructor ()
      ensures Contents() == Init()
    {
      received, flows, tasks, closed, running, totalIn, totalOut := [], map[], [], [], true, 0, 0;
      senders := [];
    }

    /** `udp_listener_loop` on one received datagram. */
    method OnDatagram(peer: Peer, data: seq<Byte>, blocked: bool, outcome: Opened)
      requires running
      modifies this
      ensures Contents() == Next(old(Contents()), Arrive(peer, data, blocked, outcome))
    {
      var id := |received|;
      received := received + [Datagram(peer, data)];
      if peer in flows && flows[peer] < |tasks| {
        var i := flows[peer];
        var f := tasks[i];
        if f.Receiving() {
          if |f.queue| < QUEUE {
            tasks := tasks[i := f.(queue := f.queue + [id])];
          }
          return;
        }
        flows := flows - {peer};
      }
      if |flows| >= MAX_FLOWS {
        return;
      }
      if blocked {
        return;
      }
      match outcome {
        case TunnelGone =>
          running := false;
        case NoStream =>
        case Stream =>
          flows := flows[peer := |tasks|];
          tasks := tasks + [NewFlow(peer, id)];
      }
    }

    /** `udp_listener_loop` on one close signal. */
    method OnClosed()
      requires running && closed != []
      modifies this
      ensures Contents() == Next(old(Contents()), CloseSignal)
    {
      flows := flows - {closed[0]};
      closed := closed[1..];
      senders := if senders == [] then [] else senders[1..];
    }

    /** One datagram of the downstream loop of `udp_flow`. */
    method RelayOne(i: nat, ok: bool)
      requires i < |tasks| && tasks[i].phase.Relaying? && tasks[i].queue != []
      modifies this
      ensures Contents() == Next(old(Contents()), Turn(i, Relay(ok)))
    {
      var f := tasks[i];
      var id := f.queue[0];
      f := f.(queue := f.queue[1..], taken := f.taken + [id]);
      if id < |received| {
        f := f.(bytesIn := f.bytesIn + |received[id].data|);
      }
      if ok {
        f := f.(written := f.written + [id]);
      } else {
        f := f.(phase := Ended);
      }
      tasks := tasks[i := f];
    }

    /** The end of `udp_flow`: add the counters, then signal. */
    method Finish(i: nat)
      requires i < |tasks| && tasks[i].phase.Ended? && |closed| < SIGNALS
      modifies this
      ensures Contents() == Next(Next(old(Contents()), Turn(i, Report)), Turn(i, Signal))
    {
      totalIn, totalOut := totalIn + tasks[i].bytesIn, totalOut + tasks[i].bytesOut;
      tasks := tasks[i := tasks[i].(phase := Reported, counted := true)];
      closed := closed + [tasks[i].peer];
      senders := senders + [i];
      tasks := tasks[i := tasks[i].(phase := Gone)];
    }
  }

  // ------------------------------------------------------------------
  // Invariants
  // ------------------------------------------------------------------

  ghost predicate Increasing(ids: seq<nat>)
  {
    forall i, j :: 0 <= i < j < |ids| ==> ids[i] < ids[j]
  }

  /** All of `ids` are datagrams received from `peer`. */
  ghost predicate From(received: seq<Datagram>, peer: Peer, ids: seq<nat>)
  {
    forall i :: 0 <= i < |ids| ==> ids[i] < |received| && received[ids[i]].peer == peer
  }

  function TotalLength(received: seq<Datagram>, ids: seq<nat>): nat
  {
    if ids == [] then 0
    else
      var id := ids[|ids| - 1];
      TotalLength(received, ids[..|ids| - 1]) + (if id < |received| then |received[id].data| else 0)
  }

  /** What the flow took and what still waits for it. */
  function Claimed(f: Flow): seq<nat>
  {
    f.taken + f.queue
  }

  ghost predicate FlowOk(received: seq<Datagram>, f: Flow)
  {
    && Increasing(Claimed(f)) && From(received, f.peer, Claimed(f))
    && f.bytesIn == TotalLength(received, f.taken)
    && f.written <= f.taken
    && (f.written == f.taken
        || (|f.written| == |f.taken| - 1 && (f.phase.Ended? || f.phase.Reported? || f.phase.Gone?)))
    && (f.counted ==> f.phase.Reported? || f.phase.Gone?)
  }

  ghost predicate Apart(f: Flow, g: Flow)
  {
    forall i, j :: 0 <= i < |Claimed(f)| && 0 <= j < |Claimed(g)| ==> Claimed(f)[i] != Claimed(g)[j]
  }

  function SumIn(tasks: seq<Flow>): nat
  {
    if tasks == [] then 0
    else SumIn(tasks[..|tasks| - 1]) + (if tasks[|tasks| - 1].counted then tasks[|tasks| - 1].bytesIn else 0)
  }

  function SumOut(tasks: seq<Flow>): nat
  {
    if tasks == [] then 0
    else SumOut(tasks[..|tasks| - 1]) + (if tasks[|tasks| - 1].counted then tasks[|tasks| - 1].bytesOut else 0)
  }

  /** The table is bounded and names for each peer a flow of that peer. */
  ghost predicate TableOk(s: State)
  {
    |s.flows| <= MAX_FLOWS && forall p :: p in s.flows ==> s.flows[p] < |s.tasks| && s.tasks[s.flows[p]].peer == p
  }

  ghost predicate FlowsOk(s: State)
  {
    && (forall i :: 0 <= i < |s.tasks| ==> FlowOk(s.received, s.tasks[i]))
    && (forall i, j :: 0 <= i < |s.tasks| && 0 <= j < |s.tasks| && i != j ==> Apart(s.tasks[i], s.tasks[j]))
  }

  ghost predicate TotalsOk(s: State)
  {
    s.totalIn == SumIn(s.tasks) && s.totalOut == SumOut(s.tasks)
  }

  ghost predicate Ok(s: State)
  {
    TableOk(s) && FlowsOk(s) && TotalsOk(s)
  }

  // ------------------------------------------------------------------
  // Table
  // ------------------------------------------------------------------

  lemma RemoveFlow(flows: map<Peer, nat>, peer: Peer)
    ensures |flows - {peer}| <= |flows|
    ensures peer in flows ==> |flows - {peer}| == |flows| - 1
  {
    if peer in flows {
      assert (flows - {peer}).Keys == flows.Keys - {peer};
      assert |(flows - {peer}).Keys| == |flows.Keys| - 1;
    } else {
      assert flows - {peer} == flows;
    }
  }

  lemma AddFlow(flows: map<Peer, nat>, peer: Peer, i: nat)
    ensures |flows[peer := i]| <= |flows| + 1
  {
    assert flows[peer := i].Keys == flows.Keys + {peer};
    assert |flows.Keys + {peer}| <= |flows.Keys| + 1;
  }

  lemma OpenTable(s: State, peer: Peer, id: nat, blocked: bool, outcome: Opened)
    requires TableOk(s)
    ensures TableOk(OpenFlow(s, peer, id, blocked, outcome))
  {
    AddFlow(s.flows, peer, |s.tasks|);
  }

  lemma RoutedTable(s: State, peer: Peer, id: nat, blocked: bool, outcome: Opened)
    requires TableOk(s)
    ensures TableOk(Routed(s, peer, id, blocked, outcome))
  {
    if peer in s.flows && s.tasks[s.flows[peer]].Receiving() {
      assert Queued(s.tasks[s.flows[peer]], id).peer == peer;
    } else {
      RemoveFlow(s.flows, peer);
      OpenTable(s, peer, id, blocked, outcome);
      OpenTable(s.(flows := s.flows - {peer}), peer, id, blocked, outcome);
    }
  }

  lemma TurnedTable(s: State, i: nat, m: Move)
    requires TableOk(s) && i < |s.tasks|
    ensures TableOk(Turned(s, i, m))
  {
    assert Moved(s.received, s.tasks[i], m).peer == s.tasks[i].peer;
  }

  lemma TableKept(s: State, e: Event)
    requires TableOk(s)
    ensures TableOk(Next(s, e))
  {
    match e
    case Arrive(peer, data, blocked, outcome) =>
      RoutedTable(s.(received := s.received + [Datagram(peer, data)]), peer, |s.received|, blocked, outcome);
    case CloseSignal => if s.closed != [] { RemoveFlow(s.flows, s.closed[0]); }
    case Turn(i, m) => if i < |s.tasks| { TurnedTable(s, i, m); }
  }

  // ------------------------------------------------------------------
  // Flows
  // ------------------------------------------------------------------

  lemma {:induction false} LengthsStable(received: seq<Datagram>, d: Datagram, ids: seq<nat>)
    requires forall i :: 0 <= i < |ids| ==> ids[i] < |received|
    ensures TotalLength(received + [d], ids) == TotalLength(received, ids)
  {
    if ids != [] {
      LengthsStable(received, d, ids[..|ids| - 1]);
    }
  }

  lemma LengthOne(received: seq<Datagram>, ids: seq<nat>, id: nat)
    ensures TotalLength(received, ids + [id])
         == TotalLength(received, ids) + (if id < |received| then |received[id].data| else 0)
  {
    assert (ids + [id])[..|ids|] == ids;
  }

  /** A longer log changes nothing for a flow. */
  lemma FlowStable(received: seq<Datagram>, d: Datagram, f: Flow)
    requires FlowOk(received, f)
    ensures FlowOk(received + [d], f)
  {
    forall i | 0 <= i < |f.taken|
      ensures f.taken[i] < |received|
    {
      assert Claimed(f)[i] == f.taken[i];
    }
    LengthsStable(received, d, f.taken);
  }

  /** No flow has claimed datagram `id` or a later one. */
  ghost predicate Unclaimed(s: State, id: nat)
  {
    forall i :: 0 <= i < |s.tasks| ==> Below(s.tasks[i], id)
  }

  ghost predicate Below(f: Flow, id: nat)
  {
    forall j :: 0 <= j < |Claimed(f)| ==> Claimed(f)[j] < id
  }

  lemma LogGrows(s: State, d: Datagram)
    requires FlowsOk(s)
    ensures FlowsOk(s.(received := s.received + [d])) && Unclaimed(s.(received := s.received + [d]), |s.received|)
  {
    forall i | 0 <= i < |s.tasks|
      ensures FlowOk(s.received + [d], s.tasks[i]) && Below(s.tasks[i], |s.received|)
    {
      FlowStable(s.received, d, s.tasks[i]);
    }
  }

  lemma ApartSymmetric(f: Flow, g: Flow)
    requires Apart(f, g)
    ensures Apart(g, f)
  {
  }

  /** Changing one flow. */
  lemma FlowChanges(s: State, i: nat, f: Flow)
    requires FlowsOk(s) && i < |s.tasks| && FlowOk(s.received, f)
    requires forall j :: 0 <= j < |s.tasks| && j != i ==> Apart(f, s.tasks[j])
    ensures FlowsOk(Set(s, i, f))
  {
    var s' := Set(s, i, f);
    forall j, k | 0 <= j < |s'.tasks| && 0 <= k < |s'.tasks| && j != k
      ensures Apart(s'.tasks[j], s'.tasks[k])
    {
      if k == i {
        ApartSymmetric(f, s.tasks[j]);
      }
    }
  }

  /** Datagram `id`, the newest, may go to a flow of its peer. */
  lemma Enqueue(s: State, i: nat, id: nat)
    requires FlowsOk(s) && Unclaimed(s, id) && i < |s.tasks|
    requires id < |s.received| && s.received[id].peer == s.tasks[i].peer
    ensures FlowsOk(Set(s, i, Queued(s.tasks[i], id)))
  {
    var f := s.tasks[i];
    var f' := Queued(f, id);
    assert Below(f, id) && FlowOk(s.received, f);
    assert Claimed(f') == Claimed(f) + [id];
    forall j | 0 <= j < |s.tasks| && j != i
      ensures Apart(f', s.tasks[j])
    {
      assert Below(s.tasks[j], id) && Apart(f, s.tasks[j]);
    }
    FlowChanges(s, i, f');
  }

  lemma NewFlowOk(s: State, peer: Peer, id: nat)
    requires FlowsOk(s) && Unclaimed(s, id) && id < |s.received| && s.received[id].peer == peer
    ensures FlowsOk(s.(tasks := s.tasks + [NewFlow(peer, id)]))
  {
    var f := NewFlow(peer, id);
    assert Claimed(f) == [id];
    var tasks := s.tasks + [f];
    forall j, k | 0 <= j < |tasks| && 0 <= k < |tasks| && j != k
      ensures Apart(tasks[j], tasks[k])
    {
      if k == |s.tasks| {
        assert Below(s.tasks[j], id);
      } else if j == |s.tasks| {
        assert Below(s.tasks[k], id);
      }
    }
  }

  lemma OpenFlows(s: State, peer: Peer, id: nat, blocked: bool, outcome: Opened)
    requires FlowsOk(s) && Unclaimed(s, id) && id < |s.received| && s.received[id].peer == peer
    ensures FlowsOk(OpenFlow(s, peer, id, blocked, outcome))
  {
    NewFlowOk(s, peer, id);
  }

  lemma RoutedFlows(s: State, peer: Peer, id: nat, blocked: bool, outcome: Opened)
    requires TableOk(s) && FlowsOk(s) && Unclaimed(s, id) && id < |s.received| && s.received[id].peer == peer
    ensures FlowsOk(Routed(s, peer, id, blocked, outcome))
  {
    if peer in s.flows {
      Enqueue(s, s.flows[peer], id);
      OpenFlows(s.(flows := s.flows - {peer}), peer, id, blocked, outcome);
    } else {
      OpenFlows(s, peer, id, blocked, outcome);
    }
  }

  lemma ArrivedFlows(s: State, peer: Peer, data: seq<Byte>, blocked: bool, outcome: Opened)
    requires TableOk(s) && FlowsOk(s)
    ensures FlowsOk(Arrived(s, peer, data, blocked, outcome))
  {
    LogGrows(s, Datagram(peer, data));
    RoutedFlows(s.(received := s.received + [Datagram(peer, data)]), peer, |s.received|, blocked, outcome);
  }

  /** A move keeps the flow's claims and its counters exact. */
  lemma MovedOk(received: seq<Datagram>, f: Flow, m: Move)
    requires FlowOk(received, f)
    ensures FlowOk(received, Moved(received, f, m)) && Claimed(Moved(received, f, m)) == Claimed(f)
    ensures CountedIn(Moved(received, f, m)) == CountedIn(f) + (if Reports(f, m) then f.bytesIn else 0)
    ensures CountedOut(Moved(received, f, m)) == CountedOut(f) + (if Reports(f, m) then f.bytesOut else 0)
  {
    if m.Relay? && f.phase.Relaying? && f.queue != [] {
      LengthOne(received, f.taken, f.queue[0]);
      assert (f.taken + [f.queue[0]]) + f.queue[1..] == f.taken + f.queue;
    }
  }

  lemma TurnedFlows(s: State, i: nat, m: Move)
    requires FlowsOk(s) && i < |s.tasks|
    ensures FlowsOk(Turned(s, i, m))
  {
    var f := s.tasks[i];
    assert FlowOk(s.received, f);
    MovedOk(s.received, f, m);
    forall j | 0 <= j < |s.tasks| && j != i
      ensures Apart(Moved(s.received, f, m), s.tasks[j])
    {
      assert Apart(f, s.tasks[j]);
    }
    FlowChanges(s, i, Moved(s.received, f, m));
  }

  lemma FlowsKept(s: State, e: Event)
    requires TableOk(s) && FlowsOk(s)
    ensures FlowsOk(Next(s, e))
  {
    match e
    case Arrive(peer, data, blocked, outcome) => ArrivedFlows(s, peer, data, blocked, outcome);
    case CloseSignal =>
    case Turn(i, m) => if i < |s.tasks| { TurnedFlows(s, i, m); }
  }

  // ------------------------------------------------------------------
  // Totals
  // ------------------------------------------------------------------

  function CountedIn(f: Flow): nat
  {
    if f.counted then f.bytesIn else 0
  }

  function CountedOut(f: Flow): nat
  {
    if f.counted then f.bytesOut else 0
  }

  lemma {:induction false} SumsAfterSet(tasks: seq<Flow>, i: nat, f: Flow)
    requires i < |tasks|
    ensures SumIn(tasks[i := f]) == SumIn(tasks) - CountedIn(tasks[i]) + CountedIn(f)
    ensures SumOut(tasks[i := f]) == SumOut(tasks) - CountedOut(tasks[i]) + CountedOut(f)
  {
    var n := |tasks| - 1;
    if i < n {
      assert tasks[i := f][..n] == tasks[..n][i := f];
      SumsAfterSet(tasks[..n], i, f);
    } else {
      assert tasks[i := f][..n] == tasks[..n];
    }
  }

  lemma SumsAfterAppend(tasks: seq<Flow>, f: Flow)
    ensures SumIn(tasks + [f]) == SumIn(tasks) + CountedIn(f) && SumOut(tasks + [f]) == SumOut(tasks) + CountedOut(f)
  {
    assert (tasks + [f])[..|tasks|] == tasks;
  }

  lemma OpenTotals(s: State, peer: Peer, id: nat, blocked: bool, outcome: Opened)
    requires TotalsOk(s)
    ensures TotalsOk(OpenFlow(s, peer, id, blocked, outcome))
  {
    SumsAfterAppend(s.tasks, NewFlow(peer, id));
  }

  lemma RoutedTotals(s: State, peer: Peer, id: nat, blocked: bool, outcome: Opened)
    requires TotalsOk(s)
    ensures TotalsOk(Routed(s, peer, id, blocked, outcome))
  {
    if peer in s.flows && s.flows[peer] < |s.tasks| {
      SumsAfterSet(s.tasks, s.flows[peer], Queued(s.tasks[s.flows[peer]], id));
      OpenTotals(s.(flows := s.flows - {peer}), peer, id, blocked, outcome);
    } else {
      OpenTotals(s, peer, id, blocked, outcome);
    }
  }

  lemma TurnedTotals(s: State, i: nat, m: Move)
    requires FlowsOk(s) && TotalsOk(s) && i < |s.tasks|
    ensures TotalsOk(Turned(s, i, m))
  {
    assert FlowOk(s.received, s.tasks[i]);
    MovedOk(s.received, s.tasks[i], m);
    SumsAfterSet(s.tasks, i, Moved(s.received, s.tasks[i], m));
  }

  lemma TotalsKept(s: State, e: Event)
    requires FlowsOk(s) && TotalsOk(s)
    ensures TotalsOk(Next(s, e))
  {
    match e
    case Arrive(peer, data, blocked, outcome) =>
      RoutedTotals(s.(received := s.received + [Datagram(peer, data)]), peer, |s.received|, blocked, outcome);
    case CloseSignal =>
    case Turn(i, m) => if i < |s.tasks| { TurnedTotals(s, i, m); }
  }

  // ------------------------------------------------------------------
  // Main result
  // ------------------------------------------------------------------

  /** Over every interleaving of datagrams, close signals and flow turns: the table never exceeds its
      cap and holds at most one flow a peer; every flow relays datagrams of its own peer only, in
      order of arrival; no datagram goes to two flows; and the tunnel's totals are the sums of the
      finished flows' counters, each the exact length of what the flow took. */
  lemma {:induction false} IsolationAndOrder(events: seq<Event>)
    ensures Ok(Run(events))
  {
    if events != [] {
      IsolationAndOrder(events[..|events| - 1]);
      var s := Run(events[..|events| - 1]);
      TableKept(s, events[|events| - 1]);
      FlowsKept(s, events[|events| - 1]);
      TotalsKept(s, events[|events| - 1]);
    }
  }

  /** What flow `i` has written is a subsequence of the datagrams of its peer, in order. */
  lemma WritesInOrder(events: seq<Event>, i: nat)
    requires i < |Run(events).tasks|
    ensures var s := Run(events); var f := s.tasks[i];
      Increasing(f.written) && From(s.received, f.peer, f.written)
  {
    IsolationAndOrder(events);
    var s := Run(events);
    var f := s.tasks[i];
    assert FlowOk(s.received, f);
    forall j | 0 <= j < |f.written|
      ensures f.written[j] == Claimed(f)[j]
    {
    }
  }

  // ------------------------------------------------------------------
  // What a close signal takes out
  // ------------------------------------------------------------------

  /** Each signal in the channel was sent by a finished task of its peer. */
  ghost predicate SignalsOk(s: State)
  {
    && |s.senders| == |s.closed|
    && forall i :: 0 <= i < |s.closed| ==>
         s.senders[i] < |s.tasks| && s.tasks[s.senders[i]].peer == s.closed[i] && s.tasks[s.senders[i]].phase.Gone?
  }

  /** The table names the newest flow of each peer. */
  ghost predicate NewestOk(s: State)
  {
    forall i :: 0 <= i < |s.tasks| && s.tasks[i].peer in s.flows ==> i <= s.flows[s.tasks[i].peer]
  }

  lemma OpenNewest(s: State, peer: Peer, id: nat, blocked: bool, outcome: Opened)
    requires SignalsOk(s) && NewestOk(s)
    ensures SignalsOk(OpenFlow(s, peer, id, blocked, outcome)) && NewestOk(OpenFlow(s, peer, id, blocked, outcome))
  {
  }

  lemma RoutedNewest(s: State, peer: Peer, id: nat, blocked: bool, outcome: Opened)
    requires TableOk(s) && SignalsOk(s) && NewestOk(s)
    ensures SignalsOk(Routed(s, peer, id, blocked, outcome)) && NewestOk(Routed(s, peer, id, blocked, outcome))
  {
    if peer in s.flows && s.tasks[s.flows[peer]].Receiving() {
      assert Queued(s.tasks[s.flows[peer]], id).peer == peer;
    } else {
      OpenNewest(s, peer, id, blocked, outcome);
      OpenNewest(s.(flows := s.flows - {peer}), peer, id, blocked, outcome);
    }
  }

  lemma TurnedNewest(s: State, i: nat, m: Move)
    requires i < |s.tasks| && SignalsOk(s) && NewestOk(s)
    ensures SignalsOk(Turned(s, i, m)) && NewestOk(Turned(s, i, m))
  {
    var f := Moved(s.received, s.tasks[i], m);
    assert f.peer == s.tasks[i].peer;
    assert s.tasks[i].phase.Gone? ==> f.phase.Gone?;
  }

  lemma NewestKept(s: State, e: Event)
    requires TableOk(s) && SignalsOk(s) && NewestOk(s)
    ensures SignalsOk(Next(s, e)) && NewestOk(Next(s, e))
  {
    match e
    case Arrive(peer, data, blocked, outcome) =>
      RoutedNewest(s.(received := s.received + [Datagram(peer, data)]), peer, |s.received|, blocked, outcome);
    case CloseSignal =>
    case Turn(i, m) => if i < |s.tasks| { TurnedNewest(s, i, m); }
  }

  lemma {:induction false} RunNewest(events: seq<Event>)
    ensures SignalsOk(Run(events)) && NewestOk(Run(events))
  {
    if events != [] {
      RunNewest(events[..|events| - 1]);
      IsolationAndOrder(events[..|events| - 1]);
      NewestKept(Run(events[..|events| - 1]), events[|events| - 1]);
    }
  }

  /** Flow `k` was in the table and no longer is. */
  ghost predicate TakenOut(s: State, s': State, k: nat)
  {
    exists p :: p in s.flows && s.flows[p] == k && (p !in s'.flows || s'.flows[p] != k)
  }

  lemma SignalEffect(s: State)
    requires TableOk(s) && SignalsOk(s) && NewestOk(s) && s.running && s.closed != []
    ensures var s' := Next(s, CloseSignal); var p, i := s.closed[0], s.senders[0];
      && (forall k :: TakenOut(s, s', k) <==> p in s.flows && s.flows[p] == k)
      && (p in s.flows ==> s.flows[p] >= i)
  {
    var s' := Next(s, CloseSignal);
    var p := s.closed[0];
    assert s.tasks[s.senders[0]].peer == p;
    forall k | p in s.flows && s.flows[p] == k
      ensures TakenOut(s, s', k)
    {
      assert p !in s'.flows;
    }
  }

  /** In every reachable state, handling the first close signal takes out the flow that sent it, or
      nothing, or a newer flow of its peer; the last exactly if the table's entry for the peer is
      not the sender. */
  lemma SignalTakesNewerIff(events: seq<Event>)
    requires Run(events).running && Run(events).closed != []
    ensures var s := Run(events);
      && |s.senders| == |s.closed|
      && (forall k :: TakenOut(s, Next(s, CloseSignal), k) ==> k >= s.senders[0])
      && ((exists k :: k > s.senders[0] && TakenOut(s, Next(s, CloseSignal), k))
          <==> s.closed[0] in s.flows && s.flows[s.closed[0]] != s.senders[0])
  {
    IsolationAndOrder(events);
    RunNewest(events);
    TakesNewer(Run(events));
  }

  lemma TakesNewer(s: State)
    requires TableOk(s) && SignalsOk(s) && NewestOk(s) && s.running && s.closed != []
    ensures forall k :: TakenOut(s, Next(s, CloseSignal), k) ==> k >= s.senders[0]
    ensures (exists k :: k > s.senders[0] && TakenOut(s, Next(s, CloseSignal), k))
            <==> s.closed[0] in s.flows && s.flows[s.closed[0]] != s.senders[0]
  {
    SignalEffect(s);
    if s.closed[0] in s.flows {
      assert TakenOut(s, Next(s, CloseSignal), s.flows[s.closed[0]]);
    }
  }

  // ------------------------------------------------------------------
  // ... and the events that decide it
  // ------------------------------------------------------------------

  /** The datagram of `e` finds its peer without a flow, or with one whose task no longer receives. */
  predicate Orphaned(s: State, p: Peer)
  {
    p in s.flows && s.flows[p] < |s.tasks| ==> !s.tasks[s.flows[p]].Receiving()
  }

  /** `e` opens a flow for peer `p`: an unblocked datagram of a peer with no receiving flow gets a
      stream, and the table has room. */
  predicate Opens(s: State, e: Event, p: Peer)
  {
    s.running && e.Arrive? && e.peer == p && !e.blocked && e.outcome == Stream && Orphaned(s, p)
    && |s.flows - {p}| < MAX_FLOWS
  }

  /** `e` takes the entry of peer `p` out: a close signal that names it, or a datagram whose flow no
      longer receives and that opens no new one. */
  predicate Drops(s: State, e: Event, p: Peer)
  {
    s.running && ((e.CloseSignal? && s.closed != [] && s.closed[0] == p)
                  || (e.Arrive? && e.peer == p && Orphaned(s, p) && !Opens(s, e, p)))
  }

  /** The entry of `p` after a step, as its openings and drops have it. */
  ghost predicate EntryAfter(s: State, s': State, opens: bool, drops: bool, p: Peer)
  {
    && (opens ==> p in s'.flows && s'.flows[p] == |s.tasks|)
    && (drops ==> p !in s'.flows)
    && (!opens && !drops ==> (p in s'.flows <==> p in s.flows) && (p in s.flows ==> s'.flows[p] == s.flows[p]))
  }

  lemma OpenEntry(s: State, peer: Peer, id: nat, blocked: bool, outcome: Opened, p: Peer)
    requires peer !in s.flows
    ensures var opens := peer == p && |s.flows| < MAX_FLOWS && !blocked && outcome == Stream;
      EntryAfter(s, OpenFlow(s, peer, id, blocked, outcome), opens, peer == p && !opens, p)
  {
  }

  lemma RoutedEntry(s: State, peer: Peer, id: nat, blocked: bool, outcome: Opened, p: Peer)
    requires TableOk(s)
    ensures var orphan := peer == p && Orphaned(s, p);
      var opens := orphan && |s.flows - {p}| < MAX_FLOWS && !blocked && outcome == Stream;
      EntryAfter(s, Routed(s, peer, id, blocked, outcome), opens, orphan && !opens, p)
  {
    if Orphaned(s, peer) {
      OpenEntry(s.(flows := s.flows - {peer}), peer, id, blocked, outcome, p);
      if peer !in s.flows {
        assert s.flows - {peer} == s.flows;
      }
    }
  }

  lemma TurnedEntry(s: State, i: nat, m: Move, p: Peer)
    requires i < |s.tasks|
    ensures Turned(s, i, m).flows == s.flows
  {
  }

  lemma EntryStep(s: State, e: Event, p: Peer)
    requires TableOk(s)
    ensures EntryAfter(s, Next(s, e), Opens(s, e, p), Drops(s, e, p), p)
  {
    if e.Arrive? {
      ArriveEntry(s, e, p);
    } else if e.Turn? && e.i < |s.tasks| {
      TurnedEntry(s, e.i, e.move, p);
    }
  }

  lemma ArriveEntry(s: State, e: Event, p: Peer)
    requires TableOk(s) && e.Arrive?
    ensures EntryAfter(s, Next(s, e), Opens(s, e, p), Drops(s, e, p), p)
  {
    var s1 := s.(received := s.received + [Datagram(e.peer, e.data)]);
    assert Orphaned(s1, p) == Orphaned(s, p);
    RoutedEntry(s1, e.peer, |s.received|, e.blocked, e.outcome, p);
    SameEntries(s, s1, Routed(s1, e.peer, |s.received|, e.blocked, e.outcome),
                e.peer == p && Orphaned(s, p) && |s.flows - {p}| < MAX_FLOWS && !e.blocked && e.outcome == Stream,
                e.peer == p && Orphaned(s, p), p);
  }

  lemma SameEntries(s: State, s1: State, s': State, opens: bool, orphan: bool, p: Peer)
    requires s1.flows == s.flows && s1.tasks == s.tasks && EntryAfter(s1, s', opens, orphan && !opens, p)
    ensures EntryAfter(s, s', opens, orphan && !opens, p)
  {
  }

  /** Which events of a run opened a flow for `p` numbered above `i`. */
  ghost function Openings(events: seq<Event>, i: int, p: Peer): (marks: seq<bool>)
    ensures |marks| == |events|
  {
    if events == [] then []
    else
      var before := events[..|events| - 1];
      Openings(before, i, p) + [Opens(Run(before), events[|events| - 1], p) && |Run(before).tasks| > i]
  }

  /** Which events of a run took the entry of `p` out. */
  ghost function Droppings(events: seq<Event>, p: Peer): (marks: seq<bool>)
    ensures |marks| == |events|
  {
    if events == [] then []
    else
      var before := events[..|events| - 1];
      Droppings(before, p) + [Drops(Run(before), events[|events| - 1], p)]
  }

  /** Over every run: the table's entry for `p` is numbered above `i` exactly if such a flow was
      opened and nothing has taken the entry out since. */
  lemma {:induction false} EntryIff(events: seq<Event>, i: int, p: Peer)
    ensures p in Run(events).flows && Run(events).flows[p] > i <==> Since(Openings(events, i, p), Droppings(events, p))
  {
    if events != [] {
      var before, e := events[..|events| - 1], events[|events| - 1];
      EntryIff(before, i, p);
      SinceStep(Openings(before, i, p), Droppings(before, p), Opens(Run(before), e, p) && |Run(before).tasks| > i,
                Drops(Run(before), e, p));
      IsolationAndOrder(before);
      EntryStep(Run(before), e, p);
      EntryMoves(Run(before), Run(events), Opens(Run(before), e, p), Drops(Run(before), e, p), i, p);
    }
  }

  lemma EntryMoves(s: State, s': State, opens: bool, drops: bool, i: int, p: Peer)
    requires TableOk(s) && EntryAfter(s, s', opens, drops, p) && !(opens && drops)
    ensures p in s'.flows && s'.flows[p] > i
            <==> (opens && |s.tasks| > i) || ((p in s.flows && s.flows[p] > i) && !drops)
  {
  }

  /** So the first close signal takes a newer flow out exactly if, after its sender's flow was opened,
      an unblocked datagram of that peer opened another with a stream, and the table has kept it. */
  lemma SignalTakesNewerWhen(events: seq<Event>)
    requires Run(events).running && Run(events).closed != []
    ensures var s := Run(events);
      && |s.senders| == |s.closed|
      && ((exists k :: k > s.senders[0] && TakenOut(s, Next(s, CloseSignal), k))
          <==> Since(Openings(events, s.senders[0], s.closed[0]), Droppings(events, s.closed[0])))
  {
    SignalTakesNewerIff(events);
    RunNewest(events);
    var s := Run(events);
    assert s.tasks[s.senders[0]].peer == s.closed[0];
    EntryIff(events, s.senders[0], s.closed[0]);
  }

  // ------------------------------------------------------------------
  // A run in which it happens
  // ------------------------------------------------------------------

  const FIRST_FLOW: seq<Event> := [Arrive("p", [], false, Stream), Turn(0, Preamble(true)), Turn(0, End), Turn(0, Report)]

  const SIGNAL_THEN_SECOND: seq<Event> := [Turn(0, Signal), Arrive("p", [], false, Stream)]

  lemma RunSnoc(events: seq<Event>, e: Event)
    ensures Run(events + [e]) == Next(Run(events), e)
  {
    assert (events + [e])[..|events|] == events;
  }

  lemma FirstFlowReports()
    ensures Run(FIRST_FLOW) == State([Datagram("p", [])], map["p" := 0],
                                     [Flow("p", [0], [], [], 0, 0, Reported, true)], [], [], true, 0, 0)
  {
    var a, b, c, d := FIRST_FLOW[0], FIRST_FLOW[1], FIRST_FLOW[2], FIRST_FLOW[3];
    RunSnoc([], a);
    assert [] + [a] == [a];
    assert Run([a]) == State([Datagram("p", [])], map["p" := 0], [NewFlow("p", 0)], [], [], true, 0, 0);
    RunSnoc([a], b);
    assert [a] + [b] == [a, b];
    RunSnoc([a, b], c);
    assert [a, b] + [c] == [a, b, c];
    RunSnoc([a, b, c], d);
    assert [a, b, c] + [d] == FIRST_FLOW;
  }

  lemma SignalSent(s: State)
    requires s == State([Datagram("p", [])], map["p" := 0], [Flow("p", [0], [], [], 0, 0, Reported, true)], [], [], true, 0, 0)
    ensures Next(s, SIGNAL_THEN_SECOND[0])
         == State([Datagram("p", [])], map["p" := 0], [Flow("p", [0], [], [], 0, 0, Gone, true)], ["p"], [0], true, 0, 0)
  {
  }

  lemma SecondFlowOpens(s: State)
    requires s.running && s.flows == map["p" := 0] && |s.tasks| == 1 && s.tasks[0].phase.Gone? && |s.received| == 1
    ensures var s' := Next(s, SIGNAL_THEN_SECOND[1]);
      s' == s.(received := s.received + [Datagram("p", [])], flows := map["p" := 1], tasks := s.tasks + [NewFlow("p", 1)])
  {
    assert s.flows - {"p"} == map[];
  }

  lemma SecondTakenOut(s: State)
    requires s.running && s.flows == map["p" := 1] && s.closed == ["p"]
    ensures Next(s, CloseSignal).flows == map[] && Next(s, CloseSignal).tasks == s.tasks
  {
  }

  /** A flow of "p" finishes and signals; before the listener handles the signal, a datagram of "p"
      opens a second flow; the signal then takes the second, still receiving, out of the table. */
  lemma StaleSignalRemovesNewFlow()
    ensures var s := Run(FIRST_FLOW + SIGNAL_THEN_SECOND); var s' := Run(FIRST_FLOW + SIGNAL_THEN_SECOND + [CloseSignal]);
      && s.flows == map["p" := 1] && s.closed == ["p"] && s.senders == [0]
      && s'.flows == map[] && |s'.tasks| == 2 && s'.tasks[1] == NewFlow("p", 1)
  {
    var r := FIRST_FLOW + [SIGNAL_THEN_SECOND[0]];
    FirstFlowReports();
    RunSnoc(FIRST_FLOW, SIGNAL_THEN_SECOND[0]);
    SignalSent(Run(FIRST_FLOW));
    RunSnoc(r, SIGNAL_THEN_SECOND[1]);
    assert r + [SIGNAL_THEN_SECOND[1]] == FIRST_FLOW + SIGNAL_THEN_SECOND;
    SecondFlowOpens(Run(r));
    RunSnoc(FIRST_FLOW + SIGNAL_THEN_SECOND, CloseSignal);
    SecondTakenOut(Run(FIRST_FLOW + SIGNAL_THEN_SECOND));
  }
}
