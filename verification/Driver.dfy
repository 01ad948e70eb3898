/** The yamux client driver: one task that services the connection, drains the channel of
    open-requests into a queue and hands out streams as the connection allows. */
module Driver {
  import opened Options

  type RequestId = nat

  type StreamId = nat

  datatype Inbound = Unexpected | ConnectionEnd | InboundPending

  datatype Recv = Request(id: RequestId) | ChannelClosed | RecvPending

  datatype Answer = Opened(stream: StreamId) | OpenFailed | Closed

  datatype Outbound = Ready(answer: Answer) | OutboundPending

  /** What the environment answers to one poll, whichever source the driver polls. */
  datatype Reaction = Reaction(inbound: Inbound, recv: Recv, outbound: Outbound)

  /** One poll the driver made: the wake-up it belongs to, and what it saw. */
  datatype Event =
    | PolledInbound(wake: nat, i: Inbound)
    | PolledRecv(wake: nat, r: Recv)
    | PolledOutbound(wake: nat, o: Outbound)

  datatype Reply = Reply(id: RequestId, answer: Answer)

  datatype Outcome = Yielded | Finished | ScriptOver

  // ------------------------------------------------------------------
  // What a log of polls says
  // ------------------------------------------------------------------

  /** The requests taken from the channel, in arrival order. */
  function Taken(log: seq<Event>): (ids: seq<RequestId>)
  {
    if log == [] then []
    else
      var e := log[|log| - 1];
      Taken(log[..|log| - 1]) + (if e.PolledRecv? && e.r.Request? then [e.r.id] else [])
  }

  /** What the connection handed out, in order. */
  function Granted(log: seq<Event>): (answers: seq<Answer>)
  {
    if log == [] then []
    else
      var e := log[|log| - 1];
      Granted(log[..|log| - 1]) + (if e.PolledOutbound? && e.o.Ready? then [e.o.answer] else [])
  }

  predicate ChannelOpen(log: seq<Event>)
  {
    log == [] || (ChannelOpen(log[..|log| - 1]) && !(log[|log| - 1].PolledRecv? && log[|log| - 1].r.ChannelClosed?))
  }

  predicate Ended(log: seq<Event>)
  {
    log != [] && (Ended(log[..|log| - 1]) || (log[|log| - 1].PolledInbound? && log[|log| - 1].i.ConnectionEnd?))
  }

  /** The latest poll of the connection's inbound side. */
  function LastInbound(log: seq<Event>): Option<Event>
  {
    if log == [] then None
    else
      var e := log[|log| - 1];
      if e.PolledInbound? then Some(e) else LastInbound(log[..|log| - 1])
  }

  function LastRecv(log: seq<Event>): Option<Event>
  {
    if log == [] then None
    else
      var e := log[|log| - 1];
      if e.PolledRecv? then Some(e) else LastRecv(log[..|log| - 1])
  }

  function LastOutbound(log: seq<Event>): Option<Event>
  {
    if log == [] then None
    else
      var e := log[|log| - 1];
      if e.PolledOutbound? then Some(e) else LastOutbound(log[..|log| - 1])
  }

  /** A stream was handed out since the latest poll of the connection's inbound side. */
  predicate GrantSinceInbound(log: seq<Event>)
  {
    log != [] && !log[|log| - 1].PolledInbound?
    && ((log[|log| - 1].PolledOutbound? && log[|log| - 1].o.Ready?) || GrantSinceInbound(log[..|log| - 1]))
  }

  /** Yielding at the end of wake-up `wake` is safe: there is something left to wait for, and
      the latest poll of every source that can still matter was made in this very wake-up and
      was Pending, so each of them has registered the waker; and no stream was handed out since
      the inbound side was last polled, so nothing has been left unserviced. */
  predicate MayYield(log: seq<Event>, wake: nat)
  {
    && !Ended(log) && !GrantSinceInbound(log)
    && (ChannelOpen(log) || |Granted(log)| < |Taken(log)|)
    && LastInbound(log) == Some(PolledInbound(wake, InboundPending))
    && (ChannelOpen(log) ==> LastRecv(log) == Some(PolledRecv(wake, RecvPending)))
    && (|Granted(log)| < |Taken(log)| ==> LastOutbound(log) == Some(PolledOutbound(wake, OutboundPending)))
  }

  /** Replies so far are right: the i-th request taken gets the i-th grant, and once the
      connection has ended, every remaining one gets `Closed`. */
  predicate Answered(log: seq<Event>, replies: seq<Reply>)
  {
    && |Granted(log)| <= |Taken(log)|
    && |replies| == (if Ended(log) then |Taken(log)| else |Granted(log)|)
    && forall k :: 0 <= k < |replies| ==>
         replies[k] == Reply(Taken(log)[k], if k < |Granted(log)| then Granted(log)[k] else Closed)
  }

  /** The driver's variables agree with the polls it has made. */
  predicate Consistent(log: seq<Event>, replies: seq<Reply>, queue: seq<RequestId>, channelOpen: bool)
  {
    && channelOpen == ChannelOpen(log)
    && Answered(log, replies)
    && queue == Taken(log)[|replies|..]
  }

  lemma Logged(log: seq<Event>, e: Event)
    ensures var l := log + [e];
      && Taken(l) == Taken(log) + (if e.PolledRecv? && e.r.Request? then [e.r.id] else [])
      && Granted(l) == Granted(log) + (if e.PolledOutbound? && e.o.Ready? then [e.o.answer] else [])
      && ChannelOpen(l) == (ChannelOpen(log) && !(e.PolledRecv? && e.r.ChannelClosed?))
      && Ended(l) == (Ended(log) || (e.PolledInbound? && e.i.ConnectionEnd?))
      && LastInbound(l) == (if e.PolledInbound? then Some(e) else LastInbound(log))
      && LastRecv(l) == (if e.PolledRecv? then Some(e) else LastRecv(log))
      && LastOutbound(l) == (if e.PolledOutbound? then Some(e) else LastOutbound(log))
      && GrantSinceInbound(l) == (!e.PolledInbound? && ((e.PolledOutbound? && e.o.Ready?) || GrantSinceInbound(log)))
  {
    assert (log + [e])[..|log|] == log;
  }

  /** A poll that takes no request, grants nothing and ends nothing changes nothing. */
  lemma QuietPoll(log: seq<Event>, e: Event, replies: seq<Reply>, queue: seq<RequestId>, open: bool)
    requires Consistent(log, replies, queue, open)
    requires (e.PolledInbound? && !e.i.ConnectionEnd?) || (e.PolledRecv? && e.r.RecvPending?)
             || (e.PolledOutbound? && e.o.OutboundPending?)
    ensures Consistent(log + [e], replies, queue, open)
  {
    Logged(log, e);
    assert Taken(log) + [] == Taken(log) && Granted(log) + [] == Granted(log);
  }

  lemma RequestPoll(log: seq<Event>, e: Event, replies: seq<Reply>, queue: seq<RequestId>, open: bool)
    requires Consistent(log, replies, queue, open) && !Ended(log)
    requires e.PolledRecv? && e.r.Request?
    ensures Consistent(log + [e], replies, queue + [e.r.id], open)
  {
    Logged(log, e);
    assert Granted(log) + [] == Granted(log);
  }

  lemma ChannelClosedPoll(log: seq<Event>, e: Event, replies: seq<Reply>, queue: seq<RequestId>, open: bool)
    requires Consistent(log, replies, queue, open)
    requires e.PolledRecv? && e.r.ChannelClosed?
    ensures Consistent(log + [e], replies, queue, false)
  {
    Logged(log, e);
    assert Taken(log) + [] == Taken(log) && Granted(log) + [] == Granted(log);
  }

  lemma GrantPoll(log: seq<Event>, e: Event, replies: seq<Reply>, queue: seq<RequestId>, open: bool)
    requires Consistent(log, replies, queue, open) && !Ended(log) && queue != []
    requires e.PolledOutbound? && e.o.Ready?
    ensures Consistent(log + [e], replies + [Reply(queue[0], e.o.answer)], queue[1..], open)
  {
    Logged(log, e);
    assert Taken(log) + [] == Taken(log);
  }

  function CloseReplies(queue: seq<RequestId>): (rs: seq<Reply>)
    ensures |rs| == |queue|
  {
    seq(|queue|, k requires 0 <= k < |queue| => Reply(queue[k], Closed))
  }

  lemma EndPoll(log: seq<Event>, e: Event, replies: seq<Reply>, queue: seq<RequestId>, open: bool)
    requires Consistent(log, replies, queue, open) && !Ended(log)
    requires e.PolledInbound? && e.i.ConnectionEnd?
    ensures Consistent(log + [e], replies + CloseReplies(queue), [], open)
  {
    Logged(log, e);
    assert Taken(log) + [] == Taken(log) && Granted(log) + [] == Granted(log);
  }

  // ------------------------------------------------------------------
  // The driver
  // ------------------------------------------------------------------

  /** The event shows what the environment answered to that poll. */
  predicate Saw(e: Event, r: Reaction)
  {
    match e
    case PolledInbound(_, i) => i == r.inbound
    case PolledRecv(_, v) => v == r.recv
    case PolledOutbound(_, o) => o == r.outbound
  }

  /** The polls so far saw the first reactions of the script. */
  predicate Follows(log: seq<Event>, script: seq<Reaction>)
  {
    |log| <= |script| && forall k :: 0 <= k < |log| ==> Saw(log[k], script[k])
  }

  lemma FollowsNext(log: seq<Event>, script: seq<Reaction>, e: Event)
    requires Follows(log, script) && |log| < |script| && Saw(e, script[|log|])
    ensures Follows(log + [e], script)
    ensures log <= log + [e]
  {
  }

  function WakeOf(e: Event): nat
  {
    e.wake
  }

  /** The polls from `start` on were made in wake-up `wake`. */
  predicate InWake(log: seq<Event>, start: nat, wake: nat)
  {
    forall j :: start <= j < |log| ==> WakeOf(log[j]) == wake
  }

  lemma InWakeNext(log: seq<Event>, start: nat, e: Event)
    requires InWake(log, start, e.wake)
    ensures InWake(log + [e], start, e.wake)
  {
  }

  class ClientDriver {
    /** The environment's answers to the first polls, one per poll. */
    const script: seq<Reaction>
    /** The polls made so far. */
    var log: seq<Event>
    var queue: seq<RequestId>
    var channelOpen: bool
    /** The replies sent, oldest first. */
    var replies: seq<Reply>
    var wake: nat

    ghost predicate Valid()
      reads this
    {
      && Follows(log, script)
      && Consistent(log, replies, queue, channelOpen)
    }

    constructor (script: seq<Reaction>)
      ensures Valid() && this.script == script && log == [] && wake == 0
    {
      this.script, this.log := script, [];
      this.queue, this.channelOpen, this.replies := [], true, [];
      this.wake := 0;
    }

    /** Step 1: service inbound frames until there are none; a connection end answers every
        queued request with `Closed`. */
    method ServiceInbound() returns (r: Option<Inbound>)
      requires Valid() && !Ended(log)
      modifies this`log, this`replies, this`queue
      ensures Valid()
      ensures old(log) <= log && InWake(log, |old(log)|, wake)
      ensures r == Some(ConnectionEnd) <==> Ended(log)
      ensures r == None ==> |log| == |script|
      ensures r != None ==> |log| > |old(log)| && LastInbound(log) == Some(PolledInbound(wake, r.value))
      ensures r != None ==> !GrantSinceInbound(log)
      ensures r == None || r == Some(ConnectionEnd) || r == Some(InboundPending)
    {
      while true
        invariant Valid() && !Ended(log)
        invariant old(log) <= log && InWake(log, |old(log)|, wake)
        decreases |script| - |log|
      {
        if |log| == |script| { return None; }
        var i := script[|log|].inbound;
        var e := PolledInbound(wake, i);
        Logged(log, e);
        FollowsNext(log, script, e);
        InWakeNext(log, |old(log)|, e);
        match i {
          case Unexpected =>
            QuietPoll(log, e, replies, queue, channelOpen);
            log := log + [e];
          case ConnectionEnd =>
            EndPoll(log, e, replies, queue, channelOpen);
            log := log + [e];
            CloseQueue();
            return Some(i);
          case InboundPending =>
            QuietPoll(log, e, replies, queue, channelOpen);
            log := log + [e];
            return Some(i);
        }
      }
    }

    /** `for reply in queue.drain(..)` */
    method CloseQueue()
      modifies this`queue, this`replies
      ensures queue == [] && replies == old(replies) + CloseReplies(old(queue))
    {
      while queue != []
        invariant replies + CloseReplies(queue) == old(replies) + CloseReplies(old(queue))
        decreases |queue|
      {
        assert CloseReplies(queue) == [Reply(queue[0], Closed)] + CloseReplies(queue[1..]);
        replies := replies + [Reply(queue[0], Closed)];
        queue := queue[1..];
      }
    }

    /** Step 2: drain the channel into the queue. */
    method DrainRequests() returns (over: bool)
      requires Valid() && !Ended(log)
      modifies this`log, this`queue, this`channelOpen
      ensures Valid() && !Ended(log)
      ensures old(log) <= log && InWake(log, |old(log)|, wake)
      ensures LastInbound(log) == LastInbound(old(log)) && GrantSinceInbound(log) == GrantSinceInbound(old(log))
      ensures over ==> |log| == |script|
      ensures !over && channelOpen ==> LastRecv(log) == Some(PolledRecv(wake, RecvPending))
    {
      over := false;
      while channelOpen
        invariant Valid() && !Ended(log)
        invariant old(log) <= log && InWake(log, |old(log)|, wake)
        invariant LastInbound(log) == LastInbound(old(log)) && GrantSinceInbound(log) == GrantSinceInbound(old(log))
        decreases |script| - |log|
      {
        if |log| == |script| { return true; }
        var r := script[|log|].recv;
        var e := PolledRecv(wake, r);
        Logged(log, e);
        FollowsNext(log, script, e);
        InWakeNext(log, |old(log)|, e);
        match r {
          case Request(id) =>
            RequestPoll(log, e, replies, queue, channelOpen);
            log := log + [e];
            queue := queue + [id];
          case ChannelClosed =>
            ChannelClosedPoll(log, e, replies, queue, channelOpen);
            log := log + [e];
            channelOpen := false;
          case RecvPending =>
            QuietPoll(log, e, replies, queue, channelOpen);
            log := log + [e];
            return;
        }
      }
    }

    /** Step 3: satisfy queued opens until the connection says Pending. */
    method OpenQueued() returns (over: bool, madeProgress: bool)
      requires Valid() && !Ended(log)
      modifies this`log, this`queue, this`replies
      ensures Valid() && !Ended(log)
      ensures old(log) <= log && InWake(log, |old(log)|, wake)
      ensures LastInbound(log) == LastInbound(old(log)) && LastRecv(log) == LastRecv(old(log))
      ensures GrantSinceInbound(log) == (GrantSinceInbound(old(log)) || madeProgress)
      ensures over ==> |log| == |script|
      ensures !over && queue != [] ==> LastOutbound(log) == Some(PolledOutbound(wake, OutboundPending))
    {
      over, madeProgress := false, false;
      while queue != []
        invariant Valid() && !Ended(log)
        invariant old(log) <= log && InWake(log, |old(log)|, wake)
        invariant LastInbound(log) == LastInbound(old(log)) && LastRecv(log) == LastRecv(old(log))
        invariant GrantSinceInbound(log) == (GrantSinceInbound(old(log)) || madeProgress)
        decreases |script| - |log|
      {
        if |log| == |script| { return true, madeProgress; }
        var o := script[|log|].outbound;
        var e := PolledOutbound(wake, o);
        Logged(log, e);
        FollowsNext(log, script, e);
        InWakeNext(log, |old(log)|, e);
        match o {
          case Ready(res) =>
            GrantPoll(log, e, replies, queue, channelOpen);
            log := log + [e];
            replies := replies + [Reply(queue[0], res)];
            queue := queue[1..];
            madeProgress := true;
          case OutboundPending =>
            QuietPoll(log, e, replies, queue, channelOpen);
            log := log + [e];
            return false, madeProgress;
        }
      }
    }

    /** One call of the poll function: runs until it pauses, finishes, or the script is over. */
    method Poll() returns (outcome: Outcome)
      requires Valid() && !Ended(log)
      modifies this
      ensures Valid() && wake == old(wake) + 1
      ensures old(log) <= log && InWake(log, |old(log)|, wake)
      ensures outcome == ScriptOver ==> |log| == |script|
      ensures outcome == Finished ==> queue == [] && (Ended(log) || !ChannelOpen(log))
      ensures outcome == Yielded ==> |log| > |old(log)| && MayYield(log, wake)
    {
      wake := wake + 1;
      while true
        invariant Valid() && !Ended(log) && wake == old(wake) + 1
        invariant old(log) <= log && InWake(log, |old(log)|, wake)
        decreases |script| - |log|
      {
        var inbound := ServiceInbound();
        if inbound == None { return ScriptOver; }
        if inbound == Some(ConnectionEnd) { return Finished; }
        var over := DrainRequests();
        if over { return ScriptOver; }
        var madeProgress;
        over, madeProgress := OpenQueued();
        if over { return ScriptOver; }
        if !channelOpen && queue == [] { return Finished; }
        if !madeProgress {
          return Yielded;
        }
      }
    }
  }

  /** Every yield is listed: the polls before pause `k` are those of the first k + 1 wake-ups. */
  ghost predicate PausesListed(log: seq<Event>, pauses: seq<nat>)
  {
    && (forall j :: 0 <= j < |log| ==> 1 <= WakeOf(log[j]) <= |pauses| + 1)
    && (forall k, j :: 0 <= k < |pauses| && 0 <= j < |log| ==> (j < pauses[k] <==> WakeOf(log[j]) <= k + 1))
  }

  /** So wherever two neighbouring polls belong to different wake-ups, a listed pause lies between. */
  lemma WakeChangesAtPauses(log: seq<Event>, pauses: seq<nat>, j: nat)
    requires PausesListed(log, pauses) && 0 < j < |log| && WakeOf(log[j]) != WakeOf(log[j - 1])
    ensures WakeOf(log[j - 1]) < WakeOf(log[j]) && pauses[WakeOf(log[j - 1]) - 1] == j
  {
    if WakeOf(log[j]) <= |pauses| {
      assert j < pauses[WakeOf(log[j]) - 1];
    }
  }

  /** The driver over any finite script of poll answers, woken again after each yield until it
      finishes or the script is over. Every request taken is answered at most once, in arrival
      order, by its own grant or by `Closed` after a connection end; none is left unanswered
      when the driver finishes; every yield is listed; and the k-th wake-up only yielded when it
      was safe to. */
  method RunDriver(script: seq<Reaction>)
    returns (log: seq<Event>, replies: seq<Reply>, outcome: Outcome, pauses: seq<nat>)
    ensures Follows(log, script)
    ensures Answered(log, replies)
    ensures outcome != Yielded
    ensures outcome == ScriptOver ==> |log| == |script|
    ensures outcome == Finished ==> |replies| == |Taken(log)| && (Ended(log) || !ChannelOpen(log))
    ensures forall k :: 0 <= k < |pauses| ==> pauses[k] <= |log| && MayYield(log[..pauses[k]], k + 1)
    ensures PausesListed(log, pauses)
  {
    var d := new ClientDriver(script);
    pauses := [];
    while true
      invariant d.Valid() && !Ended(d.log) && d.wake == |pauses| && d.script == script
      invariant forall k :: 0 <= k < |pauses| ==> pauses[k] <= |d.log| && MayYield(d.log[..pauses[k]], k + 1)
      invariant forall j :: 0 <= j < |d.log| ==> 1 <= WakeOf(d.log[j]) <= |pauses|
      invariant PausesListed(d.log, pauses)
      decreases |script| - |d.log|
    {
      ghost var before := d.log;
      outcome := d.Poll();
      forall k | 0 <= k < |pauses|
        ensures d.log[..pauses[k]] == before[..pauses[k]]
      {
      }
      PausesAfterPoll(before, d.log, pauses);
      if outcome != Yielded {
        return d.log, d.replies, outcome, pauses;
      }
      pauses := pauses + [|d.log|];
      assert d.log[..|d.log|] == d.log;
    }
  }

  lemma PausesAfterPoll(before: seq<Event>, log: seq<Event>, pauses: seq<nat>)
    requires before <= log && PausesListed(before, pauses) && InWake(log, |before|, |pauses| + 1)
    requires forall j :: 0 <= j < |before| ==> WakeOf(before[j]) <= |pauses|
    requires forall k :: 0 <= k < |pauses| ==> pauses[k] <= |before|
    ensures PausesListed(log, pauses) && PausesListed(log, pauses + [|log|])
    ensures forall j :: 0 <= j < |log| ==> 1 <= WakeOf(log[j]) <= |pauses| + 1
  {
    forall k, j | 0 <= k < |pauses| && 0 <= j < |log|
      ensures j < pauses[k] <==> WakeOf(log[j]) <= k + 1
    {
      if j < |before| {
        assert log[j] == before[j];
      }
    }
    forall j | 0 <= j < |log|
      ensures 1 <= WakeOf(log[j]) <= |pauses| + 1
    {
      if j < |before| {
        assert log[j] == before[j];
      }
    }
  }
}
