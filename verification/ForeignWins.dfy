/** When a device code is won for a user who does not own the device it enrols. */
module ForeignWins {
  import opened Options
  import opened History
  import opened Enrollment

  /** The hash under the user code names a device, and as its user someone who does not own it. */
  predicate Foreign(s: State, uc: Code)
  {
    && NamesDevice(s, uc)
    && s.hashes[uc].approvedUser.Some? && s.hashes[uc].approvedUser.value != s.owners[s.hashes[uc].deviceId.value]
  }

  predicate NamesDevice(s: State, uc: Code)
  {
    uc in s.hashes && s.hashes[uc].deviceId.Some? && s.hashes[uc].deviceId.value in s.owners
  }

  /** Every device named by a hash exists or existed. */
  ghost predicate HashesOwned(s: State)
  {
    forall uc :: uc in s.hashes && s.hashes[uc].deviceId.Some? ==> s.hashes[uc].deviceId.value in s.owners
  }

  // ------------------------------------------------------------------
  // Steps
  // ------------------------------------------------------------------

  /** The `HSET` of an approval of this user code. */
  predicate Writes(s: State, e: Event, uc: Code)
  {
    e.ApproveWrite? && e.id in s.approvals && s.approvals[e.id].found && s.approvals[e.id].approval.userCode == uc
  }

  /** A sign-in approval of a user code whose device belongs to someone else. */
  predicate SignsIn(s: State, e: Event, uc: Code)
  {
    && Writes(s, e, uc) && s.approvals[e.id].approval.device == None
    && NamesDevice(s, uc) && s.approvals[e.id].approval.user != s.owners[s.hashes[uc].deviceId.value]
  }

  /** The hash under the user code is made anew, expires, or is dropped by a poll that consumed it. */
  predicate Clears(s: State, e: Event, uc: Code)
  {
    match e
    case CreateHash(u, dc) => u == uc && dc !in s.known
    case ExpireHash(u) => u == uc
    case PollCommand(id) => id in s.polls && s.polls[id].stage.Dropping? && s.polls[id].stage.found == Some(uc)
    case _ => false
  }

  /** Any other approval of the user code: by the owner of its device, for a device, or before one. */
  predicate Resets(s: State, e: Event, uc: Code)
  {
    Clears(s, e, uc) || (Writes(s, e, uc) && !SignsIn(s, e, uc))
  }

  lemma HashAfter(s: State, e: Event, uc: Code)
    ensures var s' := Next(s, e);
      if Clears(s, e, uc) then uc in s'.hashes ==> s'.hashes[uc].approvedUser == None && s'.hashes[uc].deviceId == None
      else if Writes(s, e, uc) then s' == Approved(s, s.approvals[e.id].approval).(approvals := s'.approvals)
      else (uc in s'.hashes <==> uc in s.hashes) && (uc in s.hashes ==> s'.hashes[uc] == s.hashes[uc])
  {
  }

  lemma OwnersGrow(s: State, e: Event)
    ensures forall d :: d in s.owners ==> d in Next(s, e).owners && Next(s, e).owners[d] == s.owners[d]
  {
  }

  lemma HashesOwnedKept(s: State, e: Event)
    requires OwnersOk(s) && HashesOwned(s)
    ensures HashesOwned(Next(s, e))
  {
    OwnersGrow(s, e);
    forall uc | uc in Next(s, e).hashes && Next(s, e).hashes[uc].deviceId.Some?
      ensures Next(s, e).hashes[uc].deviceId.value in Next(s, e).owners
    {
      HashAfter(s, e, uc);
    }
  }

  lemma SameHash(s: State, s': State, uc: Code)
    requires HashesOwned(s) && forall d :: d in s.owners ==> d in s'.owners && s'.owners[d] == s.owners[d]
    requires (uc in s'.hashes <==> uc in s.hashes) && (uc in s.hashes ==> s'.hashes[uc] == s.hashes[uc])
    ensures Foreign(s', uc) == Foreign(s, uc)
  {
    if uc in s.hashes && s.hashes[uc].deviceId.Some? {
      var d := s.hashes[uc].deviceId.value;
      assert s'.hashes[uc] == s.hashes[uc] && s'.hashes[uc].deviceId.value == d;
      assert d in s.owners && d in s'.owners && s'.owners[d] == s.owners[d];
    }
  }

  lemma ForeignWrite(s: State, e: Event, uc: Code)
    requires OwnersOk(s) && Writes(s, e, uc)
    ensures Foreign(Next(s, e), uc) <==> SignsIn(s, e, uc)
  {
    assert OwnersOwn(s.owners, s.approvals[e.id].approval.user, s.approvals[e.id].approval.device);
  }

  /** One command makes the hash foreign exactly by such a sign-in approval, and ends it exactly by a
      reset. */
  lemma ForeignStep(s: State, e: Event, uc: Code)
    requires OwnersOk(s) && HashesOwned(s)
    ensures Foreign(Next(s, e), uc) <==> SignsIn(s, e, uc) || (Foreign(s, uc) && !Resets(s, e, uc))
  {
    if Writes(s, e, uc) {
      ForeignWrite(s, e, uc);
    } else if Clears(s, e, uc) {
      HashAfter(s, e, uc);
    } else {
      HashAfter(s, e, uc);
      OwnersGrow(s, e);
      SameHash(s, Next(s, e), uc);
    }
  }

  /** The hash under the user code names device `d`. */
  predicate Names(s: State, uc: Code, d: int)
  {
    uc in s.hashes && s.hashes[uc].deviceId == Some(d)
  }

  predicate Enrols(s: State, e: Event, uc: Code, d: int)
  {
    Writes(s, e, uc) && s.approvals[e.id].approval.device == Some(d)
  }

  predicate Unnames(s: State, e: Event, uc: Code)
  {
    Clears(s, e, uc) || (Writes(s, e, uc) && s.approvals[e.id].approval.device.Some?)
  }

  lemma NamesStep(s: State, e: Event, uc: Code, d: int)
    ensures Names(Next(s, e), uc, d) <==> Enrols(s, e, uc, d) || (Names(s, uc, d) && !Unnames(s, e, uc))
  {
    HashAfter(s, e, uc);
  }

  // ------------------------------------------------------------------
  // Runs
  // ------------------------------------------------------------------

  ghost function SignIns(events: seq<Event>, uc: Code): (marks: seq<bool>)
    ensures |marks| == |events|
  {
    if events == [] then []
    else
      var before := events[..|events| - 1];
      SignIns(before, uc) + [SignsIn(Run(before), events[|events| - 1], uc)]
  }

  ghost function ResetsOf(events: seq<Event>, uc: Code): (marks: seq<bool>)
    ensures |marks| == |events|
  {
    if events == [] then []
    else
      var before := events[..|events| - 1];
      ResetsOf(before, uc) + [Resets(Run(before), events[|events| - 1], uc)]
  }

  ghost function Enrolments(events: seq<Event>, uc: Code, d: int): (marks: seq<bool>)
    ensures |marks| == |events|
  {
    if events == [] then []
    else
      var before := events[..|events| - 1];
      Enrolments(before, uc, d) + [Enrols(Run(before), events[|events| - 1], uc, d)]
  }

  ghost function Unnamings(events: seq<Event>, uc: Code): (marks: seq<bool>)
    ensures |marks| == |events|
  {
    if events == [] then []
    else
      var before := events[..|events| - 1];
      Unnamings(before, uc) + [Unnames(Run(before), events[|events| - 1], uc)]
  }

  lemma {:induction false} RunOwned(events: seq<Event>)
    ensures HashesOwned(Run(events))
  {
    if events != [] {
      RunOwned(events[..|events| - 1]);
      RunOk(events[..|events| - 1]);
      HashesOwnedKept(Run(events[..|events| - 1]), events[|events| - 1]);
    }
  }

  /** In every run, a user code stands for a device and a user who does not own it exactly if someone
      who does not own the device its hash named made a sign-in approval of it, and since then it was
      neither approved otherwise nor created anew, expired or dropped. */
  lemma {:induction false} ForeignIff(events: seq<Event>, uc: Code)
    ensures Foreign(Run(events), uc) <==> Since(SignIns(events, uc), ResetsOf(events, uc))
  {
    if events != [] {
      var before, e := events[..|events| - 1], events[|events| - 1];
      ForeignIff(before, uc);
      RunOk(before);
      RunOwned(before);
      ForeignStep(Run(before), e, uc);
      SinceStep(SignIns(before, uc), ResetsOf(before, uc), SignsIn(Run(before), e, uc), Resets(Run(before), e, uc));
    }
  }

  /** In every run, the hash under a user code names a device exactly if an enrolment approval of it
      for that device was written, and since then it had none for another device and was neither
      created anew nor expired nor dropped. */
  lemma {:induction false} NamesIff(events: seq<Event>, uc: Code, d: int)
    ensures Names(Run(events), uc, d) <==> Since(Enrolments(events, uc, d), Unnamings(events, uc))
  {
    if events != [] {
      var before, e := events[..|events| - 1], events[|events| - 1];
      NamesIff(before, uc, d);
      NamesStep(Run(before), e, uc, d);
      SinceStep(Enrolments(before, uc, d), Unnamings(before, uc), Enrols(Run(before), e, uc, d), Unnames(Run(before), e, uc));
    }
  }

  // ------------------------------------------------------------------
  // Wins
  // ------------------------------------------------------------------

  /** Poll `id`, about to read the hash, found the approval of `user` for device `d` there. */
  predicate Takes(s: State, id: int, uc: Code, user: int, d: int)
  {
    && id in s.polls && s.polls[id].stage == Checking(uc)
    && NextStage(s, s.polls[id]) == Consuming(user, Some(d))
  }

  /** What a poll takes is for the device's owner exactly unless the hash it reads is foreign. */
  lemma TakesForeignIff(events: seq<Event>, id: int, uc: Code, user: int, d: int)
    requires Takes(Run(events), id, uc, user, d)
    ensures d in Run(events).owners
    ensures user != Run(events).owners[d] <==> Since(SignIns(events, uc), ResetsOf(events, uc))
  {
    RunOwned(events);
    ForeignIff(events, uc);
  }

  /** At the `n`-th command a poll of the device code took the approval of `user` for `d`. */
  ghost predicate TookAt(events: seq<Event>, n: nat, id: int, uc: Code, dc: Code, user: int, d: int)
    requires n < |events|
  {
    && events[n] == PollCommand(id)
    && Takes(Run(events[..n]), id, uc, user, d)
    && Run(events[..n]).polls[id].deviceCode == dc
  }

  ghost predicate Took(events: seq<Event>, dc: Code, user: int, d: int)
  {
    exists n, id, uc :: 0 <= n < |events| && TookAt(events, n, id, uc, dc, user, d)
  }

  ghost predicate StageTook(events: seq<Event>, p: Poll)
  {
    match p.stage
    case Consuming(u, d) => d.Some? ==> Took(events, p.deviceCode, u, d.value)
    case Deleting(u, d, _) => d.Some? ==> Took(events, p.deviceCode, u, d.value)
    case Dropping(u, d, _, _) => d.Some? ==> Took(events, p.deviceCode, u, d.value)
    case Won(u, d) => d.Some? ==> Took(events, p.deviceCode, u, d.value)
    case _ => true
  }

  ghost predicate WinTook(events: seq<Event>, w: Win)
  {
    w.device.Some? ==> Took(events, w.deviceCode, w.user, w.device.value)
  }

  ghost predicate AllTook(events: seq<Event>, s: State)
  {
    && (forall id :: id in s.polls ==> StageTook(events, s.polls[id]))
    && (forall i :: 0 <= i < |s.wins| ==> WinTook(events, s.wins[i]))
  }

  lemma TookStays(events: seq<Event>, e: Event, dc: Code, user: int, d: int)
    requires Took(events, dc, user, d)
    ensures Took(events + [e], dc, user, d)
  {
    var n, id, uc :| 0 <= n < |events| && TookAt(events, n, id, uc, dc, user, d);
    assert (events + [e])[..n] == events[..n];
    assert TookAt(events + [e], n, id, uc, dc, user, d);
  }

  lemma StageTookStays(events: seq<Event>, e: Event, p: Poll)
    requires StageTook(events, p)
    ensures StageTook(events + [e], p)
  {
    match p.stage
    case Consuming(u, d) => if d.Some? { TookStays(events, e, p.deviceCode, u, d.value); }
    case Deleting(u, d, _) => if d.Some? { TookStays(events, e, p.deviceCode, u, d.value); }
    case Dropping(u, d, _, _) => if d.Some? { TookStays(events, e, p.deviceCode, u, d.value); }
    case Won(u, d) => if d.Some? { TookStays(events, e, p.deviceCode, u, d.value); }
    case _ =>
  }

  /** The poll that moves. */
  lemma MoverTook(events: seq<Event>, id: int)
    requires id in Run(events).polls && StageTook(events, Run(events).polls[id])
    ensures var p := Run(events).polls[id];
      StageTook(events + [PollCommand(id)], p.(stage := NextStage(Run(events), p)))
  {
    var s := Run(events);
    var p := s.polls[id];
    var e := PollCommand(id);
    StageTookStays(events, e, p);
    if p.stage.Checking? && NextStage(s, p).Consuming? && NextStage(s, p).device.Some? {
      var u, d := NextStage(s, p).user, NextStage(s, p).device.value;
      assert (events + [e])[..|events|] == events;
      assert TookAt(events + [e], |events|, id, p.stage.userCode, p.deviceCode, u, d);
    }
  }

  lemma PollsStay(s: State, e: Event)
    requires !e.PollCommand? && !e.StartPoll? && !e.Mint?
    ensures Next(s, e).polls == s.polls
  {
  }

  lemma PolledAfter(s: State, id: int, i: int)
    requires id in s.polls && i in Polled(s, id).polls
    ensures i in s.polls
    ensures Polled(s, id).polls[i] == if i == id then s.polls[i].(stage := NextStage(s, s.polls[i])) else s.polls[i]
  {
  }

  lemma MintAfter(s: State, e: Event, i: int)
    requires e.Mint? && i in DeviceStep(s, e).polls
    ensures i in s.polls
    ensures DeviceStep(s, e).polls[i] == s.polls[i] || DeviceStep(s, e).polls[i].stage == Finished
  {
  }

  /** A command moves at most the one poll it belongs to. */
  lemma PollsAfter(s: State, e: Event, id: int)
    requires id in Next(s, e).polls
    ensures var p' := Next(s, e).polls[id];
      || p'.stage == Looking || p'.stage == Finished
      || (id in s.polls && p' == s.polls[id])
      || (id in s.polls && e == PollCommand(id) && p' == s.polls[id].(stage := NextStage(s, s.polls[id])))
  {
    if e.PollCommand? {
      if e.id in s.polls {
        PolledAfter(s, e.id, id);
      }
    } else if e.Mint? {
      MintAfter(s, e, id);
    } else if !e.StartPoll? {
      PollsStay(s, e);
    }
  }

  lemma WinsAfter(s: State, e: Event)
    ensures Next(s, e).wins == s.wins
      || (e.PollCommand? && e.id in s.polls && s.polls[e.id].stage.Deleting?
          && Next(s, e).wins == s.wins + [Win(s.polls[e.id].deviceCode, s.polls[e.id].stage.user, s.polls[e.id].stage.device)])
  {
  }

  lemma PollsTook(events: seq<Event>, e: Event)
    requires AllTook(events, Run(events))
    ensures forall id :: id in Next(Run(events), e).polls ==> StageTook(events + [e], Next(Run(events), e).polls[id])
  {
    var s := Run(events);
    forall id | id in Next(s, e).polls
      ensures StageTook(events + [e], Next(s, e).polls[id])
    {
      PollsAfter(s, e, id);
      if id in s.polls {
        StageTookStays(events, e, s.polls[id]);
        if e == PollCommand(id) {
          MoverTook(events, id);
        }
      }
    }
  }

  lemma WinsTook(events: seq<Event>, e: Event)
    requires AllTook(events, Run(events))
    ensures forall i :: 0 <= i < |Next(Run(events), e).wins| ==> WinTook(events + [e], Next(Run(events), e).wins[i])
  {
    var s := Run(events);
    WinsAfter(s, e);
    forall i | 0 <= i < |Next(s, e).wins|
      ensures WinTook(events + [e], Next(s, e).wins[i])
    {
      var w := Next(s, e).wins[i];
      if i < |s.wins| {
        assert WinTook(events, s.wins[i]);
      } else {
        assert StageTook(events, s.polls[e.id]);
      }
      if w.device.Some? {
        TookStays(events, e, w.deviceCode, w.user, w.device.value);
      }
    }
  }

  lemma StepTook(events: seq<Event>, e: Event)
    requires AllTook(events, Run(events))
    ensures AllTook(events + [e], Run(events + [e]))
  {
    RunSnoc(events, e);
    PollsTook(events, e);
    WinsTook(events, e);
  }

  lemma {:induction false} RunTook(events: seq<Event>)
    ensures AllTook(events, Run(events))
  {
    if events != [] {
      var before := events[..|events| - 1];
      RunTook(before);
      StepTook(before, events[|events| - 1]);
      assert before + [events[|events| - 1]] == events;
    }
  }

  lemma {:induction false} OwnersStay(events: seq<Event>, n: nat, d: int)
    requires n <= |events| && d in Run(events[..n]).owners
    ensures d in Run(events).owners && Run(events).owners[d] == Run(events[..n]).owners[d]
    decreases |events|
  {
    if n < |events| {
      var before := events[..|events| - 1];
      assert before[..n] == events[..n];
      OwnersStay(before, n, d);
      OwnersGrow(Run(before), events[|events| - 1]);
    } else {
      assert events[..n] == events;
    }
  }

  /** In every run, a poll that wins a device code for a device took the approval off a user code's
      hash at some command, and whenever it was, it wins for someone other than the device's owner
      exactly if such a sign-in approval of that user code had been made by then and not been reset. */
  lemma WinnerForeignIff(events: seq<Event>, i: nat, d: int)
    requires i < |Run(events).wins| && Run(events).wins[i].device == Some(d)
    ensures var w := Run(events).wins[i];
      && Took(events, w.deviceCode, w.user, d)
      && d in Run(events).owners
      && forall n, id, uc :: 0 <= n < |events| && TookAt(events, n, id, uc, w.deviceCode, w.user, d) ==>
        (w.user != Run(events).owners[d] <==> Since(SignIns(events[..n], uc), ResetsOf(events[..n], uc)))
  {
    var w := Run(events).wins[i];
    RunTook(events);
    assert WinTook(events, w);
    forall n, id, uc | 0 <= n < |events| && TookAt(events, n, id, uc, w.deviceCode, w.user, d)
      ensures d in Run(events).owners
      ensures w.user != Run(events).owners[d] <==> Since(SignIns(events[..n], uc), ResetsOf(events[..n], uc))
    {
      TakesForeignIff(events[..n], id, uc, w.user, d);
      OwnersStay(events, n, d);
    }
  }
}
