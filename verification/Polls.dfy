/** When a poll of a device code wins it, and what a token was issued for. */
module Polls {
  import opened Options
  import opened Enrollment

  ghost function OneCommand(s: State, id: int): State
  {
    Next(s, PollCommand(id))
  }

  /** Poll `id` makes its next `n` commands without interruption. */
  ghost function Alone(s: State, id: int, n: nat): State
  {
    if n == 0 then s else OneCommand(Alone(s, id, n - 1), id)
  }

  /** The code is indexed, and the hash under its user code stands for it, names a user who approved it
      and, for a poll that enrols, a device. */
  predicate Approvable(s: State, p: Poll)
  {
    && p.deviceCode in s.index && s.index[p.deviceCode] in s.hashes
    && var h := s.hashes[s.index[p.deviceCode]];
       h.deviceCode == Some(p.deviceCode) && h.approvedUser.Some? && (p.enrolls ==> h.deviceId.Some?)
  }

  lemma StaysFinished(s: State, id: int, n: nat)
    requires id in s.polls && s.polls[id].stage == Finished
    ensures Alone(s, id, n) == s
  {
    if n > 0 {
      StaysFinished(s, id, n - 1);
      assert s.polls[id := s.polls[id].(stage := Finished)] == s.polls;
    }
  }

  lemma {:induction false} AloneFrom(s: State, id: int, n: nat, m: nat)
    ensures Alone(Alone(s, id, n), id, m) == Alone(s, id, n + m)
  {
    if m > 0 {
      AloneFrom(s, id, n, m - 1);
    }
  }

  lemma LooksFirst(s: State, id: int)
    requires id in s.polls && s.polls[id].stage == Looking
    ensures var p := s.polls[id]; var stage := if p.deviceCode in s.index then Checking(s.index[p.deviceCode]) else Finished;
      Alone(s, id, 1) == s.(polls := s.polls[id := p.(stage := stage)])
  {
    assert Alone(s, id, 0) == s;
  }

  lemma ThenChecks(s: State, id: int, uc: Code)
    requires id in s.polls && s.polls[id].stage == Checking(uc)
    requires s.polls[id].deviceCode in s.index && s.index[s.polls[id].deviceCode] == uc
    ensures var p := s.polls[id];
      var stage := if Approvable(s, p) then Consuming(s.hashes[uc].approvedUser.value, s.hashes[uc].deviceId) else Finished;
      Alone(s, id, 1) == s.(polls := s.polls[id := p.(stage := stage)])
  {
    assert Alone(s, id, 0) == s;
  }

  lemma ThenWins(s: State, id: int, uc: Code, u: int, d: Option<int>)
    requires id in s.polls && s.polls[id].stage == Consuming(u, d)
    requires s.polls[id].deviceCode in s.index && s.index[s.polls[id].deviceCode] == uc
    ensures var p := s.polls[id]; var s' := Alone(s, id, 3);
      s' == s.(polls := s.polls[id := p.(stage := Won(u, d))], index := s.index - {p.deviceCode}, hashes := s.hashes - {uc},
               wins := s.wins + [Win(p.deviceCode, u, d)])
  {
    var p := s.polls[id];
    var s1 := Alone(s, id, 1);
    assert Alone(s, id, 0) == s;
    assert s1 == s.(polls := s.polls[id := p.(stage := Deleting(u, d, Some(uc)))]);
    var s2 := Alone(s, id, 2);
    assert s2 == s.(polls := s.polls[id := p.(stage := Dropping(u, d, Some(uc), true))], index := s.index - {p.deviceCode},
                    wins := s.wins + [Win(p.deviceCode, u, d)]);
  }

  /** An uninterrupted poll wins exactly if the code is approved for it: it wins for the approved user and
      device, and the code and its hash are used up. Otherwise it changes nothing. */
  lemma AloneWinsIff(s: State, id: int)
    requires id in s.polls && s.polls[id].stage == Looking
    ensures var p, s' := s.polls[id], Alone(s, id, 5);
      if Approvable(s, p) then
        var uc := s.index[p.deviceCode]; var u, d := s.hashes[uc].approvedUser.value, s.hashes[uc].deviceId;
        s' == s.(polls := s.polls[id := p.(stage := Won(u, d))], index := s.index - {p.deviceCode}, hashes := s.hashes - {uc},
                 wins := s.wins + [Win(p.deviceCode, u, d)])
      else s' == s.(polls := s.polls[id := p.(stage := Finished)])
  {
    var p := s.polls[id];
    LooksFirst(s, id);
    var s1 := Alone(s, id, 1);
    AloneFrom(s, id, 1, 4);
    if p.deviceCode !in s.index {
      StaysFinished(s1, id, 4);
    } else {
      var uc := s.index[p.deviceCode];
      CheckedAlone(s1, id, uc);
      assert Approvable(s1, s1.polls[id]) == Approvable(s, p);
      SamePolls(s, id, p, s1.polls[id].stage, if Approvable(s, p) then Won(s.hashes[uc].approvedUser.value, s.hashes[uc].deviceId) else Finished);
    }
  }

  lemma SamePolls(s: State, id: int, p: Poll, a: Stage, b: Stage)
    ensures s.polls[id := p.(stage := a)][id := p.(stage := a).(stage := b)] == s.polls[id := p.(stage := b)]
  {
  }

  lemma CheckedAlone(s: State, id: int, uc: Code)
    requires id in s.polls && s.polls[id].stage == Checking(uc)
    requires s.polls[id].deviceCode in s.index && s.index[s.polls[id].deviceCode] == uc
    ensures var p, s' := s.polls[id], Alone(s, id, 4);
      if Approvable(s, p) then
        var u, d := s.hashes[uc].approvedUser.value, s.hashes[uc].deviceId;
        s' == s.(polls := s.polls[id := p.(stage := Won(u, d))], index := s.index - {p.deviceCode}, hashes := s.hashes - {uc},
                 wins := s.wins + [Win(p.deviceCode, u, d)])
      else s' == s.(polls := s.polls[id := p.(stage := Finished)])
  {
    var p := s.polls[id];
    ThenChecks(s, id, uc);
    var s1 := Alone(s, id, 1);
    AloneFrom(s, id, 1, 3);
    if Approvable(s, p) {
      var u, d := s.hashes[uc].approvedUser.value, s.hashes[uc].deviceId;
      ThenWins(s1, id, uc, u, d);
      SamePolls(s, id, p, Consuming(u, d), Won(u, d));
    } else {
      StaysFinished(s1, id, 3);
    }
  }

  // ------------------------------------------------------------------
  // What tokens were issued for
  // ------------------------------------------------------------------

  /** A poll that is past winning is on record as a winner, and an enrolling one has a device. */
  ghost predicate WinnerOk(s: State, p: Poll)
  {
    match p.stage
    case Consuming(u, d) => p.enrolls ==> d.Some?
    case Deleting(u, d, _) => p.enrolls ==> d.Some?
    case Dropping(u, d, _, won) => (p.enrolls ==> d.Some?) && (won ==> Win(p.deviceCode, u, d) in s.wins)
    case Won(u, d) => (p.enrolls ==> d.Some?) && Win(p.deviceCode, u, d) in s.wins
    case _ => true
  }

  ghost predicate IssuedOk(s: State, t: Token)
  {
    exists w :: w in s.wins && w.user == t.owner && w.device == Some(t.device)
  }

  ghost predicate WinnersOk(s: State)
  {
    && (forall id :: id in s.polls ==> WinnerOk(s, s.polls[id]))
    && (forall t :: t in s.tokens ==> IssuedOk(s, t))
  }

  lemma WinsGrow(s: State, e: Event)
    ensures s.wins <= Next(s, e).wins
  {
  }

  lemma WinnerStays(s: State, s': State, p: Poll)
    requires WinnerOk(s, p) && s.wins <= s'.wins
    ensures WinnerOk(s', p)
  {
    forall w | w in s.wins
      ensures w in s'.wins
    {
      var i :| 0 <= i < |s.wins| && s.wins[i] == w;
      assert s'.wins[i] == w;
    }
  }

  lemma MovedWinner(s: State, id: int)
    requires id in s.polls && WinnerOk(s, s.polls[id])
    ensures WinnerOk(Polled(s, id), s.polls[id].(stage := NextStage(s, s.polls[id])))
  {
    var p := s.polls[id];
    WinnerStays(s, Polled(s, id), p);
  }

  lemma WinnersPolled(s: State, id: int)
    requires WinnersOk(s) && id in s.polls
    ensures WinnersOk(Polled(s, id))
  {
    var s' := Polled(s, id);
    MovedWinner(s, id);
    forall i | i in s'.polls
      ensures WinnerOk(s', s'.polls[i])
    {
      if i != id {
        WinnerStays(s, s', s.polls[i]);
      }
    }
    IssuedStay(s, s');
  }

  lemma IssuedStay(s: State, s': State)
    requires s.wins <= s'.wins && forall t :: t in s.tokens ==> IssuedOk(s, t)
    ensures forall t :: t in s.tokens ==> IssuedOk(s', t)
  {
    forall t | t in s.tokens
      ensures IssuedOk(s', t)
    {
      var w :| w in s.wins && w.user == t.owner && w.device == Some(t.device);
      var i :| 0 <= i < |s.wins| && s.wins[i] == w;
      assert s'.wins[i] in s'.wins;
    }
  }

  lemma WinnersMinted(s: State, id: int, nonce: string)
    requires WinnersOk(s) && MayMint(s, id)
    ensures WinnersOk(Minted(s, id, nonce))
  {
    var s' := Minted(s, id, nonce);
    var p := s.polls[id];
    forall i | i in s'.polls
      ensures WinnerOk(s', s'.polls[i])
    {
      if i != id {
        WinnerStays(s, s', s.polls[i]);
      }
    }
    assert WinnerOk(s, p);
    var w := Win(p.deviceCode, p.stage.user, p.stage.device);
    assert w in s'.wins && w.user == p.stage.user;
    IssuedStay(s, s');
    assert IssuedOk(s', Token(p.stage.user, p.stage.device.value, nonce));
  }

  /** Events that move no poll and issue no token. */
  lemma WinnersQuiet(s: State, e: Event)
    requires WinnersOk(s) && !e.PollCommand? && !e.Mint? && !e.StartPoll?
    ensures WinnersOk(Next(s, e))
  {
    var s' := Next(s, e);
    QuietFrame(s, e);
    forall i | i in s'.polls
      ensures WinnerOk(s', s'.polls[i])
    {
      WinnerStays(s, s', s.polls[i]);
    }
    IssuedStay(s, s');
  }

  lemma QuietDevice(s: State, e: Event)
    requires !e.Mint?
    ensures DeviceStep(s, e).polls == s.polls && DeviceStep(s, e).tokens == s.tokens && DeviceStep(s, e).wins == s.wins
  {
  }

  lemma QuietCode(s: State, e: Event)
    ensures CodeStep(s, e).polls == s.polls && CodeStep(s, e).tokens == s.tokens && CodeStep(s, e).wins == s.wins
  {
  }

  lemma QuietFrame(s: State, e: Event)
    requires !e.PollCommand? && !e.Mint? && !e.StartPoll?
    ensures Next(s, e).polls == s.polls && Next(s, e).tokens == s.tokens && Next(s, e).wins == s.wins
  {
    QuietDevice(s, e);
    QuietCode(s, e);
    ApprovalFrame(s, e);
  }

  lemma StartFrame(s: State, e: Event, i: int)
    requires e.StartPoll? && i in Next(s, e).polls
    ensures Next(s, e).polls[i].stage == Looking || (i in s.polls && Next(s, e).polls[i] == s.polls[i])
  {
  }

  lemma WinnersStarted(s: State, e: Event)
    requires WinnersOk(s) && e.StartPoll?
    ensures WinnersOk(Next(s, e))
  {
    var s' := Next(s, e);
    forall i | i in s'.polls
      ensures WinnerOk(s', s'.polls[i])
    {
      StartFrame(s, e, i);
      if i in s.polls {
        WinnerStays(s, s', s.polls[i]);
      }
    }
    TokensAtStart(s, e);
    IssuedStay(s, s');
  }

  lemma TokensAtStart(s: State, e: Event)
    requires e.StartPoll?
    ensures Next(s, e).tokens == s.tokens && Next(s, e).wins == s.wins
  {
  }

  lemma WinnersKept(s: State, e: Event)
    requires WinnersOk(s)
    ensures WinnersOk(Next(s, e))
  {
    if e.PollCommand? {
      if e.id in s.polls {
        WinnersPolled(s, e.id);
      }
    } else if e.Mint? {
      if MayMint(s, e.id) {
        WinnersMinted(s, e.id, e.nonce);
      }
    } else if e.StartPoll? {
      WinnersStarted(s, e);
    } else {
      WinnersQuiet(s, e);
    }
  }

  lemma {:induction false} RunWinners(events: seq<Event>)
    ensures WinnersOk(Run(events))
  {
    if events != [] {
      RunWinners(events[..|events| - 1]);
      WinnersKept(Run(events[..|events| - 1]), events[|events| - 1]);
    }
  }

  /** Over every run: every device token was issued to the user and for the device of a win, and a poll
      that enrols never wins without a device. */
  lemma TokensFromWins(events: seq<Event>, t: Token, id: int)
    ensures t in Run(events).tokens ==>
      exists w :: w in Run(events).wins && w.user == t.owner && w.device == Some(t.device)
    ensures id in Run(events).polls && Run(events).polls[id].enrolls && Run(events).polls[id].stage.Won? ==>
      Run(events).polls[id].stage.device.Some?
  {
    RunWinners(events);
    if t in Run(events).tokens {
      assert IssuedOk(Run(events), t);
    }
    if id in Run(events).polls {
      assert WinnerOk(Run(events), Run(events).polls[id]);
    }
  }

  /** A token just issued authenticates, if its device still exists. */
  lemma IssuedAuthenticates(s: State, id: int, nonce: string)
    requires MayMint(s, id) && !NonceUsed(s, nonce)
    ensures var p := s.polls[id]; var s' := Next(s, Mint(id, nonce)); var t := Token(p.stage.user, p.stage.device.value, nonce);
      t in s'.tokens && (t.device in s.devices ==> Authenticates(s', t))
  {
  }

  // ------------------------------------------------------------------
  // Approvals and revocations without interruption
  // ------------------------------------------------------------------

  /** The hash with the approval written into it. */
  function WithApproval(h: Hash, a: Approval): Hash
  {
    Hash(h.deviceCode, Some(a.user), if a.device.Some? then a.device else h.deviceId)
  }

  /** An uninterrupted approval is written exactly if the code exists and the device, if it names one, is
      the user's; otherwise no hash changes. */
  lemma AloneApproves(s: State, id: int, a: Approval)
    requires id !in s.approvals
    ensures var s' := Next(Next(Next(s, StartApproval(id, a)), ApproveCheck(id)), ApproveWrite(id));
      && id !in s'.approvals
      && s'.hashes ==
         if a.userCode in s.hashes
            && (a.device.Some? ==> a.device.value in s.devices && s.devices[a.device.value].owner == a.user)
         then s.hashes[a.userCode := WithApproval(s.hashes[a.userCode], a)] else s.hashes
  {
    StartsApproval(s, id, a);
    var s1 := Next(s, StartApproval(id, a));
    if id in s1.approvals {
      ChecksApproval(s1, id);
      var s2 := Next(s1, ApproveCheck(id));
      WritesApproval(s2, id);
    } else {
      NoApproval(s1, id);
    }
  }

  lemma StartsApproval(s: State, id: int, a: Approval)
    requires id !in s.approvals
    ensures var s' := Next(s, StartApproval(id, a));
      && s'.hashes == s.hashes
      && (id in s'.approvals <==> (a.device.Some? ==> a.device.value in s.devices && s.devices[a.device.value].owner == a.user))
      && (id in s'.approvals ==> s'.approvals[id] == Pending(a, false))
  {
  }

  lemma ChecksApproval(s: State, id: int)
    requires id in s.approvals && !s.approvals[id].found
    ensures var s' := Next(s, ApproveCheck(id)); var a := s.approvals[id].approval;
      && s'.hashes == s.hashes
      && (id in s'.approvals <==> a.userCode in s.hashes)
      && (id in s'.approvals ==> s'.approvals[id] == Pending(a, true))
  {
  }

  lemma WritesApproval(s: State, id: int)
    requires id in s.approvals ==> s.approvals[id].found && s.approvals[id].approval.userCode in s.hashes
    ensures var s' := Next(s, ApproveWrite(id));
      && id !in s'.approvals
      && s'.hashes ==
         if id in s.approvals then
           var a := s.approvals[id].approval; s.hashes[a.userCode := WithApproval(s.hashes[a.userCode], a)]
         else s.hashes
  {
  }

  lemma NoApproval(s: State, id: int)
    requires id !in s.approvals
    ensures Next(Next(s, ApproveCheck(id)), ApproveWrite(id)) == s
  {
    assert Next(s, ApproveCheck(id)) == s;
  }

  /** Only its owner can disconnect or delete a device; afterwards no token of it authenticates. */
  lemma OwnersRevoke(s: State, e: Event, t: Token)
    requires e.Disconnect? || e.DeleteDevice?
    ensures e.device !in s.devices || s.devices[e.device].owner != e.owner ==> Next(s, e) == s
    ensures e.device in s.devices && s.devices[e.device].owner == e.owner && t.device == e.device ==> !Authenticates(Next(s, e), t)
    ensures t.device != e.device ==> Authenticates(Next(s, e), t) == Authenticates(s, t)
  {
  }
}
