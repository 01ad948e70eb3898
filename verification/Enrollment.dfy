/** Device codes (section 3.5 of RFC 8628) and device tokens: creations, approvals, polls and
    expiries as single Redis commands of concurrent callers, in any interleaving. */
module Enrollment {
  import opened Options

  type Code = string

  /** The hash under a user code. An approval that arrives after the hash is gone leaves one
      without a device code. */
  datatype Hash = Hash(deviceCode: Option<Code>, approvedUser: Option<int>, deviceId: Option<int>)

  /** Where a poll stands, between two commands. */
  datatype Stage =
    | Looking
    | Checking(userCode: Code)
    | Consuming(user: int, device: Option<int>)
    | Deleting(user: int, device: Option<int>, found: Option<Code>)
    | Dropping(user: int, device: Option<int>, found: Option<Code>, won: bool)
    | Won(user: int, device: Option<int>)
    | Finished

  /** `enrolls` polls need an approved device, sign-in polls an approved user only. */
  datatype Poll = Poll(deviceCode: Code, enrolls: bool, stage: Stage)

  /** A sign-in approval names a user, an enrolment approval a user and a device. */
  datatype Approval = Approval(userCode: Code, user: int, device: Option<int>)

  /** An approval under way: its device was found to be the user's own; `found` once the code was
      found to exist. */
  datatype Pending = Pending(approval: Approval, found: bool)

  /** An approval written while its user code stood for the device code. */
  datatype Record = Record(deviceCode: Code, user: int, device: Option<int>)

  datatype Win = Win(deviceCode: Code, user: int, device: Option<int>)

  datatype DeviceRow = DeviceRow(owner: int, tokenFp: Option<string>)

  datatype Token = Token(owner: int, device: int, nonce: string)

  /** `creating` are codes whose index key is not set yet. The history is recorded beside it: the
      owner each device was created for, the device codes ever used, the approvals written, the
      polls that won, and the tokens issued and those revoked since. */
  datatype State = State(hashes: map<Code, Hash>, index: map<Code, Code>, creating: map<Code, Code>,
                         polls: map<int, Poll>, approvals: map<int, Pending>,
                         devices: map<int, DeviceRow>, owners: map<int, int>,
                         known: set<Code>, records: set<Record>,
                         wins: seq<Win>, tokens: set<Token>, revoked: set<string>)

  datatype Event =
    | CreateHash(userCode: Code, deviceCode: Code)
    | CreateIndex(deviceCode: Code)
    | StartApproval(id: int, approval: Approval)
    | ApproveCheck(id: int)
    | ApproveWrite(id: int)
    | StartPoll(id: int, deviceCode: Code, enrolls: bool)
    | PollCommand(id: int)
    | ExpireHash(userCode: Code)
    | ExpireIndex(deviceCode: Code)
    | Mint(id: int, nonce: string)
    | AddDevice(device: int, owner: int)
    | Disconnect(device: int, owner: int)
    | DeleteDevice(device: int, owner: int)

  function Init(): State
  {
    State(map[], map[], map[], map[], map[], map[], map[], {}, {}, [], {}, {})
  }

  // ------------------------------------------------------------------
  // Commands
  // ------------------------------------------------------------------

  /** `HSET` of an approval: of the user alone, or of user and device together. */
  function Approved(s: State, a: Approval): State
  {
    var h := if a.userCode in s.hashes then s.hashes[a.userCode] else Hash(None, None, None);
    var h' := h.(approvedUser := Some(a.user), deviceId := if a.device.Some? then a.device else h.deviceId);
    s.(hashes := s.hashes[a.userCode := h'],
       records := if h.deviceCode.Some? then s.records + {Record(h.deviceCode.value, a.user, a.device)} else s.records)
  }

  /** What `devcode_status` and the caller conclude from the hash. */
  function Checked(s: State, p: Poll, userCode: Code): Stage
  {
    if userCode !in s.hashes then Finished
    else
      var h := s.hashes[userCode];
      if h.deviceCode != Some(p.deviceCode) || h.approvedUser == None || (p.enrolls && h.deviceId == None) then Finished
      else Consuming(h.approvedUser.value, h.deviceId)
  }

  function Lookup(m: map<Code, Code>, k: Code): Option<Code>
  {
    if k in m then Some(m[k]) else None
  }

  function SetStage(s: State, id: int, stage: Stage): State
    requires id in s.polls
  {
    s.(polls := s.polls[id := s.polls[id].(stage := stage)])
  }

  /** Where a poll goes after its next command: `devcode_status`, then `devcode_consume`. */
  function NextStage(s: State, p: Poll): Stage
  {
    match p.stage
    case Looking => if p.deviceCode in s.index then Checking(s.index[p.deviceCode]) else Finished
    case Checking(uc) => Checked(s, p, uc)
    case Consuming(u, d) => Deleting(u, d, Lookup(s.index, p.deviceCode))
    case Deleting(u, d, uc) => Dropping(u, d, uc, p.deviceCode in s.index)
    case Dropping(u, d, uc, won) => if won then Won(u, d) else Finished
    case _ => p.stage
  }

  /** The one `DEL` of the index key that finds it. */
  predicate Wins(s: State, p: Poll)
  {
    p.stage.Deleting? && p.deviceCode in s.index
  }

  function Polled(s: State, id: int): State
    requires id in s.polls
  {
    var p := s.polls[id];
    SetStage(s, id, NextStage(s, p))
      .(index := if p.stage.Deleting? then s.index - {p.deviceCode} else s.index,
        wins := if Wins(s, p) then s.wins + [Win(p.deviceCode, p.stage.user, p.stage.device)] else s.wins,
        hashes := if p.stage.Dropping? && p.stage.found.Some? then s.hashes - {p.stage.found.value} else s.hashes)
  }

  function NoncesOf(s: State, device: int): set<string>
  {
    set t | t in s.tokens && t.device == device :: t.nonce
  }

  ghost predicate NonceUsed(s: State, nonce: string)
  {
    exists t :: t in s.tokens && t.nonce == nonce
  }

  /** An enrolling poll has won the code for a device. */
  predicate MayMint(s: State, id: int)
  {
    id in s.polls && s.polls[id].enrolls && s.polls[id].stage.Won? && s.polls[id].stage.device.Some?
  }

  /** `set_device_token` and the token issued with the nonce. Every earlier token of the device is
      thereby revoked. Nonces are drawn once. */
  ghost function Minted(s: State, id: int, nonce: string): State
    requires MayMint(s, id)
  {
    var d := s.polls[id].stage.device.value;
    if NonceUsed(s, nonce) then s
    else
      SetStage(s, id, Finished)
        .(devices := if d in s.devices then s.devices[d := s.devices[d].(tokenFp := Some(nonce))] else s.devices,
          tokens := s.tokens + {Token(s.polls[id].stage.user, d, nonce)},
          revoked := s.revoked + NoncesOf(s, d))
  }

  predicate OwnsDevice(s: State, device: int, owner: int)
  {
    device in s.devices && s.devices[device].owner == owner
  }

  /** Creating a code, and the expiry of its keys. */
  function CodeStep(s: State, e: Event): State
  {
    match e
    case CreateHash(uc, dc) =>
      if dc in s.known then s
      else s.(known := s.known + {dc}, creating := s.creating[dc := uc], hashes := s.hashes[uc := Hash(Some(dc), None, None)])
    case CreateIndex(dc) =>
      if dc !in s.creating then s
      else s.(index := s.index[dc := s.creating[dc]], creating := s.creating - {dc})
    case ExpireHash(uc) => s.(hashes := s.hashes - {uc})
    case ExpireIndex(dc) => s.(index := s.index - {dc})
    case _ => s
  }

  /** Approving: the ownership check of an enrolment approval, then `EXISTS`, then `HSET`. */
  function ApprovalStep(s: State, e: Event): State
  {
    match e
    case StartApproval(id, a) =>
      if id in s.approvals || (a.device.Some? && !OwnsDevice(s, a.device.value, a.user)) then s
      else s.(approvals := s.approvals[id := Pending(a, false)])
    case ApproveCheck(id) =>
      if id !in s.approvals then s
      else if s.approvals[id].approval.userCode in s.hashes then
        s.(approvals := s.approvals[id := s.approvals[id].(found := true)])
      else s.(approvals := s.approvals - {id})
    case ApproveWrite(id) =>
      if id !in s.approvals || !s.approvals[id].found then s
      else Approved(s, s.approvals[id].approval).(approvals := s.approvals - {id})
    case _ => s
  }

  /** Devices and their tokens. */
  ghost function DeviceStep(s: State, e: Event): State
  {
    match e
    case Mint(id, nonce) =>
      if MayMint(s, id) then Minted(s, id, nonce) else s
    case AddDevice(d, owner) =>
      if d in s.owners then s
      else s.(devices := s.devices[d := DeviceRow(owner, None)], owners := s.owners[d := owner])
    case Disconnect(d, owner) =>
      if !OwnsDevice(s, d, owner) then s
      else s.(devices := s.devices[d := s.devices[d].(tokenFp := None)], revoked := s.revoked + NoncesOf(s, d))
    case DeleteDevice(d, owner) =>
      if !OwnsDevice(s, d, owner) then s
      else s.(devices := s.devices - {d}, revoked := s.revoked + NoncesOf(s, d))
    case _ => s
  }

  ghost function Next(s: State, e: Event): State
  {
    match e
    case CreateHash(_, _) => CodeStep(s, e)
    case CreateIndex(_) => CodeStep(s, e)
    case ExpireHash(_) => CodeStep(s, e)
    case ExpireIndex(_) => CodeStep(s, e)
    case StartApproval(_, _) => ApprovalStep(s, e)
    case ApproveCheck(_) => ApprovalStep(s, e)
    case ApproveWrite(_) => ApprovalStep(s, e)
    case StartPoll(id, dc, enrolls) =>
      if id in s.polls then s else s.(polls := s.polls[id := Poll(dc, enrolls, Looking)])
    case PollCommand(id) => if id in s.polls then Polled(s, id) else s
    case _ => DeviceStep(s, e)
  }

  ghost function Run(events: seq<Event>): State
  {
    if events == [] then Init() else Next(Run(events[..|events| - 1]), events[|events| - 1])
  }

  /** The check on a device token: its nonce is the one stored for its device. */
  predicate Authenticates(s: State, t: Token)
  {
    t.device in s.devices && s.devices[t.device].tokenFp == Some(t.nonce)
  }

  // ------------------------------------------------------------------
  // Invariants
  // ------------------------------------------------------------------

  /** Which pairs approvals of a device code leave behind: those of one approval, or the user of a
      sign-in approval with the device of an enrolment approval that some user made. */
  ghost predicate Recorded(s: State, dc: Code, user: int, device: Option<int>)
  {
    Record(dc, user, device) in s.records
    || (device.Some? && Record(dc, user, None) in s.records && exists v :: Record(dc, v, device) in s.records)
  }

  /** A hash holds only approvals made while it stood for its device code. */
  ghost predicate HashOk(s: State, h: Hash)
  {
    && (h.approvedUser == None ==> h.deviceId == None)
    && (h.deviceCode.Some? && h.approvedUser.Some? ==> Recorded(s, h.deviceCode.value, h.approvedUser.value, h.deviceId))
  }

  /** Enrolment approvals are made by the owner of the device. */
  ghost predicate OwnersOk(s: State)
  {
    && (forall d :: d in s.devices ==> d in s.owners && s.owners[d] == s.devices[d].owner)
    && (forall id :: id in s.approvals ==> OwnersOwn(s.owners, s.approvals[id].approval.user, s.approvals[id].approval.device))
    && (forall r :: r in s.records ==> OwnersOwn(s.owners, r.user, r.device))
  }

  predicate OwnersOwn(owners: map<int, int>, user: int, device: Option<int>)
  {
    device.Some? ==> device.value in owners && owners[device.value] == user
  }

  ghost predicate PollOk(s: State, p: Poll)
  {
    match p.stage
    case Consuming(u, d) => Recorded(s, p.deviceCode, u, d)
    case Deleting(u, d, _) => Recorded(s, p.deviceCode, u, d)
    case Dropping(u, d, _, _) => Recorded(s, p.deviceCode, u, d)
    case Won(u, d) => Recorded(s, p.deviceCode, u, d)
    case _ => true
  }

  ghost predicate HasWon(s: State, dc: Code)
  {
    exists i :: 0 <= i < |s.wins| && s.wins[i].deviceCode == dc
  }

  ghost predicate ApprovalsOk(s: State)
  {
    && (forall uc :: uc in s.hashes ==> HashOk(s, s.hashes[uc]))
    && (forall id :: id in s.polls ==> PollOk(s, s.polls[id]))
    && (forall i :: 0 <= i < |s.wins| ==> Recorded(s, s.wins[i].deviceCode, s.wins[i].user, s.wins[i].device))
  }

  /** A device code is first being created, then indexed, then won at most once. */
  ghost predicate CodesOk(s: State)
  {
    && (forall dc :: dc in s.creating ==> dc in s.known && dc !in s.index && !HasWon(s, dc))
    && (forall dc :: dc in s.index ==> dc in s.known && !HasWon(s, dc))
    && (forall i :: 0 <= i < |s.wins| ==> s.wins[i].deviceCode in s.known)
    && (forall i, j :: 0 <= i < j < |s.wins| ==> s.wins[i].deviceCode != s.wins[j].deviceCode)
  }

  ghost predicate TokensOk(s: State)
  {
    && (forall t, u :: t in s.tokens && u in s.tokens && t.nonce == u.nonce ==> t == u)
    && (forall n :: n in s.revoked ==> NonceUsed(s, n))
    && (forall d :: d in s.devices && s.devices[d].tokenFp.Some? ==>
          s.devices[d].tokenFp.value !in s.revoked
          && exists t :: t in s.tokens && t.device == d && t.nonce == s.devices[d].tokenFp.value)
  }

  // ------------------------------------------------------------------
  // Approvals
  // ------------------------------------------------------------------

  /** More approvals on record harm nothing. */
  lemma RecordGrows(s: State, s': State)
    requires ApprovalsOk(s) && s.records <= s'.records
    requires s'.polls == s.polls && s'.wins == s.wins
    requires forall uc :: uc in s'.hashes ==> HashOk(s', s'.hashes[uc])
    ensures ApprovalsOk(s')
  {
    forall id | id in s'.polls
      ensures PollOk(s', s'.polls[id])
    {
      assert PollOk(s, s.polls[id]);
    }
    forall i | 0 <= i < |s'.wins|
      ensures Recorded(s', s'.wins[i].deviceCode, s'.wins[i].user, s'.wins[i].device)
    {
      assert Recorded(s, s.wins[i].deviceCode, s.wins[i].user, s.wins[i].device);
    }
  }

  lemma RecordedStays(s: State, s': State, h: Hash)
    requires HashOk(s, h) && s.records <= s'.records
    ensures HashOk(s', h)
    ensures h.deviceCode.Some? && h.deviceId.Some? ==> exists v :: Record(h.deviceCode.value, v, h.deviceId) in s'.records
  {
  }

  lemma ApprovedKeeps(s: State, a: Approval)
    requires ApprovalsOk(s)
    ensures ApprovalsOk(Approved(s, a))
  {
    var s' := Approved(s, a);
    forall uc | uc in s'.hashes
      ensures HashOk(s', s'.hashes[uc])
    {
      if uc in s.hashes {
        assert HashOk(s, s.hashes[uc]);
        RecordedStays(s, s', s.hashes[uc]);
      }
    }
    RecordGrows(s, s');
  }

  lemma StageKeeps(s: State, id: int, stage: Stage)
    requires ApprovalsOk(s) && id in s.polls && PollOk(s, s.polls[id].(stage := stage))
    ensures ApprovalsOk(SetStage(s, id, stage))
  {
    var s' := SetStage(s, id, stage);
    forall uc | uc in s'.hashes
      ensures HashOk(s', s'.hashes[uc])
    {
      assert HashOk(s, s.hashes[uc]);
    }
    forall i | i in s'.polls
      ensures PollOk(s', s'.polls[i])
    {
      if i != id {
        assert PollOk(s, s.polls[i]);
      }
    }
  }

  lemma CheckedRecorded(s: State, p: Poll, uc: Code)
    requires ApprovalsOk(s)
    ensures PollOk(s, p.(stage := Checked(s, p, uc)))
  {
    if uc in s.hashes {
      assert HashOk(s, s.hashes[uc]);
    }
  }

  lemma NextStageRecorded(s: State, p: Poll)
    requires ApprovalsOk(s) && PollOk(s, p)
    ensures PollOk(s, p.(stage := NextStage(s, p)))
  {
    if p.stage.Checking? {
      CheckedRecorded(s, p, p.stage.userCode);
    }
  }

  lemma PolledKeeps(s: State, id: int)
    requires ApprovalsOk(s) && id in s.polls
    ensures ApprovalsOk(Polled(s, id))
  {
    var p := s.polls[id];
    assert PollOk(s, p);
    NextStageRecorded(s, p);
    StageKeeps(s, id, NextStage(s, p));
    var staged := SetStage(s, id, NextStage(s, p));
    var index := if p.stage.Deleting? then s.index - {p.deviceCode} else s.index;
    if Wins(s, p) {
      WinKeeps(staged, index, Win(p.deviceCode, p.stage.user, p.stage.device));
    } else {
      FewerHashes(staged, Polled(s, id));
    }
  }

  lemma WinKeeps(s: State, index: map<Code, Code>, w: Win)
    requires ApprovalsOk(s) && Recorded(s, w.deviceCode, w.user, w.device)
    ensures ApprovalsOk(s.(index := index, wins := s.wins + [w]))
  {
    var s' := s.(index := index, wins := s.wins + [w]);
    forall uc | uc in s.hashes
      ensures HashOk(s', s.hashes[uc])
    {
      assert HashOk(s, s.hashes[uc]);
    }
    forall i | i in s.polls
      ensures PollOk(s', s.polls[i])
    {
      assert PollOk(s, s.polls[i]);
    }
    forall i | 0 <= i < |s.wins|
      ensures Recorded(s', s.wins[i].deviceCode, s.wins[i].user, s.wins[i].device)
    {
      assert Recorded(s, s.wins[i].deviceCode, s.wins[i].user, s.wins[i].device);
    }
  }

  /** Dropping hashes, and any change outside the code protocol, keeps what is recorded. */
  lemma FewerHashes(s: State, s': State)
    requires ApprovalsOk(s) && s'.records == s.records
    requires s'.polls == s.polls && s'.wins == s.wins
    requires forall uc :: uc in s'.hashes ==> uc in s.hashes && s'.hashes[uc] == s.hashes[uc]
    ensures ApprovalsOk(s')
  {
    forall uc | uc in s'.hashes
      ensures HashOk(s', s'.hashes[uc])
    {
      assert HashOk(s, s.hashes[uc]);
    }
    RecordGrows(s, s');
  }

  lemma CodeStepKeeps(s: State, e: Event)
    requires ApprovalsOk(s)
    ensures ApprovalsOk(CodeStep(s, e))
  {
    var s' := CodeStep(s, e);
    forall c | c in s'.hashes
      ensures HashOk(s', s'.hashes[c])
    {
      if c in s.hashes {
        assert HashOk(s, s.hashes[c]);
      }
    }
    RecordGrows(s, s');
  }

  lemma ApprovalStepKeeps(s: State, e: Event)
    requires ApprovalsOk(s)
    ensures ApprovalsOk(ApprovalStep(s, e))
  {
    if e.ApproveWrite? && e.id in s.approvals && s.approvals[e.id].found {
      ApprovedKeeps(s, s.approvals[e.id].approval);
      FewerHashes(Approved(s, s.approvals[e.id].approval), ApprovalStep(s, e));
    } else {
      FewerHashes(s, ApprovalStep(s, e));
    }
  }

  lemma StartedKeeps(s: State, id: int, dc: Code, enrolls: bool)
    requires ApprovalsOk(s) && id !in s.polls
    ensures ApprovalsOk(s.(polls := s.polls[id := Poll(dc, enrolls, Looking)]))
  {
    var s' := s.(polls := s.polls[id := Poll(dc, enrolls, Looking)]);
    forall uc | uc in s'.hashes
      ensures HashOk(s', s'.hashes[uc])
    {
      assert HashOk(s, s.hashes[uc]);
    }
    forall i | i in s'.polls
      ensures PollOk(s', s'.polls[i])
    {
      if i != id {
        assert PollOk(s, s.polls[i]);
      }
    }
  }

  lemma MintedKeepsApprovals(s: State, id: int, nonce: string)
    requires ApprovalsOk(s) && MayMint(s, id)
    ensures ApprovalsOk(Minted(s, id, nonce))
  {
    StageKeeps(s, id, Finished);
    if !NonceUsed(s, nonce) {
      FewerHashes(SetStage(s, id, Finished), Minted(s, id, nonce));
    }
  }

  lemma DeviceStepKeeps(s: State, e: Event)
    requires ApprovalsOk(s)
    ensures ApprovalsOk(DeviceStep(s, e))
  {
    if e.Mint? && MayMint(s, e.id) {
      MintedKeepsApprovals(s, e.id, e.nonce);
    } else {
      FewerHashes(s, DeviceStep(s, e));
    }
  }

  lemma ApprovalsKept(s: State, e: Event)
    requires ApprovalsOk(s)
    ensures ApprovalsOk(Next(s, e))
  {
    CodeStepKeeps(s, e);
    ApprovalStepKeeps(s, e);
    DeviceStepKeeps(s, e);
    if e.StartPoll? && e.id !in s.polls {
      StartedKeeps(s, e.id, e.deviceCode, e.enrolls);
    } else if e.PollCommand? && e.id in s.polls {
      PolledKeeps(s, e.id);
    }
  }

  // ------------------------------------------------------------------
  // Codes
  // ------------------------------------------------------------------

  lemma WonCode(s: State, index: map<Code, Code>, w: Win)
    requires CodesOk(s) && w.deviceCode in s.index && index == s.index - {w.deviceCode}
    ensures CodesOk(s.(index := index, wins := s.wins + [w]))
  {
    var s' := s.(index := index, wins := s.wins + [w]);
    forall dc
      ensures HasWon(s', dc) ==> HasWon(s, dc) || dc == w.deviceCode
    {
      if i :| 0 <= i < |s'.wins| && s'.wins[i].deviceCode == dc {
        if i < |s.wins| {
          assert s.wins[i].deviceCode == dc;
        }
      }
    }
    forall i | 0 <= i < |s.wins|
      ensures s.wins[i].deviceCode != w.deviceCode
    {
      assert !HasWon(s, w.deviceCode);
    }
  }

  lemma SameWins(s: State, s': State)
    requires s'.wins == s.wins
    ensures forall dc :: HasWon(s', dc) == HasWon(s, dc)
  {
  }

  lemma NewCodeHasNotWon(s: State, dc: Code)
    requires CodesOk(s) && dc !in s.known
    ensures !HasWon(s, dc) && dc !in s.index
  {
  }

  /** Changes that neither create, index nor win a code. */
  lemma SameCodes(s: State, s': State)
    requires CodesOk(s) && s'.wins == s.wins && s'.known == s.known && s'.creating == s.creating
    requires s'.index.Keys <= s.index.Keys
    ensures CodesOk(s')
  {
    SameWins(s, s');
  }

  lemma DeletedCodes(s: State, id: int)
    requires CodesOk(s) && id in s.polls && Wins(s, s.polls[id])
    ensures CodesOk(Polled(s, id))
  {
    var p := s.polls[id];
    var staged := SetStage(s, id, NextStage(s, p));
    SameCodes(s, staged);
    WonCode(staged, s.index - {p.deviceCode}, Win(p.deviceCode, p.stage.user, p.stage.device));
  }

  /** What a poll's command leaves alone. */
  lemma PolledFrame(s: State, id: int)
    requires id in s.polls
    ensures var s' := Polled(s, id);
      && s'.known == s.known && s'.creating == s.creating && s'.index.Keys <= s.index.Keys
      && s'.tokens == s.tokens && s'.revoked == s.revoked && s'.devices == s.devices
      && s'.owners == s.owners && s'.records == s.records && s'.approvals == s.approvals
      && (s'.wins == s.wins || Wins(s, s.polls[id]))
  {
  }

  lemma PolledCodes(s: State, id: int)
    requires CodesOk(s) && id in s.polls
    ensures CodesOk(Polled(s, id))
  {
    if Wins(s, s.polls[id]) {
      DeletedCodes(s, id);
    } else {
      PolledFrame(s, id);
      SameCodes(s, Polled(s, id));
    }
  }

  lemma CodeStepCodes(s: State, e: Event)
    requires CodesOk(s)
    ensures CodesOk(CodeStep(s, e))
  {
    SameWins(s, CodeStep(s, e));
    if e.CreateHash? && e.deviceCode !in s.known {
      NewCodeHasNotWon(s, e.deviceCode);
    }
  }

  lemma ApprovalFrame(s: State, e: Event)
    ensures var a := ApprovalStep(s, e);
      a == s.(hashes := a.hashes, approvals := a.approvals, records := a.records)
  {
  }

  lemma DeviceFrame(s: State, e: Event)
    ensures var d := DeviceStep(s, e);
      && d.index == s.index && d.creating == s.creating && d.known == s.known && d.wins == s.wins
      && d.approvals == s.approvals && d.records == s.records
  {
  }

  lemma CodeFrame(s: State, e: Event)
    ensures var c := CodeStep(s, e);
      && c.tokens == s.tokens && c.revoked == s.revoked && c.devices == s.devices && c.owners == s.owners
      && c.approvals == s.approvals && c.records == s.records
  {
  }

  lemma CodesKept(s: State, e: Event)
    requires CodesOk(s)
    ensures CodesOk(Next(s, e))
  {
    ApprovalFrame(s, e);
    DeviceFrame(s, e);
    CodeStepCodes(s, e);
    if e.PollCommand? && e.id in s.polls {
      PolledCodes(s, e.id);
    } else if !e.CreateHash? && !e.CreateIndex? {
      SameCodes(s, Next(s, e));
    }
  }

  // ------------------------------------------------------------------
  // Tokens
  // ------------------------------------------------------------------

  lemma MintedTokens(s: State, id: int, nonce: string)
    requires TokensOk(s) && MayMint(s, id)
    ensures TokensOk(Minted(s, id, nonce))
  {
    var s' := Minted(s, id, nonce);
    if !NonceUsed(s, nonce) {
      var d := s.polls[id].stage.device.value;
      var t := Token(s.polls[id].stage.user, d, nonce);
      assert t in s'.tokens && t.nonce == nonce && t.device == d;
      forall n | n in s'.revoked
        ensures NonceUsed(s', n) && n != nonce
      {
        assert NonceUsed(s, n);
        var u :| u in s.tokens && u.nonce == n;
        assert u in s'.tokens;
      }
      forall e | e in s'.devices && s'.devices[e].tokenFp.Some?
        ensures s'.devices[e].tokenFp.value !in s'.revoked
        ensures exists u :: u in s'.tokens && u.device == e && u.nonce == s'.devices[e].tokenFp.value
      {
        if e != d {
          OtherDevice(s, d, e);
          var u :| u in s.tokens && u.device == e && u.nonce == s.devices[e].tokenFp.value;
          assert u in s'.tokens;
        }
      }
    }
  }

  /** Revoking the tokens of one device leaves the stored nonce of another alone. */
  lemma OtherDevice(s: State, d: int, e: int)
    requires TokensOk(s) && d != e && e in s.devices && s.devices[e].tokenFp.Some?
    ensures s.devices[e].tokenFp.value !in s.revoked + NoncesOf(s, d)
  {
    var u :| u in s.tokens && u.device == e && u.nonce == s.devices[e].tokenFp.value;
    forall t | t in s.tokens && t.device == d
      ensures t.nonce != u.nonce
    {
    }
  }

  lemma RevokedTokens(s: State, d: int, devices: map<int, DeviceRow>)
    requires TokensOk(s)
    requires forall e :: e in devices && devices[e].tokenFp.Some? ==> e in s.devices && devices[e] == s.devices[e] && e != d
    ensures TokensOk(s.(devices := devices, revoked := s.revoked + NoncesOf(s, d)))
  {
    var s' := s.(devices := devices, revoked := s.revoked + NoncesOf(s, d));
    forall n | n in s'.revoked
      ensures NonceUsed(s', n)
    {
      if n in s.revoked {
        assert NonceUsed(s, n);
      }
    }
    forall e | e in s'.devices && s'.devices[e].tokenFp.Some?
      ensures s'.devices[e].tokenFp.value !in s'.revoked
      ensures exists u :: u in s'.tokens && u.device == e && u.nonce == s'.devices[e].tokenFp.value
    {
      OtherDevice(s, d, e);
    }
  }

  lemma SameTokens(s: State, s': State)
    requires TokensOk(s) && s'.tokens == s.tokens && s'.revoked == s.revoked
    requires forall e :: e in s'.devices && s'.devices[e].tokenFp.Some? ==> e in s.devices && s'.devices[e] == s.devices[e]
    ensures TokensOk(s')
  {
    forall n | n in s'.revoked
      ensures NonceUsed(s', n)
    {
      assert NonceUsed(s, n);
    }
  }

  lemma PolledTokens(s: State, id: int)
    requires TokensOk(s) && id in s.polls
    ensures TokensOk(Polled(s, id))
  {
    PolledFrame(s, id);
    SameTokens(s, Polled(s, id));
  }

  lemma DeviceStepTokens(s: State, e: Event)
    requires TokensOk(s)
    ensures TokensOk(DeviceStep(s, e))
  {
    match e
    case Mint(id, nonce) =>
      if MayMint(s, id) { MintedTokens(s, id, nonce); }
    case Disconnect(d, owner) =>
      if OwnsDevice(s, d, owner) { RevokedTokens(s, d, s.devices[d := s.devices[d].(tokenFp := None)]); }
    case DeleteDevice(d, owner) => if OwnsDevice(s, d, owner) { RevokedTokens(s, d, s.devices - {d}); }
    case _ => SameTokens(s, DeviceStep(s, e));
  }

  lemma TokensKept(s: State, e: Event)
    requires TokensOk(s)
    ensures TokensOk(Next(s, e))
  {
    CodeFrame(s, e);
    ApprovalFrame(s, e);
    DeviceStepTokens(s, e);
    SameTokens(s, CodeStep(s, e));
    SameTokens(s, ApprovalStep(s, e));
    if e.PollCommand? && e.id in s.polls {
      PolledTokens(s, e.id);
    } else if e.StartPoll? {
      SameTokens(s, Next(s, e));
    }
  }

  // ------------------------------------------------------------------
  // Owners
  // ------------------------------------------------------------------

  lemma DeviceStepOwners(s: State, e: Event)
    requires OwnersOk(s)
    ensures OwnersOk(DeviceStep(s, e))
  {
  }

  lemma ApprovalStepOwners(s: State, e: Event)
    requires OwnersOk(s)
    ensures OwnersOk(ApprovalStep(s, e))
  {
  }

  lemma SameOwners(s: State, s': State)
    requires OwnersOk(s) && s'.owners == s.owners && s'.records == s.records && s'.devices == s.devices
    requires s'.approvals == s.approvals
    ensures OwnersOk(s')
  {
  }

  lemma OwnersKept(s: State, e: Event)
    requires OwnersOk(s)
    ensures OwnersOk(Next(s, e))
  {
    CodeFrame(s, e);
    DeviceStepOwners(s, e);
    ApprovalStepOwners(s, e);
    SameOwners(s, CodeStep(s, e));
    if e.PollCommand? && e.id in s.polls {
      PolledFrame(s, e.id);
      SameOwners(s, Polled(s, e.id));
    } else if e.StartPoll? {
      SameOwners(s, Next(s, e));
    }
  }

  // ------------------------------------------------------------------
  // Main results
  // ------------------------------------------------------------------

  lemma {:induction false} RunOk(events: seq<Event>)
    ensures ApprovalsOk(Run(events)) && CodesOk(Run(events)) && TokensOk(Run(events)) && OwnersOk(Run(events))
  {
    if events != [] {
      RunOk(events[..|events| - 1]);
      var s := Run(events[..|events| - 1]);
      ApprovalsKept(s, events[|events| - 1]);
      CodesKept(s, events[|events| - 1]);
      TokensKept(s, events[|events| - 1]);
      OwnersKept(s, events[|events| - 1]);
    }
  }

  /** For whom a poll may win a device code. Without a device: a user who made a sign-in approval of
      that very code. With a device: its owner, who made an enrolment approval of the code for it; or
      a user who made a sign-in approval of it, while the owner made the enrolment approval. */
  ghost predicate Approvers(s: State, w: Win)
  {
    match w.device
    case None => Record(w.deviceCode, w.user, None) in s.records
    case Some(d) =>
      && d in s.owners && Record(w.deviceCode, s.owners[d], Some(d)) in s.records
      && (w.user == s.owners[d] || Record(w.deviceCode, w.user, None) in s.records)
  }

  lemma RecordedApprovers(s: State, w: Win)
    requires OwnersOk(s) && Recorded(s, w.deviceCode, w.user, w.device)
    ensures Approvers(s, w)
  {
    if Record(w.deviceCode, w.user, w.device) !in s.records {
      var v :| Record(w.deviceCode, v, w.device) in s.records;
      assert OwnersOwn(s.owners, v, w.device);
    } else {
      assert OwnersOwn(s.owners, w.user, w.device);
    }
  }

  /** In every interleaving of polls, approvals and expiries, at most one poll wins a device code,
      and only for its approvers. */
  lemma AtMostOneWinner(events: seq<Event>, i: nat, j: nat)
    requires i < |Run(events).wins| && j < |Run(events).wins|
    ensures var s := Run(events);
      && (s.wins[j].deviceCode == s.wins[i].deviceCode ==> i == j)
      && Approvers(s, s.wins[i])
  {
    RunOk(events);
    WinsRecorded(Run(events), i);
    RecordedApprovers(Run(events), Run(events).wins[i]);
  }

  lemma WinsRecorded(s: State, i: nat)
    requires ApprovalsOk(s) && i < |s.wins|
    ensures Recorded(s, s.wins[i].deviceCode, s.wins[i].user, s.wins[i].device)
  {
  }

  /** At every moment at most one token of a device authenticates, and none that was issued before
      the device's latest enrolment, disconnection or deletion. */
  lemma OneTokenADevice(events: seq<Event>, t: Token, u: Token)
    requires t in Run(events).tokens && u in Run(events).tokens && t.device == u.device
    requires Authenticates(Run(events), t) && Authenticates(Run(events), u)
    ensures t == u && t.nonce !in Run(events).revoked
  {
    RunOk(events);
  }

  lemma RevokedGrows(s: State, e: Event)
    ensures s.revoked <= Next(s, e).revoked
  {
  }

  lemma RevokedFails(s: State, t: Token)
    requires TokensOk(s) && t.nonce in s.revoked
    ensures !Authenticates(s, t)
  {
  }

  lemma RunGrows(events: seq<Event>)
    requires events != []
    ensures Run(events[..|events| - 1]).revoked <= Run(events).revoked
  {
    RevokedGrows(Run(events[..|events| - 1]), events[|events| - 1]);
  }

  lemma {:induction false} StaysRevoked(events: seq<Event>, n: nat)
    requires n <= |events|
    ensures Run(events[..n]).revoked <= Run(events).revoked
    decreases |events|
  {
    if n < |events| {
      var before := events[..|events| - 1];
      StaysRevoked(before, n);
      RunGrows(events);
      assert before[..n] == events[..n];
    } else {
      assert events[..n] == events;
    }
  }

  /** A revoked token never authenticates again. */
  lemma RevokedForGood(events: seq<Event>, later: seq<Event>, t: Token)
    requires t.nonce in Run(events).revoked
    ensures !Authenticates(Run(events + later), t)
  {
    StaysRevoked(events + later, |events|);
    assert (events + later)[..|events|] == events;
    RunOk(events + later);
    RevokedFails(Run(events + later), t);
  }

  /** A later enrolment of the device, its disconnection and its deletion. */
  ghost predicate Supersedes(s: State, e: Event, d: int)
  {
    match e
    case Mint(id, nonce) =>
      !NonceUsed(s, nonce) && MayMint(s, id) && s.polls[id].stage.device == Some(d)
    case Disconnect(device, owner) => device == d && OwnsDevice(s, d, owner)
    case DeleteDevice(device, owner) => device == d && OwnsDevice(s, d, owner)
    case _ => false
  }

  lemma RevokesEarlier(s: State, e: Event, t: Token)
    requires t in s.tokens && Supersedes(s, e, t.device)
    ensures t.nonce in Next(s, e).revoked
  {
    assert t.nonce in NoncesOf(s, t.device);
  }

  lemma RunSnoc(events: seq<Event>, e: Event)
    ensures Run(events + [e]) == Next(Run(events), e)
  {
    assert (events + [e])[..|events|] == events;
  }

  /** A token issued for a device before a later enrolment, a disconnection or a deletion of it
      never authenticates again, whatever happens afterwards. */
  lemma SupersededForGood(events: seq<Event>, e: Event, later: seq<Event>, t: Token)
    requires t in Run(events).tokens && Supersedes(Run(events), e, t.device)
    ensures !Authenticates(Run(events + [e] + later), t)
  {
    RevokesEarlier(Run(events), e, t);
    RunSnoc(events, e);
    RevokedForGood(events + [e], later, t);
  }

  // ------------------------------------------------------------------
  // A winner that is not the device's owner
  // ------------------------------------------------------------------

  ghost predicate Leads(s: State, events: seq<Event>, s': State)
    decreases |events|
  {
    if events == [] then s' == s else Leads(Next(s, events[0]), events[1..], s')
  }

  lemma {:induction false} RunLeads(before: seq<Event>, events: seq<Event>, s': State)
    requires Leads(Run(before), events, s')
    ensures Run(before + events) == s'
    decreases |events|
  {
    if events == [] {
      assert before + events == before;
    } else {
      RunSnoc(before, events[0]);
      RunLeads(before + [events[0]], events[1..], s');
      assert before + [events[0]] + events[1..] == before + events;
    }
  }

  const CREATE: seq<Event> := [AddDevice(5, 7), CreateHash("U", "D"), CreateIndex("D")]

  const ENROL: seq<Event> := [StartApproval(1, Approval("U", 7, Some(5))), ApproveCheck(1), ApproveWrite(1)]

  const SIGN_IN: seq<Event> := [StartApproval(2, Approval("U", 8, None)), ApproveCheck(2), ApproveWrite(2)]

  const POLL: seq<Event> := [StartPoll(3, "D", true), PollCommand(3), PollCommand(3), PollCommand(3), PollCommand(3)]

  /** The code "D" of user code "U", on which these approvals stand and were written. */
  function Coded(h: Hash, records: set<Record>): State
  {
    Init().(hashes := map["U" := h], index := map["D" := "U"], devices := map[5 := DeviceRow(7, None)],
            owners := map[5 := 7], known := {"D"}, records := records)
  }

  lemma CodeCreated()
    ensures Leads(Init(), CREATE, Coded(Hash(Some("D"), None, None), {}))
  {
    var s1 := Next(Init(), CREATE[0]);
    var s2 := Next(s1, CREATE[1]);
    assert s2.creating == map["D" := "U"];
    assert Next(s2, CREATE[2]) == Coded(Hash(Some("D"), None, None), {});
    LeadsThree(CREATE, Init(), s1, s2, Coded(Hash(Some("D"), None, None), {}));
  }

  lemma LeadsThree(es: seq<Event>, s: State, s1: State, s2: State, s3: State)
    requires |es| == 3 && Next(s, es[0]) == s1 && Next(s1, es[1]) == s2 && Next(s2, es[2]) == s3
    ensures Leads(s, es, s3)
  {
    assert es[1..][0] == es[1] && es[1..][1..] == es[2..] && es[2..][0] == es[2] && es[2..][1..] == [];
    assert Leads(s3, [], s3) && Leads(s2, es[2..], s3) && Leads(s1, es[1..], s3);
  }

  lemma ApprovalLeads(h: Hash, records: set<Record>, id: int, a: Approval)
    requires a.userCode == "U" && h.deviceCode == Some("D") && (a.device == None || (a.device == Some(5) && a.user == 7))
    ensures Leads(Coded(h, records), [StartApproval(id, a), ApproveCheck(id), ApproveWrite(id)],
                  Coded(Hash(h.deviceCode, Some(a.user), if a.device.Some? then a.device else h.deviceId),
                        records + {Record("D", a.user, a.device)}))
  {
    var es := [StartApproval(id, a), ApproveCheck(id), ApproveWrite(id)];
    var s := Coded(h, records);
    var s1 := Next(s, es[0]);
    assert s1 == s.(approvals := map[id := Pending(a, false)]);
    var s2 := Next(s1, es[1]);
    assert s2 == s.(approvals := map[id := Pending(a, true)]);
    var h' := Hash(h.deviceCode, Some(a.user), if a.device.Some? then a.device else h.deviceId);
    assert map[id := Pending(a, true)] - {id} == map[] && map["U" := h]["U" := h'] == map["U" := h'];
    assert Next(s2, es[2]) == Coded(h', records + {Record("D", a.user, a.device)});
    LeadsThree(es, s, s1, s2, Coded(h', records + {Record("D", a.user, a.device)}));
  }

  lemma PollWins(h: Hash, records: set<Record>)
    requires h == Hash(Some("D"), Some(8), Some(5))
    ensures exists s' :: Leads(Coded(h, records), POLL, s') && s'.wins == [Win("D", 8, Some(5))] && s'.owners == map[5 := 7]
  {
    var s := Coded(h, records);
    var s1 := s.(polls := map[3 := Poll("D", true, Looking)]);
    var s2 := s.(polls := map[3 := Poll("D", true, Checking("U"))]);
    var s3 := s.(polls := map[3 := Poll("D", true, Consuming(8, Some(5)))]);
    var s4 := s.(polls := map[3 := Poll("D", true, Deleting(8, Some(5), Some("U")))]);
    assert Next(s, POLL[0]) == s1;
    assert Next(s1, POLL[1]) == s2;
    assert Next(s2, POLL[2]) == s3;
    assert Next(s3, POLL[3]) == s4;
    var s5 := Next(s4, POLL[4]);
    LeadsFive(s, s1, s2, s3, s4, s5);
  }

  lemma LeadsFive(s: State, s1: State, s2: State, s3: State, s4: State, s5: State)
    requires Next(s, POLL[0]) == s1 && Next(s1, POLL[1]) == s2 && Next(s2, POLL[2]) == s3
    requires Next(s3, POLL[3]) == s4 && Next(s4, POLL[4]) == s5
    ensures Leads(s, POLL, s5)
  {
    assert POLL[1..][0] == POLL[1] && POLL[1..][1..] == POLL[2..];
    assert POLL[2..][0] == POLL[2] && POLL[2..][1..] == POLL[3..];
    assert POLL[3..][0] == POLL[3] && POLL[3..][1..] == POLL[4..];
    assert POLL[4..][0] == POLL[4] && POLL[4..][1..] == [];
    assert Leads(s5, [], s5) && Leads(s4, POLL[4..], s5) && Leads(s3, POLL[3..], s5);
    assert Leads(s2, POLL[2..], s5) && Leads(s1, POLL[1..], s5);
  }

  /** User 7 enrols device 5 with the code, then user 8 signs in with it: the poll wins for user 8
      and device 5, which user 8 does not own. */
  lemma WinnerNeedNotOwn()
    ensures var s := Run(CREATE + ENROL + SIGN_IN + POLL);
      s.wins == [Win("D", 8, Some(5))] && s.owners == map[5 := 7]
  {
    var h1, r1 := Hash(Some("D"), Some(7), Some(5)), {Record("D", 7, Some(5))};
    var h2, r2 := Hash(Some("D"), Some(8), Some(5)), r1 + {Record("D", 8, None)};
    CodeCreated();
    assert [] + CREATE == CREATE;
    RunLeads([], CREATE, Coded(Hash(Some("D"), None, None), {}));
    ApprovalLeads(Hash(Some("D"), None, None), {}, 1, Approval("U", 7, Some(5)));
    assert {} + r1 == r1;
    RunLeads(CREATE, ENROL, Coded(h1, r1));
    ApprovalLeads(h1, r1, 2, Approval("U", 8, None));
    RunLeads(CREATE + ENROL, SIGN_IN, Coded(h2, r2));
    PollWins(h2, r2);
    var s' :| Leads(Coded(h2, r2), POLL, s') && s'.wins == [Win("D", 8, Some(5))] && s'.owners == map[5 := 7];
    RunLeads(CREATE + ENROL + SIGN_IN, POLL, s');
  }
}
