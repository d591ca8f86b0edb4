/** One exchange-side FIX session: what it does to the sequence numbers, and what it answers,
    for every message that arrives. */
module ServerSession {
  import opened ClientSession
  import opened Sessions

  datatype Served = Served(backend: Backend, written: seq<Message>, closes: bool)

  /** Answers under the session's next outbound number. */
  function Answer(b: Backend, id: SessionId, msgType: char): Served {
    Served(UseNext(b, id), [Plain(msgType, NextOut(b, id))], false)
  }

  /** Execution reports, market data and rejects the exchange sends of its own accord. */
  datatype Report = ExecutionReport | Snapshot | Incremental | Reject | BusinessReject

  function TypeOf(r: Report): char {
    match r
    case ExecutionReport => '8'
    case Snapshot => 'W'
    case Incremental => 'X'
    case Reject => '3'
    case BusinessReject => 'j'
  }

  function ServeLogon(b: Backend, id: SessionId, sender: CompId, seqNum: nat): Served {
    if !Accepts(b, sender) then Served(b, [Plain('5', 1)], true)
    else Answer(Validate(LogOn(b, id, sender), id, seqNum), id, 'A')
  }

  /** A Logout is answered but its own number is never looked at. */
  function ServeLogout(b: Backend, id: SessionId): Served {
    var r := Answer(b, id, '5');
    Served(Cleanup(LogOff(r.backend, id), id), r.written, true)
  }

  /** Every other message is handled even when its number is not the expected one. A test
      request is answered, and a new order that cannot be read is rejected. */
  function ServeOther(b: Backend, id: SessionId, msgType: char, seqNum: nat, readable: bool): Served {
    if !LoggedOn(b, id) then Served(b, [], true)
    else
      var b' := Validate(b, id, seqNum);
      if msgType == '1' then Answer(b', id, '0')
      else if msgType == 'D' && !readable then Answer(b', id, TypeOf(BusinessReject))
      else Served(b', [], false)
  }

  /** `readable` tells whether the body of a new order can be read. */
  function Serve(b: Backend, id: SessionId, sender: CompId, m: Message, readable: bool): Served {
    if m.msgType == 'A' then ServeLogon(b, id, sender, m.seqNum)
    else if m.msgType == '5' then ServeLogout(b, id)
    else ServeOther(b, id, m.msgType, m.seqNum, readable)
  }

  class FixSession {
    const id: SessionId
    const manager: FixSessionManager
    var closed: bool
    var written: seq<Message>

    constructor (id: SessionId, manager: FixSessionManager)
      ensures this.id == id && this.manager == manager && !closed && written == []
    {
      this.id, this.manager := id, manager;
      closed, written := false, [];
    }

    twostate predicate Did(r: Served)
      reads this, manager, manager.seqRepo.db
    {
      && manager.View() == r.backend
      && written == old(written) + r.written
      && closed == (old(closed) || r.closes)
    }

    method SendAnswer(msgType: char)
      modifies this`written, manager, manager.seqRepo.db
      ensures Did(Answer(old(manager.View()), id, msgType))
    {
      var outSeq := manager.UseNextOutboundSequence(id);
      written := written + [Plain(msgType, outSeq)];
    }

    method SendReport(report: Report)
      modifies this`written, manager, manager.seqRepo.db
      ensures Did(Answer(old(manager.View()), id, TypeOf(report)))
    {
      SendAnswer(TypeOf(report));
    }

    method HandleLogon(sender: CompId, seqNum: nat)
      modifies this, manager, manager.seqRepo.db
      ensures Did(ServeLogon(old(manager.View()), id, sender, seqNum))
    {
      var ok := manager.Authenticate(id, sender);
      if !ok {
        written := written + [Plain('5', 1)];
        closed := true;
        return;
      }
      var expected := manager.ValidateSequence(id, seqNum);
      SendAnswer('A');
    }

    method HandleLogoutMessage()
      modifies this, manager, manager.seqRepo.db
      ensures Did(ServeLogout(old(manager.View()), id))
    {
      var outSeq := manager.UseNextOutboundSequence(id);
      manager.HandleLogout(id);
      written := written + [Plain('5', outSeq)];
      manager.CleanupConnection(id);
      closed := true;
    }

    method HandleFixMessage(sender: CompId, m: Message, readable: bool)
      modifies this, manager, manager.seqRepo.db
      ensures Did(Serve(old(manager.View()), id, sender, m, readable))
    {
      if m.msgType == 'A' {
        HandleLogon(sender, m.seqNum);
        return;
      }
      if m.msgType == '5' {
        HandleLogoutMessage();
        return;
      }
      if id !in manager.connections || manager.connections[id] !in manager.states
         || !manager.states[manager.connections[id]].loggedOn {
        closed := true;
        return;
      }
      var expected := manager.ValidateSequence(id, m.seqNum);
      if m.msgType == '1' {
        SendAnswer('0');
      } else if m.msgType == 'D' && !readable {
        SendReport(BusinessReject);
      }
    }
  }
}
