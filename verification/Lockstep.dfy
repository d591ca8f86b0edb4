/** The sequence-number protocol of one company: its client, the exchange and the two FIFO
    directions of the current connection, over any number of connections and restarts. */
module Lockstep {
  import opened ClientSession
  import opened Sessions
  import opened ServerSession

  datatype Net = Net(
    compId: CompId,
    client: Client,
    backend: Backend,
    session: SessionId,
    toServer: seq<Message>,
    toClient: seq<Message>)

  datatype Action =
    | Connect
    | Logon(forceReset: bool)
    | Logout
    | Send(msgType: char)
    | ClientReceives
    | ServerReceives(readable: bool)
    | ServerReports(report: Report)
    | WorkerRuns
    | Drop
    | Restart

  /** The connection is gone, with everything still in flight. */
  function Lost(n: Net): Net {
    n.(client := Disconnect(n.client), toServer := [], toClient := [])
  }

  /** What the client writes travels to the exchange; without a connection the write fails. */
  function ClientActs(n: Net, r: Reaction): Net {
    if n.client.phase == Disconnected && r.written != [] then n.(client := Disconnect(r.client))
    else n.(client := r.client, toServer := n.toServer + r.written)
  }

  /** What the exchange writes travels to the client as long as that is connected. */
  function ServerActs(n: Net, s: Served): Net {
    n.(backend := s.backend, toClient := if n.client.phase == Disconnected then [] else n.toClient + s.written)
  }

  function ClientTakes(n: Net): Net
    requires n.toClient != []
  {
    var r := HandleMessage(n.client, n.toClient[0]);
    n.(client := r.client,
       toServer := n.toServer + r.written,
       toClient := if r.client.phase == Disconnected then [] else n.toClient[1..])
  }

  function ServerTakes(n: Net, readable: bool): Net
    requires n.toServer != []
  {
    ServerActs(n.(toServer := n.toServer[1..]), Serve(n.backend, n.session, n.compId, n.toServer[0], readable))
  }

  function Step(n: Net, a: Action): Net {
    match a
    case Connect =>
      if n.client.phase != Disconnected then n
      else n.(client := n.client.(phase := Connected), session := n.session + 1, toServer := [], toClient := [])
    case Logon(forceReset) => ClientActs(n, SendLogon(n.client, forceReset))
    case Logout => ClientActs(n, SendLogout(n.client))
    case Send(msgType) => ClientActs(n, SendMessage(n.client, msgType))
    case ClientReceives => if n.toClient == [] then n else ClientTakes(n)
    case ServerReceives(readable) => if n.toServer == [] then n else ServerTakes(n, readable)
    case ServerReports(report) => ServerActs(n, Answer(n.backend, n.session, TypeOf(report)))
    case WorkerRuns => n.(backend := WorkerTurn(n.backend))
    case Drop => Lost(n)
    case Restart => Lost(n.(backend := Restarted(n.backend)))
  }

  // ---------------------------------------------------------------- lockstep

  /** The company's numbers at the exchange. */
  function Held(n: Net): Numbers {
    Stored(n.backend, n.compId)
  }

  /** The connection belongs to the company. */
  predicate Ours(n: Net) {
    n.session in n.backend.connections && n.backend.connections[n.session] == n.compId && n.compId in n.backend.states
  }

  /** Consecutive numbers from `first` on. */
  predicate Consecutive(ms: seq<Message>, first: nat) {
    forall i | 0 <= i < |ms| :: ms[i].seqNum == first + i
  }

  /** Both directions agree, up to what is in flight: nobody can see a gap or a repeat. */
  predicate InStep(n: Net) {
    && n.client.outSeq == Held(n).inSeq + 1 + |n.toServer|
    && Consecutive(n.toServer, Held(n).inSeq + 1)
    && Held(n).outSeq == n.client.inSeq + |n.toClient|
    && Consecutive(n.toClient, n.client.inSeq)
  }

  /** Nothing that makes the client answer, jump or leave. */
  predicate Answers(ms: seq<Message>) {
    forall i | 0 <= i < |ms| :: ms[i].msgType !in {'1', '2', '4', '5'}
  }

  /** Who may have sent what so far on this connection. */
  predicate Orderly(n: Net) {
    && (n.client.phase in {Disconnected, Connecting, Connected} ==> n.toServer == [] && n.toClient == [])
    && (forall id | id in n.backend.connections :: id <= n.session)
    && (n.client.phase in {Connecting, Connected} ==> !Ours(n))
    && (!Ours(n) ==> n.toClient == [] && (n.toServer != [] ==> n.toServer[0].msgType == 'A'))
    && (n.client.phase == Active ==> Ours(n))
    && (n.client.phase == LogonSent && !Ours(n) ==> n.toServer != [])
    && Answers(n.toClient)
  }

  predicate Lockstep(n: Net) {
    && Persisted(n.backend)
    && Accepts(n.backend, n.compId)
    && (n.compId in n.backend.states ==> n.backend.states[n.compId].loggedOn)
    && Orderly(n)
    && InStep(n)
  }

  /** Exactly the actions that keep both sides in step: no Logout reaches the exchange, a
      connection is only given up with nothing in flight, numbers are only reset where that
      changes nothing, a Logon is only sent on a connection, and reports only go to a client
      that is logged on. */
  predicate Keeps(n: Net, a: Action) {
    match a
    case Logon(forceReset) =>
      if n.client.phase == Disconnected then forceReset && n.client.inSeq == 1 && n.client.outSeq == 2
      else n.client.phase == Connected && forceReset ==> n.client.inSeq == n.client.outSeq == 1
    case ServerReceives(_) => n.toServer == [] || n.toServer[0].msgType != '5'
    case ServerReports(report) => n.client.phase == Disconnected <==> !Ours(n)
    case Drop => n.toServer == [] && n.toClient == []
    case Restart => n.toServer == [] && n.toClient == []
    case _ => true
  }

  lemma {:induction false} ConsecutiveAppend(ms: seq<Message>, first: nat, m: Message)
    requires Consecutive(ms, first) && m.seqNum == first + |ms|
    ensures Consecutive(ms + [m], first)
  {
  }

  lemma {:induction false} ConsecutiveTail(ms: seq<Message>, first: nat)
    requires Consecutive(ms, first) && ms != []
    ensures ms[0].seqNum == first && Consecutive(ms[1..], first + 1)
  {
    forall i | 0 <= i < |ms[1..]| ensures ms[1..][i].seqNum == first + 1 + i {
      assert ms[i + 1].seqNum == first + (i + 1);
    }
  }

  // ---------------------------------------------------------------- one lemma per action

  lemma {:induction false} ConnectKeeps(n: Net)
    requires Lockstep(n)
    ensures Lockstep(Step(n, Connect))
  {
  }

  lemma {:induction false} LogonKeeps(n: Net, forceReset: bool)
    requires Lockstep(n)
    ensures Keeps(n, Logon(forceReset)) ==> Lockstep(Step(n, Logon(forceReset)))
    ensures !Keeps(n, Logon(forceReset)) ==> !InStep(Step(n, Logon(forceReset)))
  {
  }

  lemma {:induction false} LogoutKeeps(n: Net)
    requires Lockstep(n)
    ensures Lockstep(Step(n, Logout))
  {
    if n.client.phase == Active || n.client.phase == LogonSent {
      ConsecutiveAppend(n.toServer, Held(n).inSeq + 1, Plain('5', n.client.outSeq));
    }
  }

  lemma {:induction false} SendKeeps(n: Net, msgType: char)
    requires Lockstep(n)
    ensures Lockstep(Step(n, Send(msgType)))
  {
    if n.client.phase == Active {
      ConsecutiveAppend(n.toServer, Held(n).inSeq + 1, Plain(msgType, n.client.outSeq));
    }
  }

  lemma {:induction false} ClientReceivesKeeps(n: Net)
    requires Lockstep(n)
    ensures Lockstep(Step(n, ClientReceives))
  {
    if n.toClient != [] {
      ConsecutiveTail(n.toClient, n.client.inSeq);
    }
  }

  lemma {:induction false} WorkerKeeps(n: Net)
    requires Lockstep(n)
    ensures Lockstep(Step(n, WorkerRuns))
  {
    WorkerIsInvisible(n.backend);
  }

  lemma {:induction false} LossKeeps(n: Net)
    requires Lockstep(n)
    ensures Keeps(n, Drop) ==> Lockstep(Step(n, Drop)) && Lockstep(Step(n, Restart))
    ensures !Keeps(n, Drop) ==> !InStep(Step(n, Drop)) && !InStep(Step(n, Restart))
  {
    EndingsKeepNumbers(n.backend, n.session);
  }

  lemma {:induction false} AnswersAppend(ms: seq<Message>, m: Message)
    requires Answers(ms) && m.msgType !in {'1', '2', '4', '5'}
    ensures Answers(ms + [m])
  {
  }

  /** The exchange sends one message under its next number. */
  lemma {:induction false} AnswerKeeps(n: Net, msgType: char)
    requires Lockstep(n) && Ours(n) && n.client.phase != Disconnected
    requires msgType !in {'1', '2', '4', '5'}
    ensures Lockstep(ServerActs(n, Answer(n.backend, n.session, msgType)))
  {
    var m := Plain(msgType, NextOut(n.backend, n.session));
    UseNextMoves(n.backend, n.session);
    ConsecutiveAppend(n.toClient, n.client.inSeq, m);
    AnswersAppend(n.toClient, m);
  }

  lemma {:induction false} ReportKeeps(n: Net, report: Report)
    requires Lockstep(n)
    ensures Keeps(n, ServerReports(report)) ==> Lockstep(Step(n, ServerReports(report)))
    ensures !Keeps(n, ServerReports(report)) ==> !InStep(Step(n, ServerReports(report)))
  {
    if Ours(n) && n.client.phase != Disconnected {
      AnswerKeeps(n, TypeOf(report));
    } else {
      UseNextMoves(n.backend, n.session);
    }
  }

  // ---------------------------------------------------------------- the exchange receives

  /** Taking a message over at the exchange: out of the channel and into the numbers. */
  lemma {:induction false} ValidateKeeps(n: Net, b: Backend)
    requires Lockstep(n) && n.toServer != []
    requires Persisted(b) && LoggedOn(b, n.session) && b.connections[n.session] == n.compId
    requires Accepts(b, n.compId) && Stored(b, n.compId) == Held(n)
    requires forall id | id in b.connections :: id <= n.session
    ensures Expected(b, n.session, n.toServer[0].seqNum)
    ensures var n' := n.(toServer := n.toServer[1..], backend := Validate(b, n.session, n.toServer[0].seqNum));
      Lockstep(n') && Ours(n') && Held(n') == Numbers(Held(n).inSeq + 1, Held(n).outSeq)
  {
    ConsecutiveTail(n.toServer, Held(n).inSeq + 1);
    ValidateMoves(b, n.session, n.toServer[0].seqNum);
  }

  /** An answer uses up an outbound number and nothing else. */
  lemma {:induction false} Replied(n: Net, msgType: char)
    requires Lockstep(n) && Ours(n) && n.client.phase != Disconnected && msgType !in {'1', '2', '4', '5'}
    ensures var n' := ServerActs(n, Answer(n.backend, n.session, msgType)); Lockstep(n') && Held(n').inSeq == Held(n).inSeq
  {
    AnswerKeeps(n, msgType);
    UseNextMoves(n.backend, n.session);
  }

  lemma {:induction false} LogonServed(n: Net, readable: bool)
    requires Lockstep(n) && n.toServer != [] && n.toServer[0].msgType == 'A'
    ensures Expected(LogOn(n.backend, n.session, n.compId), n.session, n.toServer[0].seqNum)
    ensures Lockstep(Step(n, ServerReceives(readable))) && Held(Step(n, ServerReceives(readable))).inSeq == Held(n).inSeq + 1
  {
    var m, b := n.toServer[0], LogOn(n.backend, n.session, n.compId);
    LogOnResumes(n.backend, n.session, n.compId);
    ValidateKeeps(n, b);
    Replied(n.(toServer := n.toServer[1..], backend := Validate(b, n.session, m.seqNum)), 'A');
  }

  /** Any other counted message is taken over. */
  lemma {:induction false} TakenOver(n: Net) returns (n': Net)
    requires Lockstep(n) && n.toServer != [] && n.toServer[0].msgType !in {'A', '5'}
    ensures Expected(n.backend, n.session, n.toServer[0].seqNum) && n.client.phase != Disconnected
    ensures n' == n.(toServer := n.toServer[1..], backend := Validate(n.backend, n.session, n.toServer[0].seqNum))
    ensures Lockstep(n') && Ours(n') && Held(n').inSeq == Held(n).inSeq + 1
  {
    n' := n.(toServer := n.toServer[1..], backend := Validate(n.backend, n.session, n.toServer[0].seqNum));
    ValidateKeeps(n, n.backend);
  }

  /** What follows for the exchange, by message type. */
  lemma {:induction false} Dispatched(n: Net, n': Net, readable: bool)
    requires n.toServer != [] && n.toServer[0].msgType !in {'A', '5'} && LoggedOn(n.backend, n.session)
    requires n' == n.(toServer := n.toServer[1..], backend := Validate(n.backend, n.session, n.toServer[0].seqNum))
    requires n.client.phase != Disconnected
    ensures Step(n, ServerReceives(readable))
         == if n.toServer[0].msgType == '1' then ServerActs(n', Answer(n'.backend, n'.session, '0'))
            else if n.toServer[0].msgType == 'D' && !readable then ServerActs(n', Answer(n'.backend, n'.session, 'j'))
            else n'
  {
    assert n'.toClient + [] == n'.toClient;
  }

  lemma {:induction false} OtherServed(n: Net, readable: bool)
    requires Lockstep(n) && n.toServer != [] && n.toServer[0].msgType !in {'A', '5'}
    ensures Expected(n.backend, n.session, n.toServer[0].seqNum)
    ensures Lockstep(Step(n, ServerReceives(readable))) && Held(Step(n, ServerReceives(readable))).inSeq == Held(n).inSeq + 1
  {
    var n' := TakenOver(n);
    Dispatched(n, n', readable);
    Replied(n', '0');
    Replied(n', 'j');
  }

  /** A Logout at the exchange uses up an outbound number; its own number is not counted. */
  lemma {:induction false} LogoutServed(n: Net, readable: bool)
    requires Lockstep(n) && n.toServer != [] && n.toServer[0].msgType == '5'
    ensures var n' := Step(n, ServerReceives(readable));
      Persisted(n'.backend) && Held(n') == Numbers(Held(n).inSeq, Held(n).outSeq + 1)
  {
    var b := UseNext(n.backend, n.session);
    UseNextMoves(n.backend, n.session);
    EndingsKeepNumbers(b, n.session);
    EndingsKeepNumbers(LogOff(b, n.session), n.session);
  }

  // ---------------------------------------------------------------- over whole runs

  /** From a state in step, an action keeps both sides in step if and only if it is one of
      those that `Keeps` describes. */
  lemma {:induction false} StepKeepsLockstep(n: Net, a: Action)
    requires Lockstep(n)
    ensures if Keeps(n, a) then Lockstep(Step(n, a)) else !InStep(Step(n, a))
  {
    match a
    case Connect => ConnectKeeps(n);
    case Logon(forceReset) => LogonKeeps(n, forceReset);
    case Logout => LogoutKeeps(n);
    case Send(msgType) => SendKeeps(n, msgType);
    case ClientReceives => ClientReceivesKeeps(n);
    case ServerReports(report) => ReportKeeps(n, report);
    case WorkerRuns => WorkerKeeps(n);
    case Drop => LossKeeps(n);
    case Restart => LossKeeps(n);
    case ServerReceives(readable) =>
      if n.toServer != [] {
        if n.toServer[0].msgType == 'A' {
          LogonServed(n, readable);
        } else if n.toServer[0].msgType != '5' {
          OtherServed(n, readable);
        } else {
          LogoutServed(n, readable);
        }
      }
  }

  function Run(n: Net, actions: seq<Action>): Net {
    if actions == [] then n else Step(Run(n, actions[..|actions| - 1]), actions[|actions| - 1])
  }

  /** Fresh stores on both sides and no connection yet. */
  function Fresh(compId: CompId, valid: set<CompId>): Net {
    Net(compId, Client(Disconnected, 1, 1), Backend(valid, map[], map[], [], map[]), 0, [], [])
  }

  predicate KeepsAll(n: Net, actions: seq<Action>) {
    forall i | 0 <= i < |actions| :: Keeps(Run(n, actions[..i]), actions[i])
  }

  predicate AlwaysInStep(n: Net, actions: seq<Action>) {
    forall i | 0 <= i <= |actions| :: InStep(Run(n, actions[..i]))
  }

  lemma {:induction false} KeepsShorter(n: Net, actions: seq<Action>)
    requires actions != []
    ensures var before := actions[..|actions| - 1];
      KeepsAll(n, actions) <==> KeepsAll(n, before) && Keeps(Run(n, before), actions[|actions| - 1])
  {
    var before := actions[..|actions| - 1];
    assert forall i | 0 <= i <= |before| :: before[..i] == actions[..i];
  }

  lemma {:induction false} InStepShorter(n: Net, actions: seq<Action>)
    requires actions != []
    ensures AlwaysInStep(n, actions) <==> AlwaysInStep(n, actions[..|actions| - 1]) && InStep(Run(n, actions))
  {
    var before := actions[..|actions| - 1];
    assert actions[..|actions|] == actions;
    assert forall i | 0 <= i <= |before| :: before[..i] == actions[..i];
  }

  /** Both sides are in step at every moment of a run, if and only if every action of the run
      is one that keeps them in step: nothing else can break the protocol, and whatever is not
      on the list does break it. */
  lemma {:induction false} InStepIffKept(n: Net, actions: seq<Action>)
    requires Lockstep(n)
    ensures AlwaysInStep(n, actions) <==> KeepsAll(n, actions)
    ensures KeepsAll(n, actions) ==> Lockstep(Run(n, actions))
  {
    if actions != [] {
      var before := actions[..|actions| - 1];
      KeepsShorter(n, actions);
      InStepShorter(n, actions);
      InStepIffKept(n, before);
      if KeepsAll(n, before) {
        StepKeepsLockstep(Run(n, before), actions[|actions| - 1]);
      }
    } else {
      assert actions[..0] == [];
    }
  }

  /** From fresh stores, over any number of connections, restarts and turns of the database
      worker: as long as no Logout arrives, nothing in flight is lost, and the other conditions
      of `Keeps` hold, client and exchange stay in lockstep, and every message either side
      reads carries exactly the number it expects. */
  lemma {:induction false} LockstepFromFresh(compId: CompId, valid: set<CompId>, actions: seq<Action>, readable: bool)
    requires compId in valid
    requires KeepsAll(Fresh(compId, valid), actions)
    ensures var n := Run(Fresh(compId, valid), actions);
      && n.client.outSeq == Held(n).inSeq + 1 + |n.toServer|
      && Held(n).outSeq == n.client.inSeq + |n.toClient|
      && (n.toClient != [] ==> n.toClient[0].seqNum == n.client.inSeq)
      && (n.toServer != [] && n.toServer[0].msgType != '5' ==> Held(Step(n, ServerReceives(readable))).inSeq == n.toServer[0].seqNum)
  {
    var start := Fresh(compId, valid);
    assert Lockstep(start);
    InStepIffKept(start, actions);
    var n := Run(start, actions);
    if n.toServer != [] && n.toServer[0].msgType == 'A' {
      LogonServed(n, readable);
    } else if n.toServer != [] && n.toServer[0].msgType != '5' {
      OtherServed(n, readable);
    }
  }

  // ---------------------------------------------------------------- after a Logout

  /** The exchange is waiting for a number that will not come again. */
  predicate Behind(n: Net) {
    && Persisted(n.backend)
    && Held(n).inSeq + 1 < n.client.outSeq
    && (forall i | 0 <= i < |n.toServer| :: Held(n).inSeq + 1 < n.toServer[i].seqNum)
    && (forall i | 0 <= i < |n.toClient| :: n.toClient[i].msgType != '2')
  }

  /** The exchange's own answers and reports never ask for anything again. */
  lemma {:induction false} AnswerLeavesBehind(n: Net, msgType: char)
    requires Behind(n) && msgType != '2'
    ensures var n' := ServerActs(n, Answer(n.backend, n.session, msgType)); Behind(n') && Held(n').inSeq == Held(n).inSeq
  {
    UseNextMoves(n.backend, n.session);
  }

  lemma {:induction false} ValidateLeavesBehind(n: Net, b: Backend, seqNum: nat)
    requires Behind(n) && Persisted(b) && Stored(b, n.compId) == Held(n) && seqNum > Held(n).inSeq + 1
    ensures var n' := n.(backend := Validate(b, n.session, seqNum)); Behind(n') && Held(n').inSeq == Held(n).inSeq
  {
    ValidateMoves(b, n.session, seqNum);
  }

  lemma {:induction false} LogonLeavesBehind(n: Net, seqNum: nat)
    requires Behind(n) && seqNum > Held(n).inSeq + 1
    ensures var n' := ServerActs(n, ServeLogon(n.backend, n.session, n.compId, seqNum));
      Behind(n') && Held(n').inSeq == Held(n).inSeq
  {
    LogOnResumes(n.backend, n.session, n.compId);
    var b := LogOn(n.backend, n.session, n.compId);
    ValidateLeavesBehind(n, b, seqNum);
    AnswerLeavesBehind(n.(backend := Validate(b, n.session, seqNum)), 'A');
  }

  lemma {:induction false} LogoutLeavesBehind(n: Net)
    requires Behind(n)
    ensures var n' := ServerActs(n, ServeLogout(n.backend, n.session)); Behind(n') && Held(n').inSeq == Held(n).inSeq
  {
    AnswerLeavesBehind(n, '5');
    var b := UseNext(n.backend, n.session);
    EndingsKeepNumbers(b, n.session);
    EndingsKeepNumbers(LogOff(b, n.session), n.session);
  }

  lemma {:induction false} OtherLeavesBehind(n: Net, msgType: char, seqNum: nat, readable: bool)
    requires Behind(n) && seqNum > Held(n).inSeq + 1
    ensures var n' := ServerActs(n, ServeOther(n.backend, n.session, msgType, seqNum, readable));
      Behind(n') && Held(n').inSeq == Held(n).inSeq
  {
    var b := Validate(n.backend, n.session, seqNum);
    var n' := n.(backend := b);
    ValidateLeavesBehind(n, n.backend, seqNum);
    if !LoggedOn(n.backend, n.session) {
      SilenceLeavesBehind(n, n.backend, true);
    } else if msgType == '1' {
      AnswerLeavesBehind(n', '0');
      BackendOverwritten(n, b, Answer(b, n.session, '0'));
    } else if msgType == 'D' && !readable {
      AnswerLeavesBehind(n', 'j');
      BackendOverwritten(n, b, Answer(b, n.session, 'j'));
    } else {
      SilenceLeavesBehind(n', b, false);
      BackendOverwritten(n, b, Served(b, [], false));
    }
  }

  lemma {:induction false} BackendOverwritten(n: Net, b: Backend, s: Served)
    ensures ServerActs(n.(backend := b), s) == ServerActs(n, s)
  {
  }

  lemma {:induction false} SilenceLeavesBehind(n: Net, b: Backend, closes: bool)
    requires Behind(n) && b == n.backend
    ensures var n' := ServerActs(n, Served(b, [], closes)); Behind(n') && Held(n').inSeq == Held(n).inSeq
  {
  }

  lemma {:induction false} ServingLeavesBehind(n: Net, readable: bool)
    requires Behind(n) && n.toServer != []
    ensures Behind(ServerTakes(n, readable)) && Held(ServerTakes(n, readable)).inSeq == Held(n).inSeq
  {
    var m, rest := n.toServer[0], n.(toServer := n.toServer[1..]);
    assert Behind(rest);
    if m.msgType == 'A' {
      LogonLeavesBehind(rest, m.seqNum);
    } else if m.msgType == '5' {
      LogoutLeavesBehind(rest);
    } else {
      OtherLeavesBehind(rest, m.msgType, m.seqNum, readable);
    }
  }

  lemma {:induction false} ReadingLeavesBehind(n: Net)
    requires Behind(n)
    ensures Behind(Step(n, ClientReceives)) && Held(Step(n, ClientReceives)).inSeq == Held(n).inSeq
  {
  }

  /** Nothing but a forced reset gets the exchange's inbound number moving again. */
  lemma {:induction false} StepStaysBehind(n: Net, a: Action)
    requires Behind(n) && a != Logon(true)
    ensures Behind(Step(n, a)) && Held(Step(n, a)).inSeq == Held(n).inSeq
  {
    match a
    case ServerReceives(readable) =>
      if n.toServer != [] {
        ServingLeavesBehind(n, readable);
      }
    case ServerReports(report) => AnswerLeavesBehind(n, TypeOf(report));
    case ClientReceives => ReadingLeavesBehind(n);
    case WorkerRuns => WorkerIsInvisible(n.backend);
    case Restart => EndingsKeepNumbers(n.backend, n.session);
    case _ =>
  }

  /** Once a Logout has arrived, the exchange never accepts another number of this client:
      over any further connections, restarts and messages its inbound number stays where the
      Logout found it, until the client forces a reset. */
  lemma {:induction false} LogoutFreezesInbound(n: Net, actions: seq<Action>, readable: bool)
    requires Lockstep(n) && n.toServer != [] && n.toServer[0].msgType == '5'
    requires Logon(true) !in actions
    ensures var n' := Run(Step(n, ServerReceives(readable)), actions);
      Held(n').inSeq == Held(n).inSeq && Behind(n')
  {
    if actions == [] {
      LogoutServed(n, readable);
      ConsecutiveTail(n.toServer, Held(n).inSeq + 1);
    } else {
      LogoutFreezesInbound(n, actions[..|actions| - 1], readable);
      StepStaysBehind(Run(Step(n, ServerReceives(readable)), actions[..|actions| - 1]), actions[|actions| - 1]);
    }
  }

  // ---------------------------------------------------------------- a run that ends out of step

  lemma {:induction false} RunNext(n: Net, before: seq<Action>, a: Action)
    ensures Run(n, before + [a]) == Step(Run(n, before), a)
  {
    assert (before + [a])[..|before|] == before;
  }

  /** A client that logs on and at once out again. */
  lemma {:induction false} OnAndOut(start: Net)
    requires Lockstep(start) && start.client == Client(Disconnected, 1, 1)
    ensures var n := Step(Step(Step(start, Connect), Logon(false)), Logout);
      && Lockstep(n) && n.backend == start.backend && n.compId == start.compId && n.client.outSeq == 3
      && n.toServer == [Plain('A', 1), Plain('5', 2)]
  {
    var n1 := Step(start, Connect);
    var n2 := Step(n1, Logon(false));
    ConnectKeeps(start);
    assert n1.client == Client(Connected, 1, 1) && n1.toServer == [];
    LogonKeeps(n1, false);
    assert n2.client == Client(LogonSent, 1, 2) && n2.toServer == [] + [Plain('A', 1)] == [Plain('A', 1)];
    LogoutKeeps(n2);
  }

  /** The same from fresh stores, before the exchange has read anything. */
  lemma {:induction false} LogsOnAndOut(compId: CompId, valid: set<CompId>) returns (actions: seq<Action>)
    requires compId in valid
    ensures actions == [Connect, Logon(false), Logout]
    ensures var n := Run(Fresh(compId, valid), actions);
      && Lockstep(n) && Held(n) == Numbers(0, 1) && n.client.outSeq == 3
      && n.toServer == [Plain('A', 1), Plain('5', 2)]
  {
    var start := Fresh(compId, valid);
    assert Lockstep(start) && Held(start) == Numbers(0, 1);
    OnAndOut(start);
    RunThree(start, Connect, Logon(false), Logout);
    actions := [Connect, Logon(false), Logout];
  }

  lemma {:induction false} RunThree(n: Net, a: Action, b: Action, c: Action)
    ensures Run(n, [a, b, c]) == Step(Step(Step(n, a), b), c)
  {
    RunNext(n, [], a);
    RunNext(n, [a], b);
    RunNext(n, [a, b], c);
    assert [] + [a] == [a] && [a] + [b] == [a, b] && [a, b] + [c] == [a, b, c];
  }

  /** Let the exchange read both: it now waits for a number that the client has already used. */
  lemma {:induction false} LogoutEndsOutOfStep(compId: CompId, valid: set<CompId>) returns (actions: seq<Action>)
    requires compId in valid
    ensures actions == [Connect, Logon(false), Logout, ServerReceives(true), ServerReceives(true)]
    ensures var n := Run(Fresh(compId, valid), actions);
      n.toServer == [] && n.client.outSeq == 3 && Held(n).inSeq == 1 && !InStep(n)
  {
    var start := Fresh(compId, valid);
    var before := LogsOnAndOut(compId, valid);
    var receives := ServerReceives(true);
    RunNext(start, before, receives);
    RunNext(start, before + [receives], receives);
    actions := before + [receives] + [receives];
    BothRead(Run(start, before));
  }

  lemma {:induction false} BothRead(n: Net)
    requires Lockstep(n) && Held(n) == Numbers(0, 1) && n.client.outSeq == 3
    requires n.toServer == [Plain('A', 1), Plain('5', 2)]
    ensures var n' := Step(Step(n, ServerReceives(true)), ServerReceives(true));
      n'.toServer == [] && n'.client.outSeq == 3 && Held(n').inSeq == 1 && !InStep(n')
  {
    LogonServed(n, true);
    LogoutServed(Step(n, ServerReceives(true)), true);
  }
}
