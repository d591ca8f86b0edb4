/** The client's FIX session: its state, its stored sequence numbers and the messages it
    writes. */
module ClientSession {
  import opened Text

  datatype Phase = Disconnected | Connecting | Connected | LogonSent | Active | LoggingOut

  /** The header fields and the two body fields that sequence handling looks at. */
  datatype Message = Message(msgType: char, seqNum: nat, newSeqNo: Option<nat>, beginSeqNo: nat)

  /** Next number expected and next number to send, with the state of the session. */
  datatype Client = Client(phase: Phase, inSeq: nat, outSeq: nat)

  datatype Reaction = Reaction(client: Client, written: seq<Message>)

  function Plain(msgType: char, seqNum: nat): Message {
    Message(msgType, seqNum, None, 0)
  }

  /** Writes a message under the next number. */
  function Numbered(c: Client, msgType: char): Reaction {
    Reaction(c.(outSeq := c.outSeq + 1), [Plain(msgType, c.outSeq)])
  }

  function SendLogon(c: Client, forceReset: bool): Reaction {
    if c.phase != Connected && c.phase != Disconnected then Reaction(c, [])
    else
      var r := Numbered(if forceReset then c.(inSeq := 1, outSeq := 1) else c, 'A');
      r.(client := r.client.(phase := LogonSent))
  }

  function SendLogout(c: Client): Reaction {
    if c.phase == Active || c.phase == LogonSent then
      var r := Numbered(c, '5');
      r.(client := r.client.(phase := LoggingOut))
    else Reaction(c, [])
  }

  function SendMessage(c: Client, msgType: char): Reaction {
    if c.phase == Active then Numbered(c, msgType) else Reaction(c, [])
  }

  function Disconnect(c: Client): Client {
    c.(phase := Disconnected)
  }

  /** The number of every message but Logout and SequenceReset is checked: too low ends the
      session, a gap is skipped. */
  predicate Counted(m: Message) {
    m.msgType != '4' && m.msgType != '5'
  }

  predicate TooLow(c: Client, m: Message) {
    Counted(m) && m.seqNum < c.inSeq
  }

  function Account(c: Client, m: Message): Client {
    if Counted(m) then c.(inSeq := m.seqNum + 1) else c
  }

  /** What follows the check, by message type. */
  function Dispatch(c: Client, m: Message): Reaction {
    if m.msgType == 'A' then Reaction(c.(phase := Active), [])
    else if m.msgType == '1' then Numbered(c, '0')
    else if m.msgType == '2' then Reaction(c, [Message('4', m.beginSeqNo, Some(c.outSeq), 0)])
    else if m.msgType == '4' then Reaction(if m.newSeqNo.Some? then c.(inSeq := m.newSeqNo.value) else c, [])
    else if m.msgType == '5' then Reaction(Disconnect(c), [])
    else Reaction(c, [])
  }

  function HandleMessage(c: Client, m: Message): Reaction {
    if TooLow(c, m) then Reaction(Disconnect(c), []) else Dispatch(Account(c, m), m)
  }

  // ---------------------------------------------------------------- the objects

  class SeqNumStore {
    var inSeqNum: nat
    var outSeqNum: nat
    /** The numbers in the session's file. */
    var file: Option<(nat, nat)>

    /** Takes up the file of an earlier run, or starts a new one at 1/1. */
    constructor (file: Option<(nat, nat)>)
      ensures (inSeqNum, outSeqNum) == (if file.Some? then file.value else (1, 1))
      ensures this.file == Some((inSeqNum, outSeqNum))
    {
      if file.Some? {
        inSeqNum, outSeqNum := file.value.0, file.value.1;
        this.file := file;
      } else {
        inSeqNum, outSeqNum := 1, 1;
        this.file := Some((1, 1));
      }
    }

    method SetSeqNums(inSeq: nat, outSeq: nat)
      modifies this
      ensures inSeqNum == inSeq && outSeqNum == outSeq && file == Some((inSeq, outSeq))
    {
      inSeqNum, outSeqNum := inSeq, outSeq;
      file := Some((inSeqNum, outSeqNum));
    }

    method Reset()
      modifies this
      ensures inSeqNum == outSeqNum == 1 && file == Some((1, 1))
    {
      inSeqNum, outSeqNum := 1, 1;
      file := Some((inSeqNum, outSeqNum));
    }
  }

  class FixClientSession {
    const store: SeqNumStore
    var state: Phase
    /** Everything written so far, oldest first. */
    var written: seq<Message>

    constructor (store: SeqNumStore)
      ensures this.store == store && state == Disconnected && written == []
    {
      this.store := store;
      state, written := Disconnected, [];
    }

    function View(): Client
      reads this, store
    {
      Client(state, store.inSeqNum, store.outSeqNum)
    }

    /** The state and the messages written since are those of a reaction. */
    twostate predicate Did(r: Reaction)
      reads this, store
    {
      View() == r.client && written == old(written) + r.written
    }

    method DoWrite(m: Message)
      modifies this`written
      ensures written == old(written) + [m]
    {
      written := written + [m];
    }

    method SendLogonMessage(forceReset: bool)
      modifies this, store
      ensures Did(SendLogon(old(View()), forceReset))
    {
      if state != Connected && state != Disconnected {
        return;
      }
      if forceReset {
        store.Reset();
      }
      var outSeq := store.outSeqNum;
      store.SetSeqNums(store.inSeqNum, outSeq + 1);
      DoWrite(Plain('A', outSeq));
      state := LogonSent;
    }

    method SendLogoutMessage()
      modifies this, store
      ensures Did(SendLogout(old(View())))
    {
      if state == Active || state == LogonSent {
        var outSeq := store.outSeqNum;
        store.SetSeqNums(store.inSeqNum, outSeq + 1);
        DoWrite(Plain('5', outSeq));
        state := LoggingOut;
      }
    }

    /** Application messages, and heartbeats when the timer fires. */
    method SendTyped(msgType: char)
      modifies this, store
      ensures Did(SendMessage(old(View()), msgType))
    {
      if state != Active {
        return;
      }
      var outSeq := store.outSeqNum;
      store.SetSeqNums(store.inSeqNum, outSeq + 1);
      DoWrite(Plain(msgType, outSeq));
    }

    method HandleProtocolMessage(m: Message)
      modifies this, store
      ensures Did(HandleMessage(old(View()), m))
    {
      var expected := store.inSeqNum;
      if m.msgType != '4' && m.msgType != '5' {
        if m.seqNum == expected {
          store.SetSeqNums(expected + 1, store.outSeqNum);
        } else if m.seqNum > expected {
          store.SetSeqNums(m.seqNum + 1, store.outSeqNum);
        } else {
          state := Disconnected;
          return;
        }
      }
      match m.msgType
      case 'A' => state := Active;
      case '1' =>
        var outSeq := store.outSeqNum;
        store.SetSeqNums(store.inSeqNum, outSeq + 1);
        DoWrite(Plain('0', outSeq));
      case '2' =>
        DoWrite(Message('4', m.beginSeqNo, Some(store.outSeqNum), 0));
      case '4' =>
        if m.newSeqNo.Some? {
          store.SetSeqNums(m.newSeqNo.value, store.outSeqNum);
        }
      case '5' => state := Disconnected;
      case _ =>
    }
  }
}
