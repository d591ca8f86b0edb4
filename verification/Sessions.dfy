/** The exchange's FIX sessions: sequence numbers per company, and the write-behind queue that
    persists them. Sequence numbers are unbounded here. */
module Sessions {
  type CompId = string
  type SessionId = nat

  datatype SessionState = SessionState(compId: CompId, inSeq: nat, outSeq: nat, loggedOn: bool)

  /** A row of the sequence table: the last number received and the next one to send. */
  datatype Numbers = Numbers(inSeq: nat, outSeq: nat)

  /** A queued database task of the sequence repository. */
  datatype Task = Update(compId: CompId, numbers: Numbers)

  type Table = map<CompId, Numbers>

  const DEFAULT := Numbers(0, 1)

  /** Everything the session manager and its database hold. */
  datatype Backend = Backend(
    valid: set<CompId>,
    states: map<CompId, SessionState>,
    connections: map<SessionId, CompId>,
    tasks: seq<Task>,
    table: Table)

  // ---------------------------------------------------------------- the database queue

  function Upsert(table: Table, t: Task): Table {
    table[t.compId := t.numbers]
  }

  /** The table once all queued tasks have run, oldest first. */
  function RunAll(table: Table, tasks: seq<Task>): Table {
    if tasks == [] then table else Upsert(RunAll(table, tasks[..|tasks| - 1]), tasks[|tasks| - 1])
  }

  function Select(table: Table, compId: CompId): Numbers {
    if compId in table then table[compId] else DEFAULT
  }

  function Enqueue(b: Backend, t: Task): Backend {
    b.(tasks := b.tasks + [t])
  }

  /** The worker takes the oldest task and runs it. */
  function WorkerTurn(b: Backend): Backend {
    if b.tasks == [] then b else b.(table := Upsert(b.table, b.tasks[0]), tasks := b.tasks[1..])
  }

  /** A query waits in the same queue behind everything that was enqueued before it. */
  function DrainQueue(b: Backend): Backend {
    b.(table := RunAll(b.table, b.tasks), tasks := [])
  }

  // ---------------------------------------------------------------- the session manager

  function Persist(b: Backend, s: SessionState): Backend {
    Enqueue(b, Update(s.compId, Numbers(s.inSeq, s.outSeq)))
  }

  /** The state behind a connection, if there is one. */
  predicate Linked(b: Backend, id: SessionId) {
    id in b.connections && b.connections[id] in b.states
  }

  function StateOf(b: Backend, id: SessionId): SessionState
    requires Linked(b, id)
  {
    b.states[b.connections[id]]
  }

  function SetState(b: Backend, id: SessionId, s: SessionState): Backend
    requires Linked(b, id)
  {
    b.(states := b.states[b.connections[id] := s])
  }

  /** Links the connection and logs the company on; its numbers come from memory or, the first
      time, from the database. */
  function LogOn(b: Backend, id: SessionId, compId: CompId): Backend {
    var linked := b.(connections := b.connections[id := compId]);
    if compId in b.states then
      linked.(states := b.states[compId := b.states[compId].(loggedOn := true)])
    else
      var drained := DrainQueue(linked);
      var numbers := Select(drained.table, compId);
      drained.(states := b.states[compId := SessionState(compId, numbers.inSeq, numbers.outSeq, true)])
  }

  predicate Accepts(b: Backend, compId: CompId) {
    compId in b.valid
  }

  predicate LoggedOn(b: Backend, id: SessionId) {
    Linked(b, id) && StateOf(b, id).loggedOn
  }

  /** Is this the next number of a logged-on session? */
  predicate Expected(b: Backend, id: SessionId, seqNum: nat) {
    LoggedOn(b, id) && seqNum == StateOf(b, id).inSeq + 1
  }

  /** Only the expected number is taken over; a gap or a number too low changes nothing. */
  function Validate(b: Backend, id: SessionId, seqNum: nat): Backend {
    if Expected(b, id, seqNum) then
      var s := StateOf(b, id).(inSeq := seqNum);
      Persist(SetState(b, id, s), s)
    else
      b
  }

  /** The number the next outbound message carries; 1 where there is no session. */
  function NextOut(b: Backend, id: SessionId): nat {
    if Linked(b, id) then StateOf(b, id).outSeq else 1
  }

  function UseNext(b: Backend, id: SessionId): Backend {
    if Linked(b, id) then
      var s := StateOf(b, id).(outSeq := StateOf(b, id).outSeq + 1);
      Persist(SetState(b, id, s), s)
    else
      b
  }

  function LogOff(b: Backend, id: SessionId): Backend {
    if Linked(b, id) then SetState(b, id, StateOf(b, id).(loggedOn := false)) else b
  }

  function Cleanup(b: Backend, id: SessionId): Backend {
    b.(connections := b.connections - {id})
  }

  /** A new process over the same database: memory is gone, queued tasks still run. */
  function Restarted(b: Backend): Backend {
    b.(states := map[], connections := map[])
  }

  // ---------------------------------------------------------------- persistence is invisible

  /** A company's numbers as the database will show them once the queue is empty. */
  function Stored(b: Backend, compId: CompId): Numbers {
    Select(RunAll(b.table, b.tasks), compId)
  }

  /** The write-behind invariant: table and queue together hold every company's numbers. */
  predicate Persisted(b: Backend) {
    forall c | c in b.states ::
      && b.states[c].compId == c
      && Stored(b, c) == Numbers(b.states[c].inSeq, b.states[c].outSeq)
  }

  lemma {:induction false} RunAllFront(table: Table, tasks: seq<Task>)
    requires tasks != []
    ensures RunAll(table, tasks) == RunAll(Upsert(table, tasks[0]), tasks[1..])
  {
    if |tasks| == 1 {
      assert tasks[..0] == [];
    } else {
      RunAllFront(table, tasks[..|tasks| - 1]);
      assert tasks[..|tasks| - 1][1..] == tasks[1..][..|tasks| - 2];
    }
  }

  /** When the worker runs makes no difference to anything that can be asked. */
  lemma {:induction false} WorkerIsInvisible(b: Backend)
    ensures RunAll(WorkerTurn(b).table, WorkerTurn(b).tasks) == RunAll(b.table, b.tasks)
    ensures RunAll(DrainQueue(b).table, DrainQueue(b).tasks) == RunAll(b.table, b.tasks)
    ensures Persisted(b) ==> Persisted(WorkerTurn(b)) && Persisted(DrainQueue(b))
  {
    if b.tasks != [] {
      RunAllFront(b.table, b.tasks);
    }
  }

  lemma {:induction false} EnqueueUpdates(b: Backend, t: Task, c: CompId)
    ensures Stored(Enqueue(b, t), c) == if c == t.compId then t.numbers else Stored(b, c)
  {
    var tasks := b.tasks + [t];
    assert tasks[..|tasks| - 1] == b.tasks;
  }

  /** A state change that is enqueued keeps the invariant. */
  lemma {:induction false} PersistKeeps(b: Backend, id: SessionId, s: SessionState)
    requires Persisted(b) && Linked(b, id) && s.compId == b.connections[id]
    ensures var b' := Persist(SetState(b, id, s), s);
      && Persisted(b')
      && Stored(b', s.compId) == Numbers(s.inSeq, s.outSeq)
      && forall c | c != s.compId :: Stored(b', c) == Stored(b, c)
  {
    var set1 := SetState(b, id, s);
    forall c
      ensures Stored(Persist(set1, s), c) == if c == s.compId then Numbers(s.inSeq, s.outSeq) else Stored(b, c)
    {
      EnqueueUpdates(set1, Update(s.compId, Numbers(s.inSeq, s.outSeq)), c);
    }
  }

  /** Logging on keeps the invariant and starts from exactly the stored numbers, whether they
      come from memory or from the database behind its queue. */
  lemma {:induction false} LogOnResumes(b: Backend, id: SessionId, compId: CompId)
    requires Persisted(b)
    ensures var b' := LogOn(b, id, compId);
      && Persisted(b') && LoggedOn(b', id)
      && StateOf(b', id) == SessionState(compId, Stored(b, compId).inSeq, Stored(b, compId).outSeq, true)
      && forall c :: Stored(b', c) == Stored(b, c)
  {
    if compId in b.states {
      KnownResumes(b, id, compId);
    } else {
      UnknownResumes(b, id, compId);
    }
  }

  lemma {:induction false} KnownResumes(b: Backend, id: SessionId, compId: CompId)
    requires Persisted(b) && compId in b.states
    ensures var b' := LogOn(b, id, compId);
      && Persisted(b') && LoggedOn(b', id)
      && StateOf(b', id) == SessionState(compId, Stored(b, compId).inSeq, Stored(b, compId).outSeq, true)
      && forall c :: Stored(b', c) == Stored(b, c)
  {
    var b' := LogOn(b, id, compId);
    assert b'.table == b.table && b'.tasks == b.tasks;
  }

  lemma {:induction false} UnknownResumes(b: Backend, id: SessionId, compId: CompId)
    requires Persisted(b) && compId !in b.states
    ensures var b' := LogOn(b, id, compId);
      && Persisted(b') && LoggedOn(b', id)
      && StateOf(b', id) == SessionState(compId, Stored(b, compId).inSeq, Stored(b, compId).outSeq, true)
      && forall c :: Stored(b', c) == Stored(b, c)
  {
    var b' := LogOn(b, id, compId);
    assert b'.table == RunAll(b.table, b.tasks) && b'.tasks == [];
  }

  /** Nothing but the numbers of this connection's company has changed. */
  ghost predicate Moves(b: Backend, b': Backend, id: SessionId, inSeq: nat, outSeq: nat)
    requires Linked(b, id)
  {
    && b' == SetState(b, id, StateOf(b, id).(inSeq := inSeq, outSeq := outSeq)).(tasks := b'.tasks)
    && Persisted(b')
    && Stored(b', b.connections[id]) == Numbers(inSeq, outSeq)
    && forall c | c != b.connections[id] :: Stored(b', c) == Stored(b, c)
  }

  /** The expected number is taken over and stored; any other leaves everything as it was. */
  lemma {:induction false} ValidateMoves(b: Backend, id: SessionId, seqNum: nat)
    requires Persisted(b)
    ensures if Expected(b, id, seqNum) then Moves(b, Validate(b, id, seqNum), id, seqNum, StateOf(b, id).outSeq)
            else Validate(b, id, seqNum) == b
  {
    if Expected(b, id, seqNum) {
      PersistKeeps(b, id, StateOf(b, id).(inSeq := seqNum));
    }
  }

  /** Sending uses one number up and stores the next one. */
  lemma {:induction false} UseNextMoves(b: Backend, id: SessionId)
    requires Persisted(b)
    ensures if Linked(b, id) then Moves(b, UseNext(b, id), id, StateOf(b, id).inSeq, StateOf(b, id).outSeq + 1)
            else UseNext(b, id) == b
  {
    if Linked(b, id) {
      PersistKeeps(b, id, StateOf(b, id).(outSeq := StateOf(b, id).outSeq + 1));
    }
  }

  /** Logging off, forgetting a connection and restarting leave every number stored. */
  lemma {:induction false} EndingsKeepNumbers(b: Backend, id: SessionId)
    requires Persisted(b)
    ensures Persisted(LogOff(b, id)) && Persisted(Cleanup(b, id)) && Persisted(Restarted(b))
    ensures forall c :: Stored(LogOff(b, id), c) == Stored(Cleanup(b, id), c) == Stored(Restarted(b), c) == Stored(b, c)
  {
    assert LogOff(b, id).table == b.table && LogOff(b, id).tasks == b.tasks;
  }

  /** A rebuilt session manager, authenticating behind whatever is still queued, resumes every
      company with the numbers the old one held. */
  lemma {:induction false} RestartResumes(b: Backend, id: SessionId, compId: CompId)
    requires Persisted(b)
    ensures var s := StateOf(LogOn(Restarted(b), id, compId), id);
      if compId in b.states then s == b.states[compId].(loggedOn := true)
      else s == SessionState(compId, Stored(b, compId).inSeq, Stored(b, compId).outSeq, true)
  {
    LogOnResumes(Restarted(b), id, compId);
  }

  // ---------------------------------------------------------------- the objects

  class DatabaseWorker {
    var tasks: seq<Task>
    var table: Table

    constructor (table: Table)
      ensures tasks == [] && this.table == table
    {
      tasks, this.table := [], table;
    }

    method EnqueueTask(t: Task)
      modifies this`tasks
      ensures tasks == old(tasks) + [t]
    {
      tasks := tasks + [t];
    }

    /** The worker's loop, stopped after a number of turns. */
    method WorkerLoop(turns: nat)
      modifies this
      ensures RunAll(table, tasks) == RunAll(old(table), old(tasks))
      ensures |tasks| == if turns < |old(tasks)| then |old(tasks)| - turns else 0
      ensures tasks == old(tasks)[|old(tasks)| - |tasks|..]
    {
      var turn := 0;
      while turn < turns
        invariant turn <= turns
        invariant RunAll(table, tasks) == RunAll(old(table), old(tasks))
        invariant |tasks| == if turn < |old(tasks)| then |old(tasks)| - turn else 0
        invariant tasks == old(tasks)[|old(tasks)| - |tasks|..]
      {
        turn := turn + 1;
        if tasks == [] {
          continue;
        }
        RunAllFront(table, tasks);
        var task := tasks[0];
        tasks := tasks[1..];
        table := Upsert(table, task);
      }
    }

    /** Blocks until everything enqueued so far has run. */
    method Sync()
      modifies this
      ensures tasks == [] && table == RunAll(old(table), old(tasks))
    {
      WorkerLoop(|tasks|);
      assert RunAll(table, tasks) == table;
    }
  }

  class SequenceRepository {
    const db: DatabaseWorker

    constructor (db: DatabaseWorker)
      ensures this.db == db
    {
      this.db := db;
    }

    method GetSequenceNumbers(compId: CompId) returns (numbers: Numbers)
      modifies db
      ensures db.tasks == [] && db.table == RunAll(old(db.table), old(db.tasks))
      ensures numbers == Select(db.table, compId)
    {
      db.Sync();
      numbers := Select(db.table, compId);
    }

    method UpdateSequenceNumbers(compId: CompId, inSeq: nat, outSeq: nat)
      modifies db`tasks
      ensures db.tasks == old(db.tasks) + [Update(compId, Numbers(inSeq, outSeq))]
    {
      db.EnqueueTask(Update(compId, Numbers(inSeq, outSeq)));
    }
  }

  class FixSessionManager {
    const seqRepo: SequenceRepository
    var valid: set<CompId>
    var states: map<CompId, SessionState>
    var connections: map<SessionId, CompId>

    constructor (seqRepo: SequenceRepository)
      ensures this.seqRepo == seqRepo && valid == {} && states == map[] && connections == map[]
    {
      this.seqRepo := seqRepo;
      valid, states, connections := {}, map[], map[];
    }

    function View(): Backend
      reads this, seqRepo.db
    {
      Backend(valid, states, connections, seqRepo.db.tasks, seqRepo.db.table)
    }

    method LoadConfig(validClients: seq<CompId>)
      modifies this`valid
      ensures View() == old(View()).(valid := set c | c in validClients)
    {
      valid := {};
      var i := 0;
      while i < |validClients|
        invariant i <= |validClients| && valid == set c | c in validClients[..i]
      {
        valid := valid + {validClients[i]};
        i := i + 1;
      }
      assert validClients[..i] == validClients;
    }

    method Authenticate(id: SessionId, compId: CompId) returns (ok: bool)
      modifies this, seqRepo.db
      ensures ok == Accepts(old(View()), compId)
      ensures View() == if ok then LogOn(old(View()), id, compId) else old(View())
    {
      if compId !in valid {
        return false;
      }
      connections := connections[id := compId];
      if compId !in states {
        var numbers := seqRepo.GetSequenceNumbers(compId);
        states := states[compId := SessionState(compId, numbers.inSeq, numbers.outSeq, false)];
      }
      states := states[compId := states[compId].(loggedOn := true)];
      ok := true;
    }

    method ValidateSequence(id: SessionId, seqNum: nat) returns (ok: bool)
      modifies this`states, seqRepo.db`tasks
      ensures ok == Expected(old(View()), id, seqNum)
      ensures View() == Validate(old(View()), id, seqNum)
    {
      if id !in connections {
        return false;
      }
      var compId := connections[id];
      if compId !in states || !states[compId].loggedOn {
        return false;
      }
      var expected := states[compId].inSeq + 1;
      if seqNum == expected {
        states := states[compId := states[compId].(inSeq := seqNum)];
        var state := states[compId];
        seqRepo.UpdateSequenceNumbers(state.compId, state.inSeq, state.outSeq);
        return true;
      }
      ok := false;
    }

    method UseNextOutboundSequence(id: SessionId) returns (current: nat)
      modifies this`states, seqRepo.db`tasks
      ensures current == NextOut(old(View()), id)
      ensures View() == UseNext(old(View()), id)
    {
      if id !in connections || connections[id] !in states {
        return 1;
      }
      var compId := connections[id];
      current := states[compId].outSeq;
      states := states[compId := states[compId].(outSeq := current + 1)];
      var state := states[compId];
      seqRepo.UpdateSequenceNumbers(state.compId, state.inSeq, state.outSeq);
    }

    method HandleLogout(id: SessionId)
      modifies this`states
      ensures View() == LogOff(old(View()), id)
    {
      if id in connections && connections[id] in states {
        var compId := connections[id];
        states := states[compId := states[compId].(loggedOn := false)];
      }
    }

    method CleanupConnection(id: SessionId)
      modifies this`connections
      ensures View() == Cleanup(old(View()), id)
    {
      connections := connections - {id};
    }
  }
}
