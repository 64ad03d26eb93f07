/** One hub with every goroutine that touches it, as interleaved atomic steps: listen
sessions, ingest connections, the shard goroutines of their broadcasts, the cancel
watchers and Close (backend/internal/streaming/hub.go, listen.go, ingest.go).

Sessions and connections are numbered by the order in which they start, which is the
freshness of the random listener ids; the channel a session makes has its number. */
module HubMachine {
  import opened Outcomes
  import opened Fanout

  // The num-th chunk read by ingest connection conn.
  datatype Chunk = Chunk(conn: nat, num: nat)

  datatype Reason = Client | StreamEnded | WriteFailed

  datatype ListenPc =
    | WantsToSubscribe          // the channel is made, the write lock is not held yet
    | HoldsToSubscribe          // Subscribe, between Lock and Unlock
    | Registered                // about to count ListenerConnected
    | Looping
    | Writing(chunk: Chunk)     // chunk taken off the channel, conn.Write in progress
    | Leaving(reason: Reason)   // the loop has returned, its deferred calls follow
    | WantsToUnsubscribe
    | HoldsToUnsubscribe        // Unsubscribe, between Lock and Unlock
    | Finished

  datatype Session = Session(
    pc: ListenPc,
    cancelled: bool,              // loopCtx is done
    queue: seq<Chunk>,            // what the buffered channel holds
    closes: nat,                  // how often the channel has been closed
    reasons: seq<Reason>,         // the disconnects counted for the session
    // History: the chunks taken off the channel, the chunks dropped or given up for
    // this listener, and the part of the hub's log between subscribe and unsubscribe.
    taken: seq<Chunk>,
    lost: seq<Chunk>,
    skipped: seq<Chunk>,
    since: nat,
    until: nat)

  datatype IngestPc =
    | Reading
    | WantsToBroadcast(chunk: Chunk)
    | Broadcasting(chunk: Chunk, shards: seq<seq<nat>>)   // what is left of each shard
    | Gone

  datatype Conn = Conn(pc: IngestPc, cancelled: bool, next: nat)

  datatype State = State(
    capacity: nat,
    closed: bool,            // the hub's own context is done
    writer: Option<nat>,     // the session inside a write-locked section
    readers: nat,            // the read locks held
    listeners: set<nat>,
    sessions: seq<Session>,
    conns: seq<Conn>,
    log: seq<Chunk>,         // history: the broadcasts begun, in order
    gauge: int,              // ListenerConnected minus ListenerDisconnected
    drops: nat)              // ChunkDropped

  datatype Step =
    | Close
    | Connect
    | LockToSubscribe(s: nat)
    | Subscribe(s: nat)
    | CountConnect(s: nat)
    | Take(s: nat)
    | WriteSucceeds(s: nat)
    | WriteFails(s: nat)
    | SeesCancel(s: nat)
    | SeesClosedChannel(s: nat)
    | CountDisconnect(s: nat)
    | LockToUnsubscribe(s: nat)
    | Unsubscribe(s: nat)
    | ClientLeaves(s: nat)
    | WatcherCancels(s: nat)
    | Attach
    | Read(c: nat)
    | ReadFails(c: nat)
    | Begin(c: nat, order: seq<nat>)
    | Handle(c: nat, j: nat)
    | GiveUp(c: nat, j: nat)
    | End(c: nat)
    | BroadcasterLeaves(c: nat)
    | IngestWatcherCancels(c: nat)

  // An unbuffered channel is not modelled.
  function Start(capacity: nat): State
    requires capacity >= 1
  {
    State(capacity, false, None, 0, {}, [], [], [], 0, 0)
  }

  const NEW_SESSION := Session(WantsToSubscribe, false, [], 0, [], [], [], [], 0, 0)
  const NEW_CONN := Conn(Reading, false, 0)

  predicate Holds(pc: ListenPc) {
    pc.HoldsToSubscribe? || pc.HoldsToUnsubscribe?
  }

  // The session's channel is in the listeners map.
  predicate IsRegistered(pc: ListenPc) {
    pc.Registered? || pc.Looping? || pc.Writing? || pc.Leaving? || pc.WantsToUnsubscribe? || pc.HoldsToUnsubscribe?
  }

  predicate IsCounted(pc: ListenPc) {
    pc.Looping? || pc.Writing? || pc.Leaving?
  }

  predicate HasDisconnected(pc: ListenPc) {
    pc.WantsToUnsubscribe? || pc.HoldsToUnsubscribe? || pc.Finished?
  }

  // ---------------------------------------------------------------------
  // When a step can happen
  // ---------------------------------------------------------------------

  predicate At(st: State, s: nat, pc: ListenPc) {
    s < |st.sessions| && st.sessions[s].pc == pc
  }

  predicate Unlocked(st: State) {
    st.writer == None && st.readers == 0
  }

  ghost predicate SessionEnabled(st: State, step: Step) {
    match step
    case Connect => true
    case LockToSubscribe(s) => At(st, s, WantsToSubscribe) && Unlocked(st)
    case Subscribe(s) => At(st, s, HoldsToSubscribe)
    case CountConnect(s) => At(st, s, Registered)
    case Take(s) => At(st, s, Looping) && st.sessions[s].queue != []
    case WriteSucceeds(s) => s < |st.sessions| && st.sessions[s].pc.Writing?
    case WriteFails(s) => s < |st.sessions| && st.sessions[s].pc.Writing?
    case SeesCancel(s) => At(st, s, Looping) && st.sessions[s].cancelled
    case SeesClosedChannel(s) => At(st, s, Looping) && st.sessions[s].closes > 0 && st.sessions[s].queue == []
    case CountDisconnect(s) => s < |st.sessions| && st.sessions[s].pc.Leaving?
    case LockToUnsubscribe(s) => At(st, s, WantsToUnsubscribe) && Unlocked(st)
    case Unsubscribe(s) => At(st, s, HoldsToUnsubscribe)
    case ClientLeaves(s) => s < |st.sessions| && !st.sessions[s].cancelled
    case WatcherCancels(s) =>
      s < |st.sessions| && !st.sessions[s].cancelled && st.closed
      && (st.sessions[s].pc.Looping? || st.sessions[s].pc.Writing?)
    case _ => false
  }

  predicate SendsTo(st: State, c: nat, j: nat) {
    && c < |st.conns| && st.conns[c].pc.Broadcasting?
    && j < |st.conns[c].pc.shards| && st.conns[c].pc.shards[j] != []
    && st.conns[c].pc.shards[j][0] < |st.sessions|
  }

  // The listener that shard j of connection c's broadcast is about to handle.
  function Target(st: State, c: nat, j: nat): nat
    requires SendsTo(st, c, j)
  {
    st.conns[c].pc.shards[j][0]
  }

  ghost predicate ConnEnabled(st: State, step: Step) {
    match step
    case Attach => true
    // A read on a cancelled context fails.
    case Read(c) => c < |st.conns| && st.conns[c].pc.Reading? && !st.conns[c].cancelled
    case ReadFails(c) => c < |st.conns| && st.conns[c].pc.Reading?
    case Begin(c, order) =>
      && c < |st.conns| && st.conns[c].pc.WantsToBroadcast? && st.writer == None
      && Distinct(order) && forall s :: s in order <==> s in st.listeners
    // The default branch of the select runs only if no other branch can.
    case Handle(c, j) =>
      SendsTo(st, c, j)
      && (|st.sessions[Target(st, c, j)].queue| < st.capacity || !st.conns[c].cancelled)
    case GiveUp(c, j) =>
      && c < |st.conns| && st.conns[c].pc.Broadcasting? && st.conns[c].cancelled
      && j < |st.conns[c].pc.shards| && st.conns[c].pc.shards[j] != []
    case End(c) =>
      && c < |st.conns| && st.conns[c].pc.Broadcasting?
      && forall j :: 0 <= j < |st.conns[c].pc.shards| ==> st.conns[c].pc.shards[j] == []
    case BroadcasterLeaves(c) => c < |st.conns| && !st.conns[c].cancelled
    case IngestWatcherCancels(c) =>
      c < |st.conns| && !st.conns[c].cancelled && st.closed && !st.conns[c].pc.Gone?
    case _ => false
  }

  ghost predicate Enabled(st: State, step: Step) {
    SessionEnabled(st, step) || ConnEnabled(st, step) || (step.Close? && !st.closed)
  }

  // ---------------------------------------------------------------------
  // What a step does
  // ---------------------------------------------------------------------

  function Move(st: State, s: nat, pc: ListenPc): State
    requires s < |st.sessions|
  {
    st.(sessions := st.sessions[s := st.sessions[s].(pc := pc)])
  }

  function SessionNext(st: State, step: Step): State
    requires SessionEnabled(st, step)
  {
    match step
    case Connect => st.(sessions := st.sessions + [NEW_SESSION])
    case LockToSubscribe(s) => Move(st, s, HoldsToSubscribe).(writer := Some(s))
    case Subscribe(s) =>
      st.(sessions := st.sessions[s := st.sessions[s].(pc := Registered, since := |st.log|)],
          listeners := st.listeners + {s}, writer := None)
    case CountConnect(s) => Move(st, s, Looping).(gauge := st.gauge + 1)
    case Take(s) =>
      var sess := st.sessions[s];
      st.(sessions := st.sessions[s := sess.(pc := Writing(sess.queue[0]), queue := sess.queue[1..],
                                             taken := sess.taken + [sess.queue[0]])])
    case WriteSucceeds(s) => Move(st, s, Looping)
    case WriteFails(s) => Move(st, s, Leaving(WriteFailed))
    case SeesCancel(s) => Move(st, s, Leaving(Client))
    case SeesClosedChannel(s) => Move(st, s, Leaving(StreamEnded))
    case CountDisconnect(s) =>
      var sess := st.sessions[s];
      st.(sessions := st.sessions[s := sess.(pc := WantsToUnsubscribe, cancelled := true,
                                             reasons := sess.reasons + [sess.pc.reason])],
          gauge := st.gauge - 1)
    case LockToUnsubscribe(s) => Move(st, s, HoldsToUnsubscribe).(writer := Some(s))
    case Unsubscribe(s) =>
      var sess := st.sessions[s];
      st.(sessions := st.sessions[s := sess.(pc := Finished, closes := sess.closes + 1, until := |st.log|)],
          listeners := st.listeners - {s}, writer := None)
    case ClientLeaves(s) => st.(sessions := st.sessions[s := st.sessions[s].(cancelled := true)])
    case WatcherCancels(s) => st.(sessions := st.sessions[s := st.sessions[s].(cancelled := true)])
  }

  function Deliver(sess: Session, x: Chunk, capacity: nat): Session {
    var lost := if |sess.queue| < capacity then [] else [x];
    sess.(queue := Offer(sess.queue, x, capacity), lost := sess.lost + lost)
  }

  function Skip(sess: Session, x: Chunk): Session {
    sess.(skipped := sess.skipped + [x])
  }

  function ConnMove(st: State, c: nat, pc: IngestPc): State
    requires c < |st.conns|
  {
    st.(conns := st.conns[c := st.conns[c].(pc := pc)])
  }

  function ConnNext(st: State, step: Step): State
    requires ConnEnabled(st, step)
  {
    match step
    case Attach => st.(conns := st.conns + [NEW_CONN])
    case Read(c) =>
      var n := st.conns[c].next;
      st.(conns := st.conns[c := st.conns[c].(pc := WantsToBroadcast(Chunk(c, n)), next := n + 1)])
    // The deferred loopCancel runs as the handler returns.
    case ReadFails(c) => st.(conns := st.conns[c := st.conns[c].(pc := Gone, cancelled := true)])
    case Begin(c, order) =>
      var x := st.conns[c].pc.chunk;
      ConnMove(st, c, Broadcasting(x, Batches(order))).(readers := st.readers + 1, log := st.log + [x])
    case Handle(c, j) =>
      var pc := st.conns[c].pc;
      var e := Target(st, c, j);
      ConnMove(st, c, pc.(shards := pc.shards[j := pc.shards[j][1..]])).(
        sessions := st.sessions[e := Deliver(st.sessions[e], pc.chunk, st.capacity)],
        drops := st.drops + (if |st.sessions[e].queue| < st.capacity then 0 else 1))
    case GiveUp(c, j) =>
      var pc := st.conns[c].pc;
      ConnMove(st, c, pc.(shards := pc.shards[j := []])).(
        sessions := seq(|st.sessions|, s requires 0 <= s < |st.sessions| =>
                          if s in pc.shards[j] then Skip(st.sessions[s], pc.chunk) else st.sessions[s]))
    case End(c) => ConnMove(st, c, Reading).(readers := if st.readers > 0 then st.readers - 1 else 0)
    case BroadcasterLeaves(c) => st.(conns := st.conns[c := st.conns[c].(cancelled := true)])
    case IngestWatcherCancels(c) => st.(conns := st.conns[c := st.conns[c].(cancelled := true)])
  }

  ghost function Next(st: State, step: Step): State
    requires Enabled(st, step)
  {
    if SessionEnabled(st, step) then SessionNext(st, step)
    else if ConnEnabled(st, step) then ConnNext(st, step)
    else st.(closed := true)
  }

  // A schedule every step of which can happen when its turn comes.
  ghost predicate Runs(st: State, steps: seq<Step>)
    decreases |steps|
  {
    steps == [] || (Enabled(st, steps[0]) && Runs(Next(st, steps[0]), steps[1..]))
  }

  ghost function After(st: State, steps: seq<Step>): State
    requires Runs(st, steps)
    decreases |steps|
  {
    if steps == [] then st else After(Next(st, steps[0]), steps[1..])
  }
}
