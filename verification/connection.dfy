/** The session connection manager: one live connection per session id, a
    status per session, per-message delivery tracking, a per-session table of
    background tasks keyed by message id, and a recovery cache holding the 20
    most recent outbound messages of each session.

    The manager's per-session dictionaries (connections, statuses, task
    tables, tracking, caches) are gathered into one `Session` record per
    session id; an absent dictionary entry is an absent handle or status, or
    an empty table or cache, which the manager treats alike.

    The manager is a value; every operation returns the new value. Writing to
    a connection appends to `wire`, the log of frames handed to the
    transport. Whether a write to a connection fails, and how, is given by the
    environment in `faults`. Generated message ids come from the counter
    `nextId`, so no two of them are equal; `clock` stands for the current
    time. */
module Connection {
  import opened Common

  /** A message id: one the server generated (a fresh uuid), or one a client
      supplied in its frame, a string or a number. Python's `True` and
      `False` are the dictionary keys 1 and 0, so they are numbers here. */
  datatype MsgId = Generated(n: nat) | Client(text: string) | ClientNumber(number: int) {
    /** Python treats the empty string and zero as "no id". */
    predicate Falsy() {
      this == Client("") || this == ClientNumber(0)
    }
  }

  /** An outbound JSON message: its `type`, its `data` (`JNull` when the
      dictionary has no `data` key), the `message_id` and `timestamp` keys
      when present, the `is_recovery` flag, and the top-level `size` key that
      only the cached binary metadata carries. */
  datatype Message = Message(kind: string, data: Json, messageId: Option<MsgId>,
                             timestamp: Option<nat>, isRecovery: bool, size: Option<nat>)

  function Msg(kind: string, data: Json): Message {
    Message(kind, data, None, None, false, None)
  }

  /** One recovery-cache entry: when it was cached, the message, and whether
      it stood for binary data. */
  datatype CacheEntry = CacheEntry(cachedAt: nat, msg: Message, binary: bool)

  type Handle = nat

  datatype Frame =
    | JsonFrame(msg: Message)
    | BytesFrame(bytes: seq<bv8>)
    | CloseFrame(code: int, reason: string)

  datatype WireEvent = WireEvent(to: Handle, frame: Frame)

  datatype Status = Connected | Disconnecting | Disconnected

  /** How a write to a connection fails: the peer has gone (the framework's
      disconnect exception), or any other exception with its text. */
  datatype Fault = PeerGone | Raises(text: string)

  datatype TrackKind = JsonTrack | BinaryTrack(size: nat) | TaskTrack
  datatype TrackStatus =
    | Sending | Sent | SendFailed(error: string)
    | Running | Completed | Cancelled | TaskFailed(error: string)
  datatype Track = Track(kind: TrackKind, status: TrackStatus)

  /** A task is running, has been asked to stop (`task.cancel()`), or has
      ended in one of three ways. */
  datatype TaskState = TaskRunning | Cancelling | TaskCompleted | TaskCancelled | TaskErrored(error: string)

  /** A background task: the session and message id it was created for, and
      its state. */
  datatype TaskRun = TaskRun(session: string, mid: MsgId, state: TaskState)

  /** Everything the manager keeps about one session id. */
  datatype Session = Session(handle: Option<Handle>, status: Option<Status>,
                             tasks: map<MsgId, nat>, tracking: map<MsgId, Track>,
                             cache: seq<CacheEntry>)

  const NoSession := Session(None, None, map[], map[], [])

  datatype Manager = Manager(
    sessions: map<string, Session>,
    runs: map<nat, TaskRun>,
    faults: map<Handle, Fault>,
    wire: seq<WireEvent>,
    nextId: nat,
    nextTask: nat,
    clock: nat)

  const MaxCached := 20

  // ------------------------------------------------------------- queries

  function Get(m: Manager, sid: string): Session {
    if sid in m.sessions then m.sessions[sid] else NoSession
  }

  function Put(m: Manager, sid: string, s: Session): (r: Manager)
    ensures Get(r, sid) == s
    ensures r == m.(sessions := r.sessions)
    ensures forall o :: o != sid ==> Get(r, o) == Get(m, o)
  {
    m.(sessions := m.sessions[sid := s])
  }

  /** `is_connected`: a live handle and the status "connected". */
  predicate Live(s: Session) {
    s.handle.Some? && s.status == Some(Connected)
  }

  predicate IsConnected(m: Manager, sid: string) {
    Live(Get(m, sid))
  }

  /** The handle a frame for session `sid` goes to. */
  function HandleOf(m: Manager, sid: string): Handle
    requires Get(m, sid).handle.Some?
  {
    Get(m, sid).handle.value
  }

  /** The session can be written to without an exception. */
  predicate Writable(m: Manager, sid: string) {
    IsConnected(m, sid) && HandleOf(m, sid) !in m.faults
  }

  /** The well-formedness the operations keep: no cache exceeds 20 entries
      and every cached message carries an id and a timestamp. */
  predicate Valid(m: Manager) {
    forall sid :: sid in m.sessions ==> CacheValid(m.sessions[sid].cache)
  }

  predicate CacheValid(c: seq<CacheEntry>) {
    |c| <= MaxCached && forall i :: 0 <= i < |c| ==> c[i].msg.messageId.Some? && c[i].msg.timestamp.Some?
  }

  // --------------------------------------------------------------- cache

  /** The last `MaxCached` entries, oldest first. */
  function Window(c: seq<CacheEntry>): (r: seq<CacheEntry>)
    ensures |r| <= MaxCached
    ensures |c| <= MaxCached ==> r == c
    ensures |c| > MaxCached ==> r == c[|c| - MaxCached..]
  {
    if |c| > MaxCached then c[|c| - MaxCached..] else c
  }

  /** Trimming after every append keeps exactly the window of everything
      appended so far. */
  lemma WindowAppend(c: seq<CacheEntry>, e: CacheEntry)
    ensures Window(Window(c) + [e]) == Window(c + [e])
  {
    if |c| > MaxCached {
      assert (c + [e])[|c| + 1 - MaxCached..] == (c[|c| - MaxCached..] + [e])[1..];
    }
  }

  /** Appending the entries one at a time, trimming each time. */
  function AppendAll(c: seq<CacheEntry>, es: seq<CacheEntry>): seq<CacheEntry>
    decreases |es|
  {
    if |es| == 0 then c else AppendAll(Window(c + [es[0]]), es[1..])
  }

  /** However many entries arrive, the cache is the 20 most recent of them,
      in arrival order: the oldest are dropped first. */
  lemma {:induction false} AppendAllIsWindow(c: seq<CacheEntry>, es: seq<CacheEntry>)
    ensures AppendAll(Window(c), es) == Window(c + es)
    decreases |es|
  {
    if |es| > 0 {
      AppendAllStep(Window(c), es);
      WindowAppend(c, es[0]);
      AppendAllIsWindow(c + [es[0]], es[1..]);
      ConsTail(c, es);
    }
  }

  /** Appending a non-empty run appends its first entry, then the rest. */
  lemma AppendAllStep(c: seq<CacheEntry>, es: seq<CacheEntry>)
    requires |es| > 0
    ensures AppendAll(c, es) == AppendAll(Window(c + [es[0]]), es[1..])
  {
  }

  lemma ConsTail<T>(c: seq<T>, es: seq<T>)
    requires |es| > 0
    ensures c + [es[0]] + es[1..] == c + es
  {
    assert [es[0]] + es[1..] == es;
  }

  /** `_cache_message`: append, then keep the 20 most recent. */
  function CacheMessage(c: seq<CacheEntry>, e: CacheEntry): (r: seq<CacheEntry>)
    ensures |c| <= MaxCached ==> |r| == if |c| < MaxCached then |c| + 1 else MaxCached
    ensures 0 < |r| <= |c| + 1 && r[|r| - 1] == e
    ensures |c| < MaxCached ==> r == c + [e]
    ensures |c| >= MaxCached ==> r == (c + [e])[|c| + 1 - MaxCached..]
  {
    Window(c + [e])
  }

  // ---------------------------------------------------------- disconnect

  /** Tasks among `ids` that have not finished are asked to stop. */
  function CancelRuns(runs: map<nat, TaskRun>, ids: set<nat>): (r: map<nat, TaskRun>)
    ensures r.Keys == runs.Keys
    ensures forall t :: t in runs && t in ids && runs[t].state == TaskRunning ==>
              r[t] == runs[t].(state := Cancelling)
    ensures forall t :: t in runs && (t !in ids || runs[t].state != TaskRunning) ==> r[t] == runs[t]
  {
    map t | t in runs :: if t in ids && runs[t].state == TaskRunning then runs[t].(state := Cancelling) else runs[t]
  }

  /** A write of `f` to handle `h`: logged when the handle accepts writes. */
  function Emit(m: Manager, h: Handle, f: Frame): (r: Manager)
    ensures h !in m.faults ==> r == m.(wire := m.wire + [WireEvent(h, f)])
    ensures h in m.faults ==> r == m
  {
    if h in m.faults then m else m.(wire := m.wire + [WireEvent(h, f)])
  }

  /** `disconnect`: close the live handle with code 1000, forget it, mark the
      session disconnected, ask its unfinished tasks to stop and empty its
      task table. The cache and the tracking survive; an unknown session is
      left alone. The stopped tasks' own bookkeeping happens when they end;
      see `Settle`. */
  function Disconnect(m: Manager, sid: string): (r: Manager)
    ensures Get(m, sid).handle.None? ==> r == m
    ensures Get(m, sid).handle.Some? ==>
              var s := Get(m, sid);
              && Get(r, sid) == s.(handle := None, status := Some(Disconnected), tasks := map[])
              && r.runs == CancelRuns(m.runs, s.tasks.Values)
              && r.wire == (if s.handle.value in m.faults then m.wire
                            else m.wire + [WireEvent(s.handle.value, CloseFrame(1000, ""))])
              && r.faults == m.faults && r.nextId == m.nextId && r.nextTask == m.nextTask && r.clock == m.clock
    ensures forall o :: o != sid ==> Get(r, o) == Get(m, o)
    ensures !IsConnected(r, sid)
    ensures m.wire <= r.wire
  {
    var s := Get(m, sid);
    if s.handle.None? then m
    else
      var m1 := Emit(m, s.handle.value, CloseFrame(1000, ""));
      Put(m1.(runs := CancelRuns(m1.runs, s.tasks.Values)), sid,
          s.(handle := None, status := Some(Disconnected), tasks := map[]))
  }

  // ----------------------------------------------------------- send_json

  /** The message as `send_json` sends it: a supplied id and timestamp are
      kept, missing ones are filled with a fresh id and the current time. */
  function Stamp(m: Manager, msg: Message): (r: Message)
    ensures r.messageId.Some? && r.timestamp.Some?
    ensures msg.messageId.Some? ==> r.messageId == msg.messageId
    ensures msg.messageId.None? ==> r.messageId == Some(Generated(m.nextId))
    ensures msg.timestamp.Some? ==> r.timestamp == msg.timestamp
    ensures msg.timestamp.None? ==> r.timestamp == Some(m.clock)
    ensures r == msg.(messageId := r.messageId, timestamp := r.timestamp)
  {
    msg.(messageId := Some(msg.messageId.GetOr(Generated(m.nextId))),
         timestamp := Some(msg.timestamp.GetOr(m.clock)))
  }

  /** Exception texts by which the manager recognises a socket that is
      already closed. */
  predicate SaysClosed(text: string) {
    Contains(text, "websocket.close") || Contains(text, "disconnect message")
  }

  /** The `except` branches shared by `send_json` and `send_bytes`. A peer
      that has gone triggers a full disconnect; any other exception marks
      the tracked message failed and, when its text says the socket is
      already closed, forgets the handle without closing it. */
  function FailWrite(m: Manager, sid: string, id: MsgId, f: Fault): (r: Manager)
    ensures forall o :: o != sid ==> Get(r, o) == Get(m, o)
    ensures Get(r, sid).cache == Get(m, sid).cache
    ensures f.PeerGone? || SaysClosed(f.text) ==> !IsConnected(r, sid)
    ensures f.Raises? ==> r.runs == m.runs && r.wire == m.wire
    ensures m.wire <= r.wire
    ensures Get(r, sid).tracking.Keys == Get(m, sid).tracking.Keys
    ensures f.Raises? && id in Get(m, sid).tracking ==>
              Get(r, sid).tracking[id] == Get(m, sid).tracking[id].(status := SendFailed(f.text))
    ensures f.Raises? && !SaysClosed(f.text) ==>
              Get(r, sid).handle == Get(m, sid).handle && Get(r, sid).status == Get(m, sid).status
    ensures r.faults == m.faults && r.nextId == m.nextId && r.nextTask == m.nextTask && r.clock == m.clock
  {
    match f
    case PeerGone => Disconnect(m, sid)
    case Raises(t) =>
      var s := Get(m, sid);
      var s1 := if id in s.tracking then s.(tracking := s.tracking[id := s.tracking[id].(status := SendFailed(t))]) else s;
      if SaysClosed(t) then Put(m, sid, s1.(status := Some(Disconnected), handle := None))
      else Put(m, sid, s1)
  }

  /** The part of `send_json` before the write: the stamped message is
      cached and tracked as being sent; a generated id uses up the counter. */
  function Prepare(m: Manager, sid: string, msg: Message): (r: Manager)
    ensures var s := Get(m, sid);
            var sent := Stamp(m, msg);
            Get(r, sid) == s.(cache := CacheMessage(s.cache, CacheEntry(m.clock, sent, false)),
                              tracking := s.tracking[sent.messageId.value := Track(JsonTrack, Sending)])
    ensures forall o :: o != sid ==> Get(r, o) == Get(m, o)
    ensures r.nextId == (if msg.messageId.Some? then m.nextId else m.nextId + 1)
    ensures r.wire == m.wire && r.runs == m.runs && r.faults == m.faults &&
            r.nextTask == m.nextTask && r.clock == m.clock
  {
    var sent := Stamp(m, msg);
    var m1 := if msg.messageId.None? then m.(nextId := m.nextId + 1) else m;
    var s := Get(m, sid);
    Put(m1, sid, s.(cache := CacheMessage(s.cache, CacheEntry(m.clock, sent, false)),
                    tracking := s.tracking[sent.messageId.value := Track(JsonTrack, Sending)]))
  }

  /** The write of `send_json` and its outcome: on success the message is
      tracked as sent; on an exception see `FailWrite`. */
  function Transmit(m: Manager, sid: string, sent: Message): (r: (Manager, bool))
    requires IsConnected(m, sid) && sent.messageId.Some?
    ensures forall o :: o != sid ==> Get(r.0, o) == Get(m, o)
    ensures Get(r.0, sid).cache == Get(m, sid).cache
    ensures forall k :: k in Get(m, sid).tracking ==> k in Get(r.0, sid).tracking
    ensures m.wire <= r.0.wire
    ensures r.0.faults == m.faults && r.0.nextId == m.nextId && r.0.nextTask == m.nextTask && r.0.clock == m.clock
    ensures r.1 <==> Writable(m, sid)
    ensures Writable(m, sid) ==>
              var s := Get(m, sid);
              && r.0.wire == m.wire + [WireEvent(s.handle.value, JsonFrame(sent))]
              && r.0.runs == m.runs
              && Get(r.0, sid) == s.(tracking := s.tracking[sent.messageId.value := Track(JsonTrack, Sent)])
  {
    var s := Get(m, sid);
    var h := s.handle.value;
    var id := sent.messageId.value;
    if h in m.faults then (FailWrite(m, sid, id, m.faults[h]), false)
    else (Put(m.(wire := m.wire + [WireEvent(h, JsonFrame(sent))]), sid,
              s.(tracking := s.tracking[id := Track(JsonTrack, Sent)])), true)
  }

  /** `send_json`: refuse unless connected; otherwise stamp the message,
      cache it, track it as sending, write it and track it as sent. */
  function SendJson(m: Manager, sid: string, msg: Message): (r: (Manager, bool))
    ensures !IsConnected(m, sid) ==> r == (m, false)
    ensures forall o :: o != sid ==> Get(r.0, o) == Get(m, o)
    ensures m.wire <= r.0.wire
    ensures forall k :: k in Get(m, sid).tracking ==> k in Get(r.0, sid).tracking
    ensures r.0.faults == m.faults && r.0.nextTask == m.nextTask && r.0.clock == m.clock
    ensures IsConnected(m, sid) ==>
              && Get(r.0, sid).cache == CacheMessage(Get(m, sid).cache, CacheEntry(m.clock, Stamp(m, msg), false))
              && r.0.nextId == (if msg.messageId.Some? then m.nextId else m.nextId + 1)
    ensures Writable(m, sid) ==> r.0.wire == m.wire + [WireEvent(HandleOf(m, sid), JsonFrame(Stamp(m, msg)))]
    ensures Writable(m, sid) ==> Writable(r.0, sid) && HandleOf(r.0, sid) == HandleOf(m, sid)
    ensures Writable(m, sid) ==> r.0.runs == m.runs && Get(r.0, sid).tasks == Get(m, sid).tasks
    ensures Writable(m, sid) ==>
              Get(r.0, sid).tracking == Get(m, sid).tracking[Stamp(m, msg).messageId.value := Track(JsonTrack, Sent)]
    ensures r.1 <==> Writable(m, sid)
  {
    if !IsConnected(m, sid) then (m, false)
    else
      var m1 := Prepare(m, sid, msg);
      assert Writable(m1, sid) <==> Writable(m, sid);
      Transmit(m1, sid, Stamp(m, msg))
  }

  // -------------------------------------------------------------- connect

  const NewConnectionReason := "New connection established"

  /** The locked part of `debug_connect`. A connection already filed for the
      session is marked disconnecting and closed with code 1001; then the new
      handle is filed as connected. The task table, the tracking and the
      cache are kept. (The intermediate "disconnecting" status is
      overwritten before anyone can observe it.) */
  function Install(m: Manager, sid: string, h: Handle): (r: Manager)
    ensures Get(r, sid) == Get(m, sid).(handle := Some(h), status := Some(Connected))
    ensures forall o :: o != sid ==> Get(r, o) == Get(m, o)
    ensures Get(m, sid).handle.None? ==> r.wire == m.wire
    ensures Get(m, sid).handle.Some? ==>
              var prev := Get(m, sid).handle.value;
              r.wire == if prev in m.faults then m.wire
                        else m.wire + [WireEvent(prev, CloseFrame(1001, NewConnectionReason))]
    ensures r.runs == m.runs && r.faults == m.faults && r.nextId == m.nextId &&
            r.nextTask == m.nextTask && r.clock == m.clock
  {
    var s := Get(m, sid);
    var m1 := if s.handle.Some? then Emit(m, s.handle.value, CloseFrame(1001, NewConnectionReason)) else m;
    Put(m1, sid, s.(handle := Some(h), status := Some(Connected)))
  }

  /** The confirmation `debug_connect` sends, reporting the cache size. */
  function StatusMessage(now: nat, sid: string, cached: nat): Message {
    Msg("connection_status", JObj([("status", JStr("connected")),
                                   ("message", JStr("WebSocket connection established")),
                                   ("timestamp", JInt(now)),
                                   ("session_id", JStr(sid)),
                                   ("cached_messages", JInt(cached))]))
  }

  /** `debug_connect` (and `connect`, which behaves the same): file the new
      handle, then send it the connection confirmation. */
  function Connect(m: Manager, sid: string, h: Handle): (r: Manager)
    ensures forall o :: o != sid ==> Get(r, o) == Get(m, o)
    ensures h !in m.faults ==> r.runs == m.runs && Get(r, sid).tasks == Get(m, sid).tasks &&
                               Get(m, sid).tracking.Keys <= Get(r, sid).tracking.Keys
    ensures Get(r, sid).cache ==
              CacheMessage(Get(m, sid).cache, CacheEntry(m.clock, Stamp(m, StatusMessage(m.clock, sid, |Get(m, sid).cache|)), false))
    ensures h !in m.faults ==>
              && IsConnected(r, sid) && Get(r, sid).handle == Some(h) && |r.wire| > 0
              && r.wire[|r.wire| - 1] == WireEvent(h, JsonFrame(Stamp(m, StatusMessage(m.clock, sid, |Get(m, sid).cache|))))
    ensures Get(m, sid).handle.Some? && Get(m, sid).handle.value !in m.faults ==>
              |r.wire| > |m.wire| &&
              r.wire[|m.wire|] == WireEvent(Get(m, sid).handle.value, CloseFrame(1001, NewConnectionReason))
  {
    var msg := StatusMessage(m.clock, sid, |Get(m, sid).cache|);
    InstallFacts(m, sid, h, msg);
    SendJson(Install(m, sid, h), sid, msg).0
  }

  /** What `Connect` needs of the state right after `Install`. */
  lemma InstallFacts(m: Manager, sid: string, h: Handle, msg: Message)
    ensures var m1 := Install(m, sid, h);
            && Get(m1, sid).cache == Get(m, sid).cache && IsConnected(m1, sid)
            && Get(m1, sid).tasks == Get(m, sid).tasks && Get(m1, sid).tracking == Get(m, sid).tracking
            && m1.runs == m.runs && m1.faults == m.faults
            && Stamp(m1, msg) == Stamp(m, msg)
            && (h !in m.faults ==> Writable(m1, sid) && HandleOf(m1, sid) == h)
            && (forall o :: o != sid ==> Get(m1, o) == Get(m, o))
            && (Get(m, sid).handle.Some? && Get(m, sid).handle.value !in m.faults ==>
                  |m1.wire| > |m.wire| &&
                  m1.wire[|m.wire|] == WireEvent(Get(m, sid).handle.value, CloseFrame(1001, NewConnectionReason)))
  {
  }

  /** Connecting twice under one session id: the second handle replaces the
      first, which is sent a 1001 close. */
  lemma ReconnectReplaces(m: Manager, sid: string, h1: Handle, h2: Handle)
    requires h1 !in m.faults && h2 !in m.faults
    ensures var r := Connect(Connect(m, sid, h1), sid, h2);
            && IsConnected(r, sid) && Get(r, sid).handle == Some(h2)
            && WireEvent(h1, CloseFrame(1001, NewConnectionReason)) in r.wire
  {
    var m1 := Connect(m, sid, h1);
    var r := Connect(m1, sid, h2);
    assert r.wire[|m1.wire|] == WireEvent(h1, CloseFrame(1001, NewConnectionReason));
  }

  // ---------------------------------------------------------------- tasks

  /** The id a task is filed under: the one given, or a fresh one when it is
      missing or empty. */
  function TaskId(m: Manager, mid: Option<MsgId>): (id: MsgId)
    ensures !id.Falsy()
    ensures mid.Some? && !mid.value.Falsy() ==> id == mid.value
    ensures mid.None? || mid.value.Falsy() ==> id == Generated(m.nextId)
  {
    if mid.None? || mid.value.Falsy() then Generated(m.nextId) else mid.value
  }

  /** `create_task`: start a task for the session, file it in the session's
      task table under its message id (replacing any task filed under the
      same id) and track it as running. Returns the new task. */
  function CreateTask(m: Manager, sid: string, mid: Option<MsgId>): (r: (Manager, nat))
    ensures r.1 == m.nextTask && r.0.nextTask == m.nextTask + 1
    ensures r.0.nextId == (if mid.None? || mid.value.Falsy() then m.nextId + 1 else m.nextId)
    ensures var id := TaskId(m, mid);
            var s := Get(m, sid);
            && r.0.runs == m.runs[r.1 := TaskRun(sid, id, TaskRunning)]
            && Get(r.0, sid) == s.(tasks := s.tasks[id := r.1], tracking := s.tracking[id := Track(TaskTrack, Running)])
    ensures forall o :: o != sid ==> Get(r.0, o) == Get(m, o)
    ensures r.0.wire == m.wire && r.0.faults == m.faults && r.0.clock == m.clock
  {
    var id := TaskId(m, mid);
    var t := m.nextTask;
    var s := Get(m, sid);
    var m1 := m.(runs := m.runs[t := TaskRun(sid, id, TaskRunning)], nextTask := t + 1,
                 nextId := if mid.None? || mid.value.Falsy() then m.nextId + 1 else m.nextId);
    (Put(m1, sid, s.(tasks := s.tasks[id := t], tracking := s.tracking[id := Track(TaskTrack, Running)])), t)
  }

  /** How the coroutine of a running task ends. */
  datatype Ending = Returned | Threw(error: string)

  predicate Unfinished(st: TaskState) {
    st == TaskRunning || st == Cancelling
  }

  /** The outcome of an unfinished task: a task asked to stop ends cancelled
      whatever its coroutine did; otherwise it completes or fails. */
  function Outcome(st: TaskState, ending: Ending): (r: (TaskState, TrackStatus))
    requires Unfinished(st)
    ensures st == Cancelling ==> r == (TaskCancelled, Cancelled)
    ensures st == TaskRunning && ending == Returned ==> r == (TaskCompleted, Completed)
    ensures st == TaskRunning && ending.Threw? ==> r == (TaskErrored(ending.error), TaskFailed(ending.error))
  {
    if st == Cancelling then (TaskCancelled, Cancelled)
    else match ending
      case Returned => (TaskCompleted, Completed)
      case Threw(e) => (TaskErrored(e), TaskFailed(e))
  }

  /** The wrapper coroutine's bookkeeping when a task ends: the run and the
      tracking entry of its message id record the outcome. An ended or
      unknown task is left alone. */
  function Conclude(m: Manager, t: nat, ending: Ending): (r: Manager)
    ensures t !in m.runs || !Unfinished(m.runs[t].state) ==> r == m
    ensures t in m.runs && Unfinished(m.runs[t].state) ==>
              var run := m.runs[t];
              var s := Get(m, run.session);
              var out := Outcome(run.state, ending);
              && r.runs == m.runs[t := run.(state := out.0)]
              && Get(r, run.session).tasks == s.tasks
              && Get(r, run.session).cache == s.cache
              && run.mid in Get(r, run.session).tracking
              && Get(r, run.session).tracking[run.mid].status == out.1
    ensures forall o :: t in m.runs && o != m.runs[t].session ==> Get(r, o) == Get(m, o)
    ensures r.wire == m.wire && r.faults == m.faults && r.nextId == m.nextId && r.nextTask == m.nextTask
  {
    if t !in m.runs || !Unfinished(m.runs[t].state) then m
    else
      var run := m.runs[t];
      var s := Get(m, run.session);
      var out := Outcome(run.state, ending);
      var tr := if run.mid in s.tracking then s.tracking[run.mid].(status := out.1) else Track(TaskTrack, out.1);
      Put(m.(runs := m.runs[t := run.(state := out.0)]), run.session,
          s.(tracking := s.tracking[run.mid := tr]))
  }

  /** The done callback as written: it removes whatever task is filed under
      the finished task's message id, which need not be that task. */
  function SettleAsWritten(m: Manager, t: nat, ending: Ending): (r: Manager)
    ensures t in m.runs && Unfinished(m.runs[t].state) ==>
              m.runs[t].mid !in Get(r, m.runs[t].session).tasks
    ensures t !in m.runs || !Unfinished(m.runs[t].state) ==> r == m
  {
    var m1 := Conclude(m, t, ending);
    if t !in m.runs || !Unfinished(m.runs[t].state) then m1
    else
      var run := m.runs[t];
      var s := Get(m1, run.session);
      Put(m1, run.session, s.(tasks := s.tasks - {run.mid}))
  }

  /** The done callback as evidently intended: the entry is removed only
      when it still names the finished task, so a newer task filed under the
      same id stays filed. */
  function Settle(m: Manager, t: nat, ending: Ending): (r: Manager)
    ensures t in m.runs && Unfinished(m.runs[t].state) ==>
              var run := m.runs[t];
              forall k :: k in Get(r, run.session).tasks ==> Get(r, run.session).tasks[k] != t
    ensures forall sid, k :: k in Get(m, sid).tasks && Get(m, sid).tasks[k] != t ==>
              k in Get(r, sid).tasks && Get(r, sid).tasks[k] == Get(m, sid).tasks[k]
    ensures t !in m.runs || !Unfinished(m.runs[t].state) ==> r == m
  {
    var m1 := Conclude(m, t, ending);
    if t !in m.runs || !Unfinished(m.runs[t].state) then m1
    else
      var run := m.runs[t];
      var s := Get(m1, run.session);
      var keep := map k | k in s.tasks && s.tasks[k] != t :: s.tasks[k];
      Put(m1, run.session, s.(tasks := keep))
  }

  /** Two tasks filed under one message id; the first ends, then the session
      disconnects. As written, the first task's callback unfiles the second,
      so the disconnect leaves the second task running. */
  lemma ReusedIdOrphansTask(m: Manager, sid: string, id: MsgId)
    requires !id.Falsy()
    requires forall k :: k in Get(m, sid).tasks ==> Get(m, sid).tasks[k] < m.nextTask
    ensures var (m1, t1) := CreateTask(m, sid, Some(id));
            var (m2, t2) := CreateTask(m1, sid, Some(id));
            var m4 := Disconnect(SettleAsWritten(m2, t1, Returned), sid);
            && !IsConnected(m4, sid)
            && t2 in m4.runs && m4.runs[t2].state == TaskRunning
  {
    var (m1, t1) := CreateTask(m, sid, Some(id));
    var (m2, t2) := CreateTask(m1, sid, Some(id));
    var m3 := SettleAsWritten(m2, t1, Returned);
    assert t1 != t2 && m2.runs[t2].state == TaskRunning;
    assert m3.runs[t2] == m2.runs[t2];
    assert forall k :: k in Get(m3, sid).tasks ==> Get(m3, sid).tasks[k] != t2;
  }

  /** The same sequence with the intended callback: the second task stays
      filed, so the disconnect asks it to stop. */
  lemma ReusedIdIsCancelled(m: Manager, sid: string, id: MsgId)
    requires !id.Falsy() && Get(m, sid).handle.Some?
    ensures var (m1, t1) := CreateTask(m, sid, Some(id));
            var (m2, t2) := CreateTask(m1, sid, Some(id));
            var m4 := Disconnect(Settle(m2, t1, Returned), sid);
            && !IsConnected(m4, sid)
            && t2 in m4.runs && m4.runs[t2].state == Cancelling
  {
    var (m1, t1) := CreateTask(m, sid, Some(id));
    var (m2, t2) := CreateTask(m1, sid, Some(id));
    var m3 := Settle(m2, t1, Returned);
    assert t1 != t2 && m2.runs[t2].state == TaskRunning;
    assert m3.runs[t2] == m2.runs[t2];
    assert Get(m2, sid).tasks[id] == t2;
    assert id in Get(m3, sid).tasks && Get(m3, sid).tasks[id] == t2;
    assert Get(m3, sid).handle.Some?;
  }

  // ----------------------------------------------------------- send_bytes

  const ChunkSize := 65536

  /** Payloads longer than this are sent in chunks. */
  const ChunkThreshold := 2 * ChunkSize

  /** The payload cut into consecutive `ChunkSize` pieces, the last possibly
      shorter: the slices `data[i:i + chunk_size]` of the chunk loop. */
  function Chunks(data: seq<bv8>): (r: seq<seq<bv8>>)
    ensures forall i :: 0 <= i < |r| ==> 0 < |r[i]| <= ChunkSize
    decreases |data|
  {
    if |data| == 0 then []
    else if |data| <= ChunkSize then [data]
    else [data[..ChunkSize]] + Chunks(data[ChunkSize..])
  }

  /** Reassembling the chunks gives the payload back. */
  lemma {:induction false} ChunksFlatten(data: seq<bv8>)
    ensures Flatten(Chunks(data)) == data
    decreases |data|
  {
    if |data| > ChunkSize {
      ChunksFlatten(data[ChunkSize..]);
      assert data[..ChunkSize] + data[ChunkSize..] == data;
    }
  }

  /** There are as many chunks as the `total_chunks` announced. */
  lemma {:induction false} ChunksCount(data: seq<bv8>)
    ensures |Chunks(data)| == (|data| + ChunkSize - 1) / ChunkSize
    decreases |data|
  {
    if |data| > ChunkSize {
      ChunksCount(data[ChunkSize..]);
      assert (|data| - ChunkSize + ChunkSize - 1) / ChunkSize + 1 == (|data| + ChunkSize - 1) / ChunkSize;
    }
  }

  /** The bytes carried by the binary frames of a stretch of the wire. */
  function BytesSent(ws: seq<WireEvent>): seq<bv8>
    decreases |ws|
  {
    if |ws| == 0 then []
    else (if ws[0].frame.BytesFrame? then ws[0].frame.bytes else []) + BytesSent(ws[1..])
  }

  lemma {:induction false} BytesSentAppend(a: seq<WireEvent>, b: seq<WireEvent>)
    ensures BytesSent(a + b) == BytesSent(a) + BytesSent(b)
    decreases |a|
  {
    if |a| > 0 {
      BytesSentAppend(a[1..], b);
      assert (a + b)[1..] == a[1..] + b;
    } else {
      assert a + b == b;
    }
  }

  /** One binary frame per chunk, in order. */
  function ChunkEvents(h: Handle, cs: seq<seq<bv8>>): (r: seq<WireEvent>)
    ensures |r| == |cs|
    decreases |cs|
  {
    if |cs| == 0 then [] else [WireEvent(h, BytesFrame(cs[0]))] + ChunkEvents(h, cs[1..])
  }

  /** The `i`-th binary frame carries the `i`-th chunk. */
  lemma {:induction false} ChunkEventAt(h: Handle, cs: seq<seq<bv8>>, i: nat)
    requires i < |cs|
    ensures ChunkEvents(h, cs)[i] == WireEvent(h, BytesFrame(cs[i]))
    decreases i
  {
    if i > 0 {
      ChunkEventAt(h, cs[1..], i - 1);
    }
  }

  lemma {:induction false} ChunkEventsCarry(h: Handle, cs: seq<seq<bv8>>)
    ensures BytesSent(ChunkEvents(h, cs)) == Flatten(cs)
    decreases |cs|
  {
    if |cs| > 0 {
      ChunkEventsCarry(h, cs[1..]);
    }
  }

  /** Sets a tracked message's status to sent. */
  function MarkSent(m: Manager, sid: string, id: MsgId): (r: Manager)
    ensures forall o :: o != sid ==> Get(r, o) == Get(m, o)
    ensures Get(r, sid).tracking.Keys == Get(m, sid).tracking.Keys
    ensures id in Get(m, sid).tracking ==> Get(r, sid).tracking[id].status == Sent
    ensures Get(r, sid).handle == Get(m, sid).handle && Get(r, sid).status == Get(m, sid).status
    ensures Get(r, sid).cache == Get(m, sid).cache
    ensures r.wire == m.wire && r.faults == m.faults && r.nextId == m.nextId
  {
    var s := Get(m, sid);
    if id in s.tracking then Put(m, sid, s.(tracking := s.tracking[id := s.tracking[id].(status := Sent)]))
    else m
  }

  /** The chunk loop from chunk number `k` on. Before each chunk the session
      must still be connected. `drop` is the environment: when it names the
      chunk about to be sent, some other task disconnects the session just
      before the check. */
  function SendChunks(m: Manager, sid: string, id: MsgId, cs: seq<seq<bv8>>, k: nat, drop: Option<nat>): (r: (Manager, bool))
    ensures forall o :: o != sid ==> Get(r.0, o) == Get(m, o)
    ensures m.wire <= r.0.wire && r.0.faults == m.faults && r.0.nextId == m.nextId && r.0.clock == m.clock
    ensures Get(r.0, sid).cache == Get(m, sid).cache
    ensures forall k :: k in Get(m, sid).tracking ==> k in Get(r.0, sid).tracking
    ensures Writable(m, sid) && (drop.None? || drop.value < k || k + |cs| <= drop.value) ==>
              && r.1 && Writable(r.0, sid)
              && r.0.wire == m.wire + ChunkEvents(HandleOf(m, sid), cs)
              && Get(r.0, sid) == Get(m, sid)
    ensures drop.Some? && k <= drop.value < k + |cs| ==> !r.1
    ensures Writable(m, sid) && drop.Some? && k <= drop.value < k + |cs| ==> !IsConnected(r.0, sid)
    decreases |cs|
  {
    if |cs| == 0 then (m, true)
    else
      var m1 := if drop == Some(k) then Disconnect(m, sid) else m;
      if !IsConnected(m1, sid) then (m1, false)
      else
        var h := HandleOf(m1, sid);
        if h in m1.faults then (FailWrite(m1, sid, id, m1.faults[h]), false)
        else
          var r := SendChunks(m1.(wire := m1.wire + [WireEvent(h, BytesFrame(cs[0]))]), sid, id, cs[1..], k + 1, drop);
          r
  }

  /** What `send_bytes` caches for a payload: its size, not its bytes, as a
      top-level key beside `type`, with no `data` key. */
  function BinaryMetadata(id: MsgId, size: nat, now: nat): Message {
    Message("binary_metadata", JNull, Some(id), Some(now), false, Some(size))
  }

  /** Recovery replays the metadata record as it was cached, with the
      recovery flag set: the size stays a top-level key. */
  lemma MetadataReplayed(t: nat, id: MsgId, n: nat, now: nat)
    ensures Flagged([CacheEntry(t, BinaryMetadata(id, n, now), false)]) ==
            [Message("binary_metadata", JNull, Some(id), Some(now), true, Some(n))]
  {
    assert [CacheEntry(t, BinaryMetadata(id, n, now), false)][1..] == [];
  }

  /** The header announcing a chunked transfer. */
  function BinaryStart(id: MsgId, size: nat): Message {
    Message("binary_start", JObj([("total_size", JInt(size)), ("chunk_size", JInt(ChunkSize)),
                                  ("total_chunks", JInt((size + ChunkSize - 1) / ChunkSize))]),
            Some(id), None, false, None)
  }

  /** The trailer of a chunked transfer; it has no `data` key. */
  function BinaryComplete(id: MsgId): Message {
    Message("binary_complete", JNull, Some(id), None, false, None)
  }

  /** The chunked transfer of `send_bytes` for a payload tracked as `id`:
      header, chunks, trailer; the payload is marked sent only when every
      chunk went out. */
  function SendChunked(m: Manager, sid: string, id: MsgId, data: seq<bv8>, drop: Option<nat>): (r: (Manager, bool))
    requires IsConnected(m, sid)
    ensures forall o :: o != sid ==> Get(r.0, o) == Get(m, o)
    ensures m.wire <= r.0.wire
    ensures id in Get(m, sid).tracking ==> id in Get(r.0, sid).tracking
    ensures drop.Some? && drop.value < |Chunks(data)| ==> !r.1
  {
    var h := HandleOf(m, sid);
    var start := BinaryStart(id, |data|);
    var m2 := SendJson(m, sid, start).0;
    var r3 := SendChunks(m2, sid, id, Chunks(data), 0, drop);
    var m3 := r3.0;
    if !r3.1 then (m3, false)
    else
      var m4 := SendJson(m3, sid, BinaryComplete(id)).0;
      (MarkSent(m4, sid, id), true)
  }

  /** Undisturbed, the chunked transfer sends the header, every chunk and
      the trailer, and marks the payload sent. */
  lemma SendChunkedUndisturbed(m: Manager, sid: string, id: MsgId, data: seq<bv8>)
    requires Writable(m, sid)
    ensures var r := SendChunked(m, sid, id, data, None);
            var h := HandleOf(m, sid);
            && r.1
            && r.0.wire == m.wire + [WireEvent(h, JsonFrame(BinaryStart(id, |data|).(timestamp := Some(m.clock))))]
                                  + ChunkEvents(h, Chunks(data))
                                  + [WireEvent(h, JsonFrame(BinaryComplete(id).(timestamp := Some(m.clock))))]
            && id in Get(r.0, sid).tracking
            && Get(r.0, sid).tracking[id].status == Sent
  {
    var h := HandleOf(m, sid);
    var start := BinaryStart(id, |data|);
    var m2 := SendJson(m, sid, start).0;
    assert Stamp(m, start) == start.(timestamp := Some(m.clock));
    assert Writable(m2, sid) && HandleOf(m2, sid) == h;
    var r3 := SendChunks(m2, sid, id, Chunks(data), 0, None);
    var m3 := r3.0;
    assert r3.1 && Writable(m3, sid) && HandleOf(m3, sid) == h;
    var end := BinaryComplete(id);
    assert Stamp(m3, end) == end.(timestamp := Some(m.clock));
    var m4 := SendJson(m3, sid, end).0;
    assert id in Get(m4, sid).tracking;
  }

  /** The one-frame transfer of `send_bytes`. */
  function SendDirect(m: Manager, sid: string, id: MsgId, data: seq<bv8>): (r: (Manager, bool))
    requires IsConnected(m, sid)
    ensures forall o :: o != sid ==> Get(r.0, o) == Get(m, o)
    ensures m.wire <= r.0.wire
    ensures id in Get(m, sid).tracking ==> id in Get(r.0, sid).tracking
    ensures r.1 <==> Writable(m, sid)
    ensures Writable(m, sid) ==>
              && r.0.wire == m.wire + [WireEvent(HandleOf(m, sid), BytesFrame(data))]
              && (id in Get(m, sid).tracking ==> Get(r.0, sid).tracking[id].status == Sent)
              && Get(r.0, sid).cache == Get(m, sid).cache
  {
    var h := HandleOf(m, sid);
    if h in m.faults then (FailWrite(m, sid, id, m.faults[h]), false)
    else (MarkSent(m.(wire := m.wire + [WireEvent(h, BytesFrame(data))]), sid, id), true)
  }

  /** `send_bytes`: refuse unless connected; otherwise track the payload
      under a fresh id, cache its metadata, and send it: in one frame when it
      is at most 128 KiB, else chunked. */
  function SendBytes(m: Manager, sid: string, data: seq<bv8>, drop: Option<nat>): (r: (Manager, bool))
    ensures !IsConnected(m, sid) ==> r == (m, false)
    ensures forall o :: o != sid ==> Get(r.0, o) == Get(m, o)
    ensures m.wire <= r.0.wire
    ensures IsConnected(m, sid) ==> Generated(m.nextId) in Get(r.0, sid).tracking
    ensures |data| <= ChunkThreshold ==> (r.1 <==> Writable(m, sid))
    ensures Writable(m, sid) && |data| <= ChunkThreshold ==>
              r.0.wire == m.wire + [WireEvent(HandleOf(m, sid), BytesFrame(data))]
    ensures Writable(m, sid) && |data| <= ChunkThreshold ==>
              Get(r.0, sid).cache ==
                CacheMessage(Get(m, sid).cache, CacheEntry(m.clock, BinaryMetadata(Generated(m.nextId), |data|, m.clock), false))
    ensures Writable(m, sid) && |data| > ChunkThreshold && drop.None? ==>
              var h := HandleOf(m, sid);
              var id := Generated(m.nextId);
              && r.1
              && r.0.wire == m.wire + [WireEvent(h, JsonFrame(BinaryStart(id, |data|).(timestamp := Some(m.clock))))]
                                    + ChunkEvents(h, Chunks(data))
                                    + [WireEvent(h, JsonFrame(BinaryComplete(id).(timestamp := Some(m.clock))))]
    ensures Writable(m, sid) && (|data| <= ChunkThreshold || drop.None?) ==>
              Get(r.0, sid).tracking[Generated(m.nextId)].status == Sent
    ensures |data| > ChunkThreshold && drop.Some? && drop.value < |Chunks(data)| ==> !r.1
  {
    if !IsConnected(m, sid) then (m, false)
    else
      var m1 := Register(m, sid, |data|);
      if |data| <= ChunkThreshold then SendDirect(m1, sid, Generated(m.nextId), data)
      else if drop.None? && Writable(m, sid) then
        SendChunkedUndisturbed(m1, sid, Generated(m.nextId), data);
        SendChunked(m1, sid, Generated(m.nextId), data, drop)
      else SendChunked(m1, sid, Generated(m.nextId), data, drop)
  }

  /** The part of `send_bytes` before the write: the payload is tracked as
      sending under a fresh id and its metadata is cached. */
  function Register(m: Manager, sid: string, n: nat): (r: Manager)
    requires IsConnected(m, sid)
    ensures IsConnected(r, sid) && HandleOf(r, sid) == HandleOf(m, sid)
    ensures Writable(r, sid) <==> Writable(m, sid)
    ensures r.wire == m.wire && r.clock == m.clock && r.faults == m.faults && r.nextId == m.nextId + 1
    ensures forall o :: o != sid ==> Get(r, o) == Get(m, o)
    ensures Generated(m.nextId) in Get(r, sid).tracking
    ensures Get(r, sid).cache ==
              CacheMessage(Get(m, sid).cache, CacheEntry(m.clock, BinaryMetadata(Generated(m.nextId), n, m.clock), false))
  {
    var id := Generated(m.nextId);
    var s := Get(m, sid);
    Put(m.(nextId := m.nextId + 1), sid,
        s.(tracking := s.tracking[id := Track(BinaryTrack(n), Sending)],
           cache := CacheMessage(s.cache, CacheEntry(m.clock, BinaryMetadata(id, n, m.clock), false))))
  }

  /** Whatever the payload's size, a receiver that concatenates the binary
      frames of an undisturbed transfer gets the payload back, in as many
      frames as `total_chunks` announces when it is chunked. */
  lemma SendBytesDelivers(m: Manager, sid: string, data: seq<bv8>)
    requires Writable(m, sid)
    ensures var r := SendBytes(m, sid, data, None);
            && r.1
            && BytesSent(r.0.wire[|m.wire|..]) == data
    ensures |data| > ChunkThreshold ==> |Chunks(data)| == (|data| + ChunkSize - 1) / ChunkSize
  {
    if |data| > ChunkThreshold {
      ChunkedDelivers(m, sid, data);
      ChunksCount(data);
    } else {
      DirectDelivers(m, sid, data);
    }
  }

  lemma ChunkedDelivers(m: Manager, sid: string, data: seq<bv8>)
    requires Writable(m, sid) && |data| > ChunkThreshold
    ensures BytesSent(SendBytes(m, sid, data, None).0.wire[|m.wire|..]) == data
  {
    var w := SendBytes(m, sid, data, None).0.wire;
    var h := HandleOf(m, sid);
    var id := Generated(m.nextId);
    var a := [WireEvent(h, JsonFrame(BinaryStart(id, |data|).(timestamp := Some(m.clock))))];
    var b := ChunkEvents(h, Chunks(data));
    var c := [WireEvent(h, JsonFrame(BinaryComplete(id).(timestamp := Some(m.clock))))];
    DropPrefix3(m.wire, a, b, c);
    ChunkedTransferBytes(a, h, data, c);
  }

  lemma DirectDelivers(m: Manager, sid: string, data: seq<bv8>)
    requires Writable(m, sid) && |data| <= ChunkThreshold
    ensures BytesSent(SendBytes(m, sid, data, None).0.wire[|m.wire|..]) == data
  {
    var w := SendBytes(m, sid, data, None).0.wire;
    var e := WireEvent(HandleOf(m, sid), BytesFrame(data));
    DropPrefix(m.wire, [e]);
    assert w[|m.wire|..] == [e];
    assert [e][1..] == [];
  }

  /** What follows a prefix is what was appended to it. */
  lemma DropPrefix<T>(p: seq<T>, q: seq<T>)
    ensures (p + q)[|p|..] == q
  {
  }

  lemma DropPrefix3<T>(p: seq<T>, a: seq<T>, b: seq<T>, c: seq<T>)
    ensures (p + a + b + c)[|p|..] == a + b + c
  {
    assert p + a + b + c == p + (a + b + c);
  }

  /** Between a JSON header and a JSON trailer, the chunk frames carry
      exactly the payload. */
  lemma ChunkedTransferBytes(a: seq<WireEvent>, h: Handle, data: seq<bv8>, c: seq<WireEvent>)
    requires |a| == 1 && a[0].frame.JsonFrame? && |c| == 1 && c[0].frame.JsonFrame?
    ensures BytesSent(a + ChunkEvents(h, Chunks(data)) + c) == data
  {
    var b := ChunkEvents(h, Chunks(data));
    BytesSentAppend(a + b, c);
    BytesSentAppend(a, b);
    assert a[1..] == [] && c[1..] == [];
    ChunkEventsCarry(h, Chunks(data));
    ChunksFlatten(data);
  }

  // ------------------------------------------------------------- recovery

  /** The index just past the first cached message carrying `last`, or 0
      when none carries it. */
  function ResumeIndex(c: seq<CacheEntry>, last: MsgId): (r: nat)
    ensures r <= |c|
    ensures r > 0 ==> c[r - 1].msg.messageId == Some(last)
    ensures forall i :: 0 <= i < |c| && (r == 0 || i < r - 1) ==> c[i].msg.messageId != Some(last)
    decreases |c|
  {
    if |c| == 0 then 0
    else if c[0].msg.messageId == Some(last) then 1
    else
      var k := ResumeIndex(c[1..], last);
      assert forall i :: 1 <= i < |c| ==> c[i] == c[1..][i - 1];
      if k == 0 then 0 else k + 1
  }

  /** Where a replay starts: after the client's last message when the client
      names one, else at the oldest cached message. */
  function StartOf(c: seq<CacheEntry>, last: Option<MsgId>): nat {
    if last.Some? && !last.value.Falsy() then ResumeIndex(c, last.value) else 0
  }

  function CountMsg(kind: string, n: int): Message {
    Msg(kind, JObj([("message_count", JInt(n))]))
  }

  /** The replay loop as written: it walks the indices `i .. end` of the
      cache as it is at each step (the sends it makes append to that same
      cache, and a full cache shifts by one on every append). Each
      non-binary entry is flagged as a recovery message in place and sent
      again. */
  function ReplayLive(m: Manager, sid: string, i: nat, end: nat): (r: Manager)
    ensures forall o :: o != sid ==> Get(r, o) == Get(m, o)
    ensures m.wire <= r.wire
    decreases end - i
  {
    if i >= end then m
    else
      var c := Get(m, sid).cache;
      if i >= |c| then m
      else if c[i].binary then ReplayLive(m, sid, i + 1, end)
      else ReplayLive(SendJson(FlagAt(m, sid, i), sid, c[i].msg.(isRecovery := true)).0, sid, i + 1, end)
  }

  /** Sets `is_recovery` on the cached message at index `i`, in place. */
  function FlagAt(m: Manager, sid: string, i: nat): (r: Manager)
    requires i < |Get(m, sid).cache|
    ensures var c := Get(m, sid).cache;
            Get(r, sid) == Get(m, sid).(cache := c[i := c[i].(msg := c[i].msg.(isRecovery := true))])
    ensures forall o :: o != sid ==> Get(r, o) == Get(m, o)
    ensures r.wire == m.wire && r.faults == m.faults && r.nextId == m.nextId && r.clock == m.clock
  {
    var c := Get(m, sid).cache;
    Put(m, sid, Get(m, sid).(cache := c[i := c[i].(msg := c[i].msg.(isRecovery := true))]))
  }

  /** `recover_session` as written. Disconnected, or with nothing cached, it
      fails. When nothing is newer than the client's last message it
      succeeds without sending. Otherwise it announces the count of newer
      messages, replays the live cache from there, and announces the count
      again, taken from the cache as it is after the replay. */
  function RecoverAsWritten(m: Manager, sid: string, last: Option<MsgId>): (r: (Manager, bool))
    ensures !IsConnected(m, sid) || |Get(m, sid).cache| == 0 ==> r == (m, false)
    ensures IsConnected(m, sid) && |Get(m, sid).cache| > 0 ==> r.1
    ensures IsConnected(m, sid) && |Get(m, sid).cache| > 0 && StartOf(Get(m, sid).cache, last) >= |Get(m, sid).cache| ==>
              r == (m, true)
    ensures forall o :: o != sid ==> Get(r.0, o) == Get(m, o)
  {
    var c := Get(m, sid).cache;
    if !IsConnected(m, sid) || |c| == 0 then (m, false)
    else
      var start := StartOf(c, last);
      if start >= |c| then (m, true)
      else
        var m1 := SendJson(m, sid, CountMsg("recovery_start", |c| - start)).0;
        var m2 := ReplayLive(m1, sid, start, |Get(m1, sid).cache|);
        (SendJson(m2, sid, CountMsg("recovery_complete", |Get(m2, sid).cache| - start)).0, true)
  }

  /** The recovery messages for a stretch of cache entries: the non-binary
      ones, flagged, in order. */
  function Flagged(es: seq<CacheEntry>): (r: seq<Message>)
    ensures |r| <= |es|
    ensures forall i :: 0 <= i < |r| ==> r[i].isRecovery
    decreases |es|
  {
    if |es| == 0 then []
    else if es[0].binary then Flagged(es[1..])
    else [es[0].msg.(isRecovery := true)] + Flagged(es[1..])
  }

  /** One JSON frame per message, in order. */
  function JsonEvents(h: Handle, ms: seq<Message>): (r: seq<WireEvent>)
    ensures |r| == |ms|
    decreases |ms|
  {
    if |ms| == 0 then [] else [WireEvent(h, JsonFrame(ms[0]))] + JsonEvents(h, ms[1..])
  }

  /** A message put in front sends its frame first. */
  lemma JsonEventsCons(h: Handle, msg: Message, ms: seq<Message>)
    ensures JsonEvents(h, [msg] + ms) == [WireEvent(h, JsonFrame(msg))] + JsonEvents(h, ms)
  {
    assert ([msg] + ms)[1..] == ms;
  }

  /** The `i`-th frame carries the `i`-th message. */
  lemma {:induction false} JsonEventAt(h: Handle, ms: seq<Message>, i: nat)
    requires i < |ms|
    ensures JsonEvents(h, ms)[i] == WireEvent(h, JsonFrame(ms[i]))
    decreases i
  {
    if i > 0 {
      JsonEventAt(h, ms[1..], i - 1);
    }
  }

  /** The replay loop as evidently intended: it sends the entries of a
      snapshot taken before the replay began. */
  function ReplaySnapshot(m: Manager, sid: string, es: seq<CacheEntry>): (r: Manager)
    ensures forall o :: o != sid ==> Get(r, o) == Get(m, o)
    ensures m.wire <= r.wire
    decreases |es|
  {
    if |es| == 0 then m
    else if es[0].binary then ReplaySnapshot(m, sid, es[1..])
    else ReplaySnapshot(SendJson(m, sid, es[0].msg.(isRecovery := true)).0, sid, es[1..])
  }

  predicate Stamped(es: seq<CacheEntry>) {
    forall i :: 0 <= i < |es| ==> es[i].msg.messageId.Some? && es[i].msg.timestamp.Some?
  }

  /** Over a connection that accepts writes, the snapshot replay sends
      exactly the flagged messages, unchanged, and uses no fresh ids. */
  lemma {:induction false} ReplaySnapshotSends(m: Manager, sid: string, es: seq<CacheEntry>)
    requires Writable(m, sid) && Stamped(es)
    ensures var r := ReplaySnapshot(m, sid, es);
            && r.wire == m.wire + JsonEvents(HandleOf(m, sid), Flagged(es))
            && Writable(r, sid) && HandleOf(r, sid) == HandleOf(m, sid)
            && r.nextId == m.nextId && r.clock == m.clock
    decreases |es|
  {
    var h := HandleOf(m, sid);
    if |es| == 0 {
    } else if es[0].binary {
      ReplaySnapshotSends(m, sid, es[1..]);
    } else {
      var f := es[0].msg.(isRecovery := true);
      assert Stamp(m, f) == f;
      var m1 := SendJson(m, sid, f).0;
      ReplaySnapshotSends(m1, sid, es[1..]);
      JsonEventsCons(h, f, Flagged(es[1..]));
    }
  }

  /** `recover_session` as evidently intended: the same guards and markers,
      but the replay sends a snapshot of the newer entries, so both markers
      carry the same count and nothing the replay itself caches is sent. */
  function Recover(m: Manager, sid: string, last: Option<MsgId>): (r: (Manager, bool))
    ensures !IsConnected(m, sid) || |Get(m, sid).cache| == 0 ==> r == (m, false)
    ensures IsConnected(m, sid) && |Get(m, sid).cache| > 0 ==> r.1
    ensures IsConnected(m, sid) && |Get(m, sid).cache| > 0 && StartOf(Get(m, sid).cache, last) >= |Get(m, sid).cache| ==>
              r == (m, true)
    ensures forall o :: o != sid ==> Get(r.0, o) == Get(m, o)
  {
    var c := Get(m, sid).cache;
    if !IsConnected(m, sid) || |c| == 0 then (m, false)
    else
      var start := StartOf(c, last);
      if start >= |c| then (m, true)
      else (ReplayFramed(m, sid, c[start..]), true)
  }

  /** The start marker, the snapshot replay and the end marker, both
      markers counting the entries of the snapshot. */
  function ReplayFramed(m: Manager, sid: string, es: seq<CacheEntry>): (r: Manager)
    ensures forall o :: o != sid ==> Get(r, o) == Get(m, o)
  {
    var m1 := SendJson(m, sid, CountMsg("recovery_start", |es|)).0;
    var m2 := ReplaySnapshot(m1, sid, es);
    SendJson(m2, sid, CountMsg("recovery_complete", |es|)).0
  }

  /** Over a connection that accepts writes, recovery sends the start marker,
      then every non-binary message cached after the client's last one,
      flagged, in order, then the end marker with the same count. */
  lemma RecoverReplaysSuffix(m: Manager, sid: string, last: Option<MsgId>)
    requires Writable(m, sid) && Stamped(Get(m, sid).cache)
    requires StartOf(Get(m, sid).cache, last) < |Get(m, sid).cache|
    ensures Recover(m, sid, last).1
    ensures Recover(m, sid, last).0.wire ==
              m.wire + RecoveryFrames(HandleOf(m, sid), m.nextId, m.clock, Get(m, sid).cache[StartOf(Get(m, sid).cache, last)..])
  {
    RecoverFramed(m, sid, last);
    StampedSuffix(Get(m, sid).cache, StartOf(Get(m, sid).cache, last));
    ReplayFramedSends(m, sid, Get(m, sid).cache[StartOf(Get(m, sid).cache, last)..]);
  }

  /** The frames of a recovery replaying `es`: the start marker counting
      them, one flagged frame per non-binary entry, and the end marker with
      the same count; the markers take the fresh ids `id` and `id + 1`. */
  function RecoveryFrames(h: Handle, id: nat, clock: nat, es: seq<CacheEntry>): seq<WireEvent> {
    [WireEvent(h, JsonFrame(CountMsg("recovery_start", |es|).(messageId := Some(Generated(id)), timestamp := Some(clock))))]
    + JsonEvents(h, Flagged(es))
    + [WireEvent(h, JsonFrame(CountMsg("recovery_complete", |es|).(messageId := Some(Generated(id + 1)), timestamp := Some(clock))))]
  }

  /** Over a connection that accepts writes, the framed replay sends the
      recovery frames. */
  lemma ReplayFramedSends(m: Manager, sid: string, es: seq<CacheEntry>)
    requires Writable(m, sid) && Stamped(es)
    ensures ReplayFramed(m, sid, es).wire == m.wire + RecoveryFrames(HandleOf(m, sid), m.nextId, m.clock, es)
  {
    var m1 := SendJson(m, sid, CountMsg("recovery_start", |es|)).0;
    ReplaySnapshotSends(m1, sid, es);
  }

  /** With something newer than the client's last message, recovery is the
      framed replay of the entries after it. */
  lemma RecoverFramed(m: Manager, sid: string, last: Option<MsgId>)
    requires IsConnected(m, sid) && StartOf(Get(m, sid).cache, last) < |Get(m, sid).cache|
    ensures Recover(m, sid, last) == (ReplayFramed(m, sid, Get(m, sid).cache[StartOf(Get(m, sid).cache, last)..]), true)
  {
  }

  /** Every part of a stamped cache is stamped. */
  lemma StampedSuffix(c: seq<CacheEntry>, start: nat)
    requires Stamped(c) && start <= |c|
    ensures Stamped(c[start..])
  {
  }

  /** Two elements appended one at a time land at the next two indices. */
  lemma SnocIndices<T>(w: seq<T>, a: T, b: T)
    ensures |w + [a] + [b]| == |w| + 2
    ensures (w + [a] + [b])[..|w|] == w
    ensures (w + [a] + [b])[|w|] == a && (w + [a] + [b])[|w| + 1] == b
  {
  }

  /** A cached update carrying the generated id `n`. */
  function Update(n: nat): CacheEntry {
    CacheEntry(0, Message("update", JNull, Some(Generated(n)), Some(0), false, None), false)
  }

  /** A session that accepts writes, has sent nothing yet, and whose cache
      holds two updates, ids 1 and 2. */
  predicate TwoUpdates(m: Manager, sid: string) {
    TwoCached(m, sid) && m.wire == [] && Get(m, sid).cache == [Update(1), Update(2)]
  }

  /** A session that accepts writes and holds two cached entries. */
  predicate TwoCached(m: Manager, sid: string) {
    Writable(m, sid) && |Get(m, sid).cache| == 2
  }

  /** One `send_json` over a connection that accepts writes, to a cache
      with room left. */
  lemma SendStep(m: Manager, sid: string, msg: Message)
    requires Writable(m, sid) && |Get(m, sid).cache| < MaxCached
    ensures var r := SendJson(m, sid, msg).0;
            && r.wire == m.wire + [WireEvent(HandleOf(m, sid), JsonFrame(Stamp(m, msg)))]
            && Get(r, sid).cache == Get(m, sid).cache + [CacheEntry(m.clock, Stamp(m, msg), false)]
            && Writable(r, sid) && HandleOf(r, sid) == HandleOf(m, sid)
            && r.clock == m.clock && r.nextId == (if msg.messageId.Some? then m.nextId else m.nextId + 1)
  {
  }

  /** The client saw update 1 and asks for the rest. As written, four frames
      go out: the start marker (count 1), update 2, the start marker itself
      replayed as a recovery message, and an end marker with count 4. */
  lemma RecoverAsWrittenMiscounts(m: Manager, sid: string)
    requires TwoUpdates(m, sid)
    ensures var r := RecoverAsWritten(m, sid, Some(Generated(1))).0;
            && |r.wire| == 4
            && r.wire[0].frame == JsonFrame(OpenSent(m))
            && r.wire[1].frame == JsonFrame(Update(2).msg.(isRecovery := true))
            && r.wire[2].frame.JsonFrame? && r.wire[2].frame.msg.kind == "recovery_start" && r.wire[2].frame.msg.isRecovery
            && r.wire[3].frame.JsonFrame? && r.wire[3].frame.msg.data == JObj([("message_count", JInt(4))])
  {
    AsWrittenFrames(m, sid);
  }

  /** The four frames of the example as written, in order. */
  lemma AsWrittenFrames(m: Manager, sid: string)
    requires TwoUpdates(m, sid)
    ensures var h := HandleOf(m, sid);
            var w := RecoverAsWritten(m, sid, Some(Generated(1))).0.wire;
            && |w| == 4
            && w[0] == WireEvent(h, JsonFrame(OpenSent(m)))
            && w[1] == WireEvent(h, JsonFrame(Update(2).msg.(isRecovery := true)))
            && w[2] == WireEvent(h, JsonFrame(OpenSent(m).(isRecovery := true)))
            && w[3].frame.JsonFrame? && w[3].frame.msg.data == JObj([("message_count", JInt(4))])
  {
    var h := HandleOf(m, sid);
    AsWrittenWire(m, sid);
    ReplayedWire(m, sid);
    EndMarkerCount(m, sid);
    FourFrames(RecoverAsWritten(m, sid, Some(Generated(1))).0.wire, Replayed2(m, sid).wire,
               WireEvent(h, JsonFrame(Stamp(Replayed2(m, sid), CountMsg("recovery_complete", 4)))),
               WireEvent(h, JsonFrame(OpenSent(m))),
               WireEvent(h, JsonFrame(Update(2).msg.(isRecovery := true))),
               WireEvent(h, JsonFrame(OpenSent(m).(isRecovery := true))));
  }

  /** Three known frames and one more after them. */
  lemma FourFrames(w: seq<WireEvent>, p: seq<WireEvent>, x: WireEvent, a: WireEvent, b: WireEvent, c: WireEvent)
    requires w == p + [x] && p == [a, b, c]
    ensures |w| == 4 && w[0] == a && w[1] == b && w[2] == c && w[3] == x
  {
  }

  /** The wire after the two replays of the example: the start marker,
      update 2, and the start marker again, flagged. */
  lemma ReplayedWire(m: Manager, sid: string)
    requires TwoUpdates(m, sid)
    ensures var h := HandleOf(m, sid);
            Replayed2(m, sid).wire == [WireEvent(h, JsonFrame(OpenSent(m))),
                                       WireEvent(h, JsonFrame(Update(2).msg.(isRecovery := true))),
                                       WireEvent(h, JsonFrame(OpenSent(m).(isRecovery := true)))]
  {
    OpenedState(m, sid);
    Replayed1State(m, sid);
    Replayed2State(m, sid);
  }

  /** The end marker of the example as written counts four messages. */
  lemma EndMarkerCount(m: Manager, sid: string)
    requires TwoUpdates(m, sid)
    ensures Stamp(Replayed2(m, sid), CountMsg("recovery_complete", 4)).data == JObj([("message_count", JInt(4))])
  {
  }

  /** The wire after the example as written: the replayed frames, then the
      end marker sent as `send_json` stamps it. */
  lemma AsWrittenWire(m: Manager, sid: string)
    requires TwoUpdates(m, sid)
    ensures RecoverAsWritten(m, sid, Some(Generated(1))).0.wire
            == Replayed2(m, sid).wire + [WireEvent(HandleOf(m, sid), JsonFrame(Stamp(Replayed2(m, sid), CountMsg("recovery_complete", 4))))]
  {
    ExampleAsWritten(m, sid);
    Replayed2State(m, sid);
    SendStep(Replayed2(m, sid), sid, CountMsg("recovery_complete", 4));
  }

  // The states the example passes through as written.

  /** The start marker as sent: the next fresh id, the current time. */
  function OpenSent(m: Manager): Message {
    CountMsg("recovery_start", 1).(messageId := Some(Generated(m.nextId)), timestamp := Some(m.clock))
  }

  /** After the start marker. */
  function Opened(m: Manager, sid: string): Manager {
    SendJson(m, sid, CountMsg("recovery_start", 1)).0
  }

  /** After replaying update 2. */
  function Replayed1(m: Manager, sid: string): Manager
    requires TwoCached(m, sid)
  {
    OpenedState(m, sid);
    OpenedCache(m, sid);
    SendJson(FlagAt(Opened(m, sid), sid, 1), sid, Update(2).msg.(isRecovery := true)).0
  }

  /** After replaying the start marker, which the first send cached. */
  function Replayed2(m: Manager, sid: string): Manager
    requires TwoCached(m, sid)
  {
    Replayed1State(m, sid);
    SendJson(FlagAt(Replayed1(m, sid), sid, 2), sid, OpenSent(m).(isRecovery := true)).0
  }

  /** One step of the live replay: flag entry `i`, then send a message that
      already carries its id and timestamp. */
  lemma FlagStep(m: Manager, sid: string, i: nat, msg: Message)
    requires Writable(m, sid) && i < |Get(m, sid).cache| < MaxCached
    requires msg.messageId.Some? && msg.timestamp.Some?
    ensures var r := SendJson(FlagAt(m, sid, i), sid, msg).0;
            && Writable(r, sid) && HandleOf(r, sid) == HandleOf(m, sid) && r.clock == m.clock
            && r.wire == m.wire + [WireEvent(HandleOf(m, sid), JsonFrame(msg))]
            && var c := Get(m, sid).cache;
               Get(r, sid).cache == c[i := c[i].(msg := c[i].msg.(isRecovery := true))] + [CacheEntry(m.clock, msg, false)]
  {
    var f := FlagAt(m, sid, i);
    assert Stamp(f, msg) == msg;
    SendStep(f, sid, msg);
  }

  /** The start marker goes out and is cached like any other message. */
  lemma OpenedState(m: Manager, sid: string)
    requires Writable(m, sid) && |Get(m, sid).cache| < MaxCached
    ensures Writable(Opened(m, sid), sid) && HandleOf(Opened(m, sid), sid) == HandleOf(m, sid)
    ensures Opened(m, sid).clock == m.clock && Opened(m, sid).nextId == m.nextId + 1
    ensures Opened(m, sid).wire == m.wire + [WireEvent(HandleOf(m, sid), JsonFrame(OpenSent(m)))]
  {
    SendStep(m, sid, CountMsg("recovery_start", 1));
  }

  lemma OpenedCache(m: Manager, sid: string)
    requires Writable(m, sid) && |Get(m, sid).cache| < MaxCached
    ensures Get(Opened(m, sid), sid).cache == Get(m, sid).cache + [CacheEntry(m.clock, OpenSent(m), false)]
  {
    SendStep(m, sid, CountMsg("recovery_start", 1));
  }

  lemma Replayed1State(m: Manager, sid: string)
    requires TwoCached(m, sid)
    ensures Writable(Replayed1(m, sid), sid) && HandleOf(Replayed1(m, sid), sid) == HandleOf(m, sid)
    ensures Replayed1(m, sid).clock == m.clock
    ensures Replayed1(m, sid).wire == Opened(m, sid).wire + [WireEvent(HandleOf(m, sid), JsonFrame(Update(2).msg.(isRecovery := true)))]
    ensures |Get(Replayed1(m, sid), sid).cache| == 4
    ensures Get(Replayed1(m, sid), sid).cache[2] == CacheEntry(m.clock, OpenSent(m), false)
  {
    OpenedState(m, sid);
    OpenedCache(m, sid);
    FlagStep(Opened(m, sid), sid, 1, Update(2).msg.(isRecovery := true));
  }

  lemma Replayed2State(m: Manager, sid: string)
    requires TwoCached(m, sid)
    ensures Writable(Replayed2(m, sid), sid) && HandleOf(Replayed2(m, sid), sid) == HandleOf(m, sid)
    ensures Replayed2(m, sid).wire == Replayed1(m, sid).wire + [WireEvent(HandleOf(m, sid), JsonFrame(OpenSent(m).(isRecovery := true)))]
    ensures |Get(Replayed2(m, sid), sid).cache| == 5
  {
    Replayed1State(m, sid);
    FlagStep(Replayed1(m, sid), sid, 2, OpenSent(m).(isRecovery := true));
  }

  /** The replay loop walks indices 1 and 2 of the growing cache. */
  lemma ReplayedLive(m: Manager, sid: string)
    requires TwoUpdates(m, sid)
    ensures ReplayLive(Opened(m, sid), sid, 1, 3) == Replayed2(m, sid)
  {
    OpenedState(m, sid);
    OpenedCache(m, sid);
    Replayed1State(m, sid);
    assert ReplayLive(Replayed2(m, sid), sid, 3, 3) == Replayed2(m, sid);
    assert ReplayLive(Replayed1(m, sid), sid, 2, 3) == Replayed2(m, sid);
  }

  /** The example as written ends with an end marker counting the five
      cached entries less the start index. */
  lemma ExampleAsWritten(m: Manager, sid: string)
    requires TwoUpdates(m, sid)
    ensures RecoverAsWritten(m, sid, Some(Generated(1))).0 == SendJson(Replayed2(m, sid), sid, CountMsg("recovery_complete", 4)).0
  {
    assert StartOf(Get(m, sid).cache, Some(Generated(1))) == 1;
    OpenedState(m, sid);
    OpenedCache(m, sid);
    ReplayedLive(m, sid);
    Replayed2State(m, sid);
  }

  /** The same request with the intended replay: three frames, update 2
      between two markers that both count 1. */
  lemma RecoverExampleAgrees(m: Manager, sid: string)
    requires TwoUpdates(m, sid)
    ensures var r := Recover(m, sid, Some(Generated(1))).0;
            && |r.wire| == 3
            && r.wire[1].frame == JsonFrame(Update(2).msg.(isRecovery := true))
            && r.wire[0].frame.JsonFrame? && r.wire[2].frame.JsonFrame?
            && r.wire[0].frame.msg.data == r.wire[2].frame.msg.data == JObj([("message_count", JInt(1))])
  {
    var c := Get(m, sid).cache;
    assert StartOf(c, Some(Generated(1))) == 1;
    assert c[1..] == [Update(2)];
    assert Flagged(c[1..]) == [Update(2).msg.(isRecovery := true)];
    RecoverReplaysSuffix(m, sid, Some(Generated(1)));
  }

  // ------------------------------------------------------------ broadcast

  predicate Distinct(xs: seq<string>) {
    forall i, j :: 0 <= i < j < |xs| ==> xs[i] != xs[j]
  }

  /** The send loop of `broadcast`: every listed session not excluded is
      sent the message; the sessions whose send fails are collected, in
      order. */
  function BroadcastSend(m: Manager, msg: Message, exclude: seq<string>, order: seq<string>): (r: (Manager, seq<string>))
    requires Distinct(order)
    ensures forall s :: s !in order || s in exclude ==> Get(r.0, s) == Get(m, s)
    ensures forall s :: s in r.1 <==> s in order && s !in exclude && !Writable(m, s)
    ensures forall s :: s in order && s !in exclude && Writable(m, s) ==> Writable(r.0, s)
    ensures r.0.faults == m.faults && r.0.clock == m.clock
    ensures msg.messageId.None? ==> r.0.wire == m.wire + Deliveries(m, msg, exclude, order, m.nextId)
    decreases |order|
  {
    if |order| == 0 then (m, [])
    else
      var s := order[0];
      assert forall i :: 1 <= i < |order| ==> order[i] == order[1..][i - 1];
      assert s !in order[1..];
      if s in exclude then BroadcastSend(m, msg, exclude, order[1..])
      else
        var r1 := SendJson(m, s, msg);
        assert forall t :: t != s ==> (Writable(r1.0, t) <==> Writable(m, t));
        assert Writable(m, s) ==> Writable(r1.0, s);
        var r2 := BroadcastSend(r1.0, msg, exclude, order[1..]);
        BroadcastStep(m, msg, exclude, order);
        (r2.0, if r1.1 then r2.1 else [s] + r2.1)
  }

  /** The frames a broadcast of `msg` (which carries no id of its own) writes,
      read off the manager as it was before the loop: each listed session
      not excluded that is connected uses up the next generated id, and
      those among them whose handle takes writes receive the message
      stamped with that id. */
  function Deliveries(m: Manager, msg: Message, exclude: seq<string>, order: seq<string>, next: nat): seq<WireEvent>
    decreases |order|
  {
    if |order| == 0 then []
    else
      var s := order[0];
      if s in exclude || !IsConnected(m, s) then Deliveries(m, msg, exclude, order[1..], next)
      else
        var stamped := msg.(messageId := Some(Generated(next)), timestamp := Some(msg.timestamp.GetOr(m.clock)));
        (if Writable(m, s) then [WireEvent(HandleOf(m, s), JsonFrame(stamped))] else [])
          + Deliveries(m, msg, exclude, order[1..], next + 1)
  }

  /** Every delivery is the message on the handle of a listed, not excluded,
      writable session; and every such session gets one. */
  lemma DeliveriesReach(m: Manager, msg: Message, exclude: seq<string>, order: seq<string>, next: nat)
    ensures forall e :: e in Deliveries(m, msg, exclude, order, next) ==>
              && e.frame.JsonFrame? && e.frame.msg.kind == msg.kind && e.frame.msg.data == msg.data
              && exists s :: s in order && s !in exclude && Writable(m, s) && e.to == HandleOf(m, s)
    ensures forall s :: s in order && s !in exclude && Writable(m, s) ==>
              exists e :: e in Deliveries(m, msg, exclude, order, next) && e.to == HandleOf(m, s)
  {
    forall e | e in Deliveries(m, msg, exclude, order, next)
      ensures && e.frame.JsonFrame? && e.frame.msg.kind == msg.kind && e.frame.msg.data == msg.data
              && exists s :: s in order && s !in exclude && Writable(m, s) && e.to == HandleOf(m, s)
    {
      var s := DeliveryFrom(m, msg, exclude, order, next, e);
    }
    forall s | s in order && s !in exclude && Writable(m, s)
      ensures exists e :: e in Deliveries(m, msg, exclude, order, next) && e.to == HandleOf(m, s)
    {
      DeliveryFor(m, msg, exclude, order, next, s);
    }
  }

  /** The session a delivery goes to. */
  lemma {:induction false} DeliveryFrom(m: Manager, msg: Message, exclude: seq<string>, order: seq<string>,
                                        next: nat, e: WireEvent) returns (s: string)
    requires e in Deliveries(m, msg, exclude, order, next)
    ensures e.frame.JsonFrame? && e.frame.msg.kind == msg.kind && e.frame.msg.data == msg.data
    ensures s in order && s !in exclude && Writable(m, s) && e.to == HandleOf(m, s)
    decreases |order|
  {
    var t := order[0];
    if t in exclude || !IsConnected(m, t) {
      s := DeliveryFrom(m, msg, exclude, order[1..], next, e);
    } else if Writable(m, t) && e == Deliveries(m, msg, exclude, order, next)[0] {
      s := t;
    } else {
      s := DeliveryFrom(m, msg, exclude, order[1..], next + 1, e);
    }
  }

  /** A listed, not excluded, writable session gets a delivery. */
  lemma {:induction false} DeliveryFor(m: Manager, msg: Message, exclude: seq<string>, order: seq<string>,
                                       next: nat, s: string)
    requires s in order && s !in exclude && Writable(m, s)
    ensures exists e :: e in Deliveries(m, msg, exclude, order, next) && e.to == HandleOf(m, s)
    decreases |order|
  {
    var t := order[0];
    var d := Deliveries(m, msg, exclude, order, next);
    if t == s {
      assert d[0] in d && d[0].to == HandleOf(m, s);
    } else {
      assert s in order[1..];
      var n := if t in exclude || !IsConnected(m, t) then next else next + 1;
      DeliveryFor(m, msg, exclude, order[1..], n, s);
      var e :| e in Deliveries(m, msg, exclude, order[1..], n) && e.to == HandleOf(m, s);
      assert e in d;
    }
  }

  /** The deliveries depend only on the listed sessions, the faults and the
      clock. */
  lemma {:induction false} DeliveriesAgree(m1: Manager, m2: Manager, msg: Message, exclude: seq<string>,
                                           order: seq<string>, next: nat)
    requires m1.faults == m2.faults && m1.clock == m2.clock
    requires forall t :: t in order ==> Get(m1, t) == Get(m2, t)
    ensures Deliveries(m1, msg, exclude, order, next) == Deliveries(m2, msg, exclude, order, next)
    decreases |order|
  {
    if |order| > 0 {
      assert forall t :: t in order[1..] ==> t in order;
      DeliveriesAgree(m1, m2, msg, exclude, order[1..], next);
      DeliveriesAgree(m1, m2, msg, exclude, order[1..], next + 1);
    }
  }

  /** A send to a connected session whose handle refuses writes puts nothing
      on the wire: an ordinary exception leaves the wire alone, and the
      close a vanished peer triggers cannot reach it either. */
  lemma FaultedSendKeepsWire(m: Manager, sid: string, msg: Message)
    requires IsConnected(m, sid) && !Writable(m, sid)
    ensures SendJson(m, sid, msg).0.wire == m.wire
  {
    var m1 := Prepare(m, sid, msg);
    assert HandleOf(m1, sid) == HandleOf(m, sid);
  }

  /** One step of the broadcast loop: the frame it writes, if any, is the
      first delivery, and the rest of the deliveries are unaffected by it. */
  lemma BroadcastStep(m: Manager, msg: Message, exclude: seq<string>, order: seq<string>)
    requires |order| > 0 && order[0] !in exclude
    requires order[0] !in order[1..]
    ensures var r1 := SendJson(m, order[0], msg);
            msg.messageId.None? ==>
            r1.0.wire + Deliveries(r1.0, msg, exclude, order[1..], r1.0.nextId) ==
            m.wire + Deliveries(m, msg, exclude, order, m.nextId)
  {
    var s := order[0];
    var r1 := SendJson(m, s, msg);
    DeliveriesAgree(r1.0, m, msg, exclude, order[1..], r1.0.nextId);
    if IsConnected(m, s) && msg.messageId.None? {
      if !Writable(m, s) {
        FaultedSendKeepsWire(m, s, msg);
      }
      AppendAssoc(m.wire, if Writable(m, s) then [WireEvent(HandleOf(m, s), JsonFrame(Stamp(m, msg)))] else [],
                  Deliveries(m, msg, exclude, order[1..], m.nextId + 1));
    }
  }

  /** Disconnects each listed session in turn. */
  function DisconnectAll(m: Manager, ss: seq<string>): (r: Manager)
    ensures forall s :: s in ss ==> !IsConnected(r, s)
    ensures forall s :: s !in ss ==> Get(r, s) == Get(m, s)
    ensures m.wire <= r.wire
    decreases |ss|
  {
    if |ss| == 0 then m
    else
      var r := DisconnectAll(Disconnect(m, ss[0]), ss[1..]);
      assert forall s :: s in ss && s != ss[0] ==> s in ss[1..];
      assert ss[0] in ss[1..] || Get(r, ss[0]) == Get(Disconnect(m, ss[0]), ss[0]);
      r
  }

  /** `broadcast_json` (and `broadcast`, whose data is `{"message": text}`):
      every connected session not excluded is sent the message, in the
      order of the connection table, and every one whose send failed is
      then disconnected. `order` is that table's key order, which the model
      does not fix. */
  function Broadcast(m: Manager, data: Json, exclude: seq<string>, order: seq<string>): (r: Manager)
    requires Distinct(order)
    requires forall s :: s in order <==> Get(m, s).handle.Some?
    ensures forall s :: s in order && s !in exclude ==> (IsConnected(r, s) <==> Writable(m, s))
    ensures forall s :: s !in order || s in exclude ==> Get(r, s) == Get(m, s)
    ensures m.wire + Deliveries(m, Msg("broadcast", data), exclude, order, m.nextId) <= r.wire
    ensures (forall s :: s in order && s !in exclude ==> Writable(m, s)) ==>
              r.wire == m.wire + Deliveries(m, Msg("broadcast", data), exclude, order, m.nextId)
  {
    var sent := BroadcastSend(m, Msg("broadcast", data), exclude, order);
    assert |sent.1| > 0 ==> sent.1[0] in sent.1;
    DisconnectAll(sent.0, sent.1)
  }

  /** What the endpoint's cleanup evidently intends: tear the session down
      only while the connection being cleaned up is still the one filed for
      it. */
  function DisconnectHandle(m: Manager, sid: string, h: Handle): (r: Manager)
    ensures Get(m, sid).handle == Some(h) ==> !IsConnected(r, sid)
    ensures Get(m, sid).handle != Some(h) ==> r == m
  {
    if Get(m, sid).handle == Some(h) then Disconnect(m, sid) else m
  }
}
