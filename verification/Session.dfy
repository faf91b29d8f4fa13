// One client connection of server/src/apiclient.cpp: its pending operations and its polling cursor,
// and what each callback makes of them.
module Session {
  import opened Wrappers
  import opened Text
  import opened Worker

  /** A pending asyncWrite, by what its completion handler will do. */
  datatype Write =
    | Response(code: int)
    | IdleStart
    | IdleBatch(newest: nat, msgs: seq<ApiMessage>, at: seq<nat>)

  datatype Conn = Conn(
    handshake: bool,       // a pending handshake
    reading: nat,            // pending asyncResponse requests
    writing: seq<Write>,    // pending asyncWrite requests
    timers: nat,           // pending timer waits
    request: Task,         // m_RequestDetails; request.ts is the polling cursor
    newest: nat,           // m_NewestMsgTimestamp
    lastPing: nat,         // m_LastClientPing
    // what has happened on the connection so far
    failed: bool,          // a handshake or a read ended in an error
    stalled: bool,         // a task was queued that processQueue does not answer
    idle: bool,            // /v1/idle was accepted
    refused: bool,         // an error reply was sent after that
    clobbered: bool,       // m_WriteBuffer was assigned during a write
    start: nat,            // the cursor with which the idle mode began
    received: seq<ApiMessage>,  // the messages of the batches whose write has completed, in order
    positions: seq<nat>)        // and their positions in the log

  const IDLE_RESOURCE := "/v1/idle"
  const ONLY_STORAGE := "localhost:3306"

  const TEXT_PLAIN := "text/plain"
  const JSON := "application/json"

  const NO_TASK := Task(0, MessageRecent, false, 0, 0, 0, "", "", "", "", "", "", "")

  const ACCEPTED := Conn(true, 0, [], 0, NO_TASK, 0, 0, false, false, false, false, false, 0, [], [])

  function MaxTimestamp(msgs: seq<ApiMessage>): (ts: nat)
    ensures forall i :: 0 <= i < |msgs| ==> msgs[i].ts <= ts
    ensures ts == 0 || HasStamp(msgs, ts)
  {
    if msgs == [] then 0
    else
      var n := |msgs| - 1;
      var ts := MaxTimestamp(msgs[..n]);
      assert forall i :: 0 <= i < n ==> msgs[..n][i] == msgs[i];
      if msgs[n].ts > ts then msgs[n].ts else ts
  }

  predicate HasStamp(msgs: seq<ApiMessage>, ts: nat) {
    exists i :: 0 <= i < |msgs| && msgs[i].ts == ts
  }

  lemma StampStays(a: seq<ApiMessage>, b: seq<ApiMessage>, ts: nat)
    requires HasStamp(a, ts) || HasStamp(b, ts)
    ensures HasStamp(a + b, ts)
  {
    if i :| 0 <= i < |b| && b[i].ts == ts {
      assert (a + b)[|a| + i] == b[i];
    }
    if i :| 0 <= i < |a| && a[i].ts == ts {
      assert (a + b)[i] == a[i];
    }
  }

  /** asyncWrite: one buffer for all writes. */
  function Posted(c: Conn, w: Write): Conn {
    c.(writing := c.writing + [w], clobbered := c.clobbered || c.writing != [])
  }

  // ------------------------------------------------------------- callbacks

  function HandshakeDone(c: Conn, ok: bool): Conn
    requires c.handshake
  {
    if ok then c.(handshake := false, reading := c.reading + 1) else c.(handshake := false, failed := true)
  }

  /** What a completed read brings. `parsed` is m_RequestDetails as parse_meta leaves it, and a refused body
      leaves it half assigned. */
  datatype Incoming =
    | Broken
    | Request(resource: string, contentType: string, parsed: Task, refused: bool)

  function Route(resource: string): Option<Command> {
    if resource == "/v1/message/send" then Some(MessageSend)
    else if resource == "/v1/message/sendchat" then Some(MessageSendChat)
    else if resource == "/v1/user/login" then Some(UserLogin)
    else if resource == "/v1/user/create" then Some(UserCreate)
    else if resource == "/v1/chat/create" then Some(ChatCreate)
    else if resource == "/v1/user/history" then Some(UserHistory)
    else if resource == "/v1/group/history" then Some(ChatHistory)
    else if resource == "/v1/user/status" then Some(UserStatus)
    else if resource == "/v1/chat/adduser" then Some(ChatAdduser)
    else None
  }

  predicate AllowedType(contentType: string) {
    StartsWith(contentType, TEXT_PLAIN) || StartsWith(contentType, JSON)
  }

  /** What is kept of a request: its command and parameters, not the ping flag and the storage of a task. */
  function Details(parsed: Task, client: nat, cmd: Command): Task {
    parsed.(client := client, cmd := cmd, ping := false, storage := "")
  }

  /** /v1/idle */
  function IdleAsked(c: Conn, client: nat, parsed: Task, refused: bool): (r: Conn)
    ensures r.refused == c.refused && (c.idle ==> r.idle)
  {
    var r := Details(parsed, client, Idle);
    if refused then Posted(c, Response(400)).(request := r)
    else Posted(c, IdleStart).(request := r, start := r.ts, idle := true, timers := c.timers + 1)
  }

  /** v1_handler and handler_impl: the command is kept whatever comes, the parameters once the type is allowed. */
  function Handled(c: Conn, client: nat, cmd: Command, contentType: string, parsed: Task, refused: bool)
    : (r: (Conn, Option<Task>))
    ensures r.0.refused == c.refused && r.0.idle == c.idle
  {
    var r := Details(parsed, client, cmd);
    if !AllowedType(contentType) then (Posted(c, Response(400)).(request := c.request.(cmd := cmd)), None)
    else if refused then (Posted(c, Response(400)).(request := r), None)
    else
      (c.(request := r, stalled := c.stalled || cmd.ChatHistory?),
       Some(r.(storage := if cmd.UserCreate? then ONLY_STORAGE else "")))
  }

  /** requestFromClientReadHandler; the second result is the task it queues. */
  function ReadDone(c: Conn, client: nat, input: Incoming): (Conn, Option<Task>)
    requires c.reading > 0
  {
    var c := c.(reading := c.reading - 1);
    match input
    case Broken => (c.(failed := true), None)
    case Request(asSent, contentType, parsed, refused) =>
      var resource := Lowercased(asSent);
      if resource == IDLE_RESOURCE then (IdleAsked(c, client, parsed, refused), None)
      else
        match Route(resource)
        case None => (Posted(c, Response(404)), None)
        case Some(cmd) => Handled(c, client, cmd, contentType, parsed, refused)
  }

  /** The client object's half of a worker's reply. */
  function Replied(c: Conn, reply: Reply): Conn {
    match reply
    case IdleMessages(msgs, _, at) => Posted(c, IdleBatch(MaxTimestamp(msgs), msgs, at))
    case Error(code) => Posted(c, Response(code)).(refused := c.refused || c.idle)
    case _ => Posted(c, Response(200))
  }

  /** A write completes. A response is followed by the next read even when it could not be written. */
  function WriteDone(c: Conn, i: nat, ok: bool): Conn
    requires i < |c.writing|
  {
    var w := c.writing[i];
    var c := c.(writing := c.writing[..i] + c.writing[i + 1..]);
    match w
    case Response(_) => c.(reading := c.reading + 1)
    case IdleStart => c
    case IdleBatch(newest, msgs, at) =>
      if ok then c.(newest := newest, received := c.received + msgs, positions := c.positions + at) else c
  }

  predicate PingDue(c: Conn, now: nat) {
    now < c.lastPing || now - c.lastPing > 5
  }

  /** timerWaitTaskResultHandler: move the cursor, queue a poll, wait again. */
  function Ticked(c: Conn, client: nat, now: nat): (Conn, Task)
    requires c.timers > 0
  {
    var cursor := if c.newest > c.request.ts then c.newest else c.request.ts;
    var ping := PingDue(c, now);
    (c.(request := c.request.(ts := cursor), lastPing := if ping then now else c.lastPing),
     c.request.(ts := cursor, ping := ping, client := client))
  }

  /** A wait that was cancelled before it fired. */
  function TimerDropped(c: Conn): Conn
    requires c.timers > 0
  {
    c.(timers := c.timers - 1)
  }
}
