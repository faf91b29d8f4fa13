// The client object of server/src/apiclient.cpp, whose callbacks and workers change it in place.
module ApiClient {
  import opened Wrappers
  import opened Text
  import opened Tables
  import opened Worker
  import opened Session

  method MaxTimestampOf(msgs: seq<ApiMessage>) returns (ts: nat)
    ensures ts == MaxTimestamp(msgs)
  {
    ts := 0;
    for i := 0 to |msgs|
      invariant ts == MaxTimestamp(msgs[..i])
    {
      assert msgs[..i + 1][..i] == msgs[..i];
      if msgs[i].ts > ts {
        ts := msgs[i].ts;
      }
    }
    assert msgs[..|msgs|] == msgs;
  }

  function Queued(task: Option<Task>): seq<Task> {
    if task.Some? then [task.value] else []
  }

  class Client {
    const self: nat
    var state: Conn
    var tasks: seq<Task>  // what was handed to putTask

    constructor (self: nat)
      ensures this.self == self && state == ACCEPTED && tasks == []
    {
      this.self, state, tasks := self, ACCEPTED, [];
    }

    method AsyncWrite(w: Write)
      modifies this`state
      ensures state == Posted(old(state), w)
    {
      state := state.(clobbered := state.clobbered || state.writing != []);
      state := state.(writing := state.writing + [w]);
    }

    method ReadCmd()
      modifies this`state
      ensures state == old(state).(reading := old(state).reading + 1)
    {
      state := state.(reading := state.reading + 1);
    }

    method ProcessClientRequest(ok: bool)
      requires state.handshake
      modifies this`state
      ensures state == HandshakeDone(old(state), ok)
    {
      state := state.(handshake := false);
      if !ok {
        state := state.(failed := true);
        return;
      }
      ReadCmd();
    }

    method SendErrorResponse(code: int)
      modifies this`state
      ensures state == Posted(old(state), Response(code))
    {
      AsyncWrite(Response(code));
    }

    method SendOkResponseAndStartIdle()
      modifies this`state
      ensures state == Posted(old(state), IdleStart).(timers := old(state).timers + 1)
    {
      AsyncWrite(IdleStart);
      state := state.(timers := state.timers + 1);
    }

    method RequestFromClientReadHandler(input: Incoming)
      requires state.reading > 0
      modifies this
      ensures var (after, task) := ReadDone(old(state), self, input);
              && state == after
              && tasks == old(tasks) + Queued(task)
    {
      hide Route, Lowercased, IDLE_RESOURCE, Handled, IdleAsked;
      state := state.(reading := state.reading - 1);
      if input.Broken? {
        state := state.(failed := true);
        return;
      }
      var resource := ToLower(input.resource);
      if resource == IDLE_RESOURCE {
        AskIdle(input.parsed, input.refused);
        return;
      }
      var cmd := Route(resource);
      if cmd.None? {
        SendErrorResponse(404);
        return;
      }
      V1Handler(cmd.value, input.contentType, input.parsed, input.refused);
    }

    /** The handler's branch for /v1/idle. */
    method AskIdle(parsed: Task, refused: bool)
      modifies this`state
      ensures state == IdleAsked(old(state), self, parsed, refused)
    {
      state := state.(request := Details(parsed, self, Idle));
      if refused {
        SendErrorResponse(400);
        return;
      }
      state := state.(start := state.request.ts, idle := true);
      SendOkResponseAndStartIdle();
    }

    method V1Handler(cmd: Command, contentType: string, parsed: Task, refused: bool)
      modifies this
      ensures state == Handled(old(state), self, cmd, contentType, parsed, refused).0
      ensures tasks == old(tasks) + Queued(Handled(old(state), self, cmd, contentType, parsed, refused).1)
    {
      state := state.(request := state.request.(cmd := cmd));
      HandlerImpl(cmd, contentType, parsed, refused);
    }

    method HandlerImpl(cmd: Command, contentType: string, parsed: Task, refused: bool)
      modifies this
      ensures var r := Details(parsed, self, cmd);
              if !AllowedType(contentType) then
                state == Posted(old(state), Response(400)) && tasks == old(tasks)
              else if refused then
                state == Posted(old(state), Response(400)).(request := r) && tasks == old(tasks)
              else
                && state == old(state).(request := r, stalled := old(state).stalled || cmd.ChatHistory?)
                && tasks == old(tasks) + [r.(storage := if cmd.UserCreate? then ONLY_STORAGE else "")]
    {
      hide ONLY_STORAGE, TEXT_PLAIN, JSON, StartsWith;
      if StartsWith(contentType, TEXT_PLAIN) || StartsWith(contentType, JSON) {
        state := state.(request := Details(parsed, self, cmd));
        if refused {
          SendErrorResponse(400);
          return;
        }
      } else {
        SendErrorResponse(400);
        return;
      }
      var t := state.request;
      if cmd.UserCreate? {
        t := t.(storage := ONLY_STORAGE);
      }
      state := state.(stalled := state.stalled || cmd.ChatHistory?);
      tasks := tasks + [t];
    }

    method ResponseToClientWroteHandler(i: nat, ok: bool)
      requires i < |state.writing| && state.writing[i].Response?
      modifies this`state
      ensures state == WriteDone(old(state), i, ok)
    {
      state := state.(writing := state.writing[..i] + state.writing[i + 1..]);
      ReadCmd();
    }

    /** `at` is what the model remembers of the batch, its positions in the log. */
    method SendMessagesToIdleConn(msgs: seq<ApiMessage>, ghost source: seq<Message>, at: seq<nat>)
      modifies this`state
      ensures state == Replied(old(state), IdleMessages(msgs, source, at))
    {
      var maxTs := MaxTimestampOf(msgs);
      AsyncWrite(IdleBatch(maxTs, msgs, at));
    }

    /** The handler that sendMessagesToIdleConn passes along with its write. */
    method IdleWroteHandler(i: nat, ok: bool)
      requires i < |state.writing| && state.writing[i].IdleBatch?
      modifies this`state
      ensures state == WriteDone(old(state), i, ok)
    {
      var maxTs, msgs, at := state.writing[i].newest, state.writing[i].msgs, state.writing[i].at;
      state := state.(writing := state.writing[..i] + state.writing[i + 1..]);
      if !ok {
        return;
      }
      state := state.(newest := maxTs, received := state.received + msgs, positions := state.positions + at);
    }

    method TimerWaitTaskResultHandler(aborted: bool, now: nat)
      requires state.timers > 0
      modifies this
      ensures if aborted then state == TimerDropped(old(state)) && tasks == old(tasks)
              else var (after, task) := Ticked(old(state), self, now);
                   state == after && tasks == old(tasks) + [task]
    {
      if aborted {
        state := state.(timers := state.timers - 1);
        return;
      }
      if state.newest > state.request.ts {
        state := state.(request := state.request.(ts := state.newest));
      }
      var task := state.request.(client := self, ping := false);
      if PingDue(state, now) {
        state := state.(lastPing := now);
        task := task.(ping := true);
      }
      tasks := tasks + [task];
    }
  }
}
