/**
 * One `/ws/chat` connection (`ws_chat`, server/server.py) as a class whose
 * fields are the handler's local state: the last session id, the time of the
 * last ping, the cancel flag, the frames sent so far and whether the handler
 * is still running. Each inbound frame is one call of `Receive`; the
 * heartbeat task's check is `HeartbeatTick`.
 *
 * Frames are JSON objects on the wire; here they are the `OutFrame` values
 * the handler would serialise. What `json.loads` makes of the text is the
 * `Payload`. The clock, fresh uuids, the model backend's events and the
 * point at which the client goes away are parameters of each call.
 */
module Session {
  import opened Common
  import opened History
  import opened Store
  import opened Agent

  /** `EVENT_HEARTBEAT_SEC`. */
  const EventHeartbeatSec: int := 25

  /** `store.history(session_id)` uses the default limit. */
  const HistoryLimit: int := 500

  /** The heartbeat task sends a heartbeat once the client has not pinged for more than 25 seconds. */
  predicate HeartbeatDue(lastPing: int, now: int)
  {
    now - lastPing > EventHeartbeatSec
  }

  /**
   * Not due exactly 25 seconds after a ping, due one second later; once due
   * it stays due until the next ping, and a ping makes it not due.
   */
  lemma HeartbeatThreshold(lastPing: int, now: int, later: int)
    ensures !HeartbeatDue(lastPing, lastPing + EventHeartbeatSec)
    ensures HeartbeatDue(lastPing, lastPing + EventHeartbeatSec + 1)
    ensures HeartbeatDue(lastPing, now) && now <= later ==> HeartbeatDue(lastPing, later)
    ensures !HeartbeatDue(now, now)
  {
  }

  /** `make_user_msg`, with the uuid and the clock reading given. */
  function MakeUserMsg(content: string, id: string, ts: int): ChatMessage
  {
    ChatMessage(id, "user", content, ts)
  }

  /** `make_assistant_msg`, with the uuid and the clock reading given. */
  function MakeAssistantMsg(content: string, id: string, ts: int): ChatMessage
  {
    ChatMessage(id, "assistant", content, ts)
  }

  // ---------- frames ----------

  /** What `json.loads` makes of one text frame, reduced to the keys the handler reads. */
  datatype Payload =
    | NotJson
      /** Valid JSON that is not an object (a list, a string, a number, `null`). */
    | NotObject
      /** An object; a key that is absent (or, for `type`, not a string) is `None`. */
    | Object(kind: Option<string>, text: Option<string>, sessionId: Option<string>)

  datatype Inbound = Disconnect | Text(payload: Payload)

  datatype OutFrame =
    | Ready(ts: int)
    | Pong(ts: int)
    | CancelledFrame
    | ErrorFrame(error: string)
    | Start(sessionId: string, messageId: string, ts: int)
    | Chunk(delta: string, ts: int)
    | Done(message: ChatMessage, promptTokens: nat, completionTokens: nat, ts: int)
    | Heartbeat(ts: int)

  /** What the receive loop does with one inbound frame. */
  datatype Action =
    | Close
      /** `data.get` on a value that is not a dict raises and ends the handler. */
    | Crash
    | Reply(error: string)
    | PingAction
    | CancelAction
    | Chat(text: string, sessionId: Option<string>)

  function Dispatch(m: Inbound): Action
  {
    match m
    case Disconnect => Close
    case Text(NotJson) => Reply("invalid_json")
    case Text(NotObject) => Crash
    case Text(Object(kind, text, sid)) =>
      if kind == Some("ping") then PingAction
      else if kind == Some("cancel") then CancelAction
      else if kind == Some("message") then Chat(if text.Some? then text.value else "", sid)
      else Reply("unknown_type")
  }

  /**
   * Only an object whose `type` is `"message"` starts a turn, with its text
   * or `""`; undecodable text and an unknown type are answered with their
   * error and nothing else, a non-object ends the handler, a disconnect
   * closes it.
   */
  lemma DispatchCases(m: Inbound)
    ensures Dispatch(m).Chat? <==> m.Text? && m.payload.Object? && m.payload.kind == Some("message")
    ensures Dispatch(m).Chat? ==> Dispatch(m).sessionId == m.payload.sessionId
                                  && (m.payload.text.None? ==> Dispatch(m).text == "")
                                  && (m.payload.text.Some? ==> Dispatch(m).text == m.payload.text.value)
    ensures Dispatch(m) == Reply("invalid_json") <==> m == Text(NotJson)
    ensures Dispatch(m) == Reply("unknown_type") <==>
              m.Text? && m.payload.Object? && m.payload.kind !in {Some("ping"), Some("cancel"), Some("message")}
    ensures Dispatch(m).Reply? ==> Dispatch(m).error in {"invalid_json", "unknown_type"}
    ensures Dispatch(m) == Crash <==> m == Text(NotObject)
    ensures Dispatch(m) == Close <==> m == Disconnect
  {
  }

  // ---------- one chat turn ----------

  /**
   * The world during one turn: clock readings (while streaming, and when the
   * reply is stored), fresh uuids, the backend's events, and the index of
   * the chunk whose send finds the client gone, if any.
   */
  datatype TurnEnv = TurnEnv(now: int, doneAt: int, freshSessionId: string, userMsgId: string,
                             assistantMsgId: string, backend: Backend, sendFailsAt: Option<nat>)

  /** How a turn ends. */
  datatype TurnEnd = TurnDone | TurnDisconnected | TurnCancelled | TurnRaised(error: BackendError)

  /*
   * The send of chunk `k` fails when `sendFailsAt == Some(k)` and the stream
   * yields that many deltas; the handler then breaks out of its loop, so it
   * abandons the generator right after taking delta `k` (`Abandons`).
   */

  /** The deltas whose chunk frames reach the client. */
  function SentDeltas(deltas: seq<string>, sendFailsAt: Option<nat>): seq<string>
  {
    if Abandons(deltas, sendFailsAt) then deltas[..sendFailsAt.value] else deltas
  }

  function ChunkFrames(deltas: seq<string>, ts: int): seq<OutFrame>
  {
    seq(|deltas|, i requires 0 <= i < |deltas| => Chunk(deltas[i], ts))
  }

  /**
   * A failed send abandons the stream before it can raise; otherwise the
   * stream's own ending decides.
   */
  function TurnEndOf(result: StreamResult, sendFailsAt: Option<nat>): TurnEnd
  {
    if Abandons(result.deltas, sendFailsAt) then TurnDisconnected
    else match result.outcome
      case Finished => TurnDone
      case Cancelled => TurnCancelled
      case Raised(e) => TurnRaised(e)
  }

  /** The assistant message a finished turn stores: the chunks joined. */
  function AssistantReply(env: TurnEnv, deltas: seq<string>): ChatMessage
  {
    MakeAssistantMsg(Join(deltas), env.assistantMsgId, env.doneAt)
  }

  /** The frames a turn sends after `start`. */
  function TurnFrames(env: TurnEnv, result: StreamResult): seq<OutFrame>
  {
    ChunkFrames(SentDeltas(result.deltas, env.sendFailsAt), env.now)
    + (if TurnEndOf(result, env.sendFailsAt) == TurnDone
       then [Done(AssistantReply(env, result.deltas), 0, |result.deltas|, env.doneAt)]
       else [])
  }

  /** Every delta the bridge yields is non-empty. */
  lemma BridgeDeltasNonEmpty(cancelAt: Option<nat>, backend: Backend)
    ensures forall d :: d in Bridge(cancelAt, backend).deltas ==> d != ""
  {
    var a, b := backend.initial, backend.rebuilt;
    var (first, end1) := RunAttempt(a, 0, cancelAt);
    var (second, end2) := RunAttempt(b, |a.events|, cancelAt);
    assert forall d :: d in first ==> d != "";
    assert forall d :: d in second ==> d != "";
  }

  /**
   * A turn is done exactly when every chunk was sent and the stream
   * finished. Then the client got one chunk per delta, in order, and a
   * final `done` whose message is the assistant's, holding the concatenated
   * deltas, with the number of chunks as completion tokens (never more than
   * the characters of the reply).
   */
  lemma CompletedTurnFrames(env: TurnEnv, cancelAt: Option<nat>)
    ensures var result := Bridge(cancelAt, env.backend);
            var f := TurnFrames(env, result);
            var n := |result.deltas|;
            && (TurnEndOf(result, env.sendFailsAt) == TurnDone <==>
                  !Abandons(result.deltas, env.sendFailsAt) && result.outcome == Finished)
            && (TurnEndOf(result, env.sendFailsAt) == TurnDone ==>
                  && |f| == n + 1
                  && (forall i :: 0 <= i < n ==> f[i] == Chunk(result.deltas[i], env.now))
                  && f[n].Done?
                  && f[n].message.role == "assistant"
                  && f[n].message.content == Join(result.deltas)
                  && f[n].promptTokens == 0
                  && f[n].completionTokens == n <= |f[n].message.content|)
  {
    var result := Bridge(cancelAt, env.backend);
    BridgeDeltasNonEmpty(cancelAt, env.backend);
    assert forall i :: 0 <= i < |result.deltas| ==> result.deltas[i] in result.deltas;
    JoinLength(result.deltas);
  }

  /**
   * A turn that ends without `done` sends only chunk frames; when the
   * client goes away, what it received is a prefix of what it would have
   * received had it stayed, cut just before the failed send.
   */
  lemma UnfinishedTurnFrames(env: TurnEnv, result: StreamResult)
    ensures TurnEndOf(result, env.sendFailsAt) != TurnDone ==>
              forall i :: 0 <= i < |TurnFrames(env, result)| ==> TurnFrames(env, result)[i].Chunk?
    ensures Abandons(result.deltas, env.sendFailsAt) ==>
              var f := TurnFrames(env, result);
              var full := TurnFrames(env.(sendFailsAt := None), result);
              && |f| == env.sendFailsAt.value
              && f == full[..|f|]
  {
    if Abandons(result.deltas, env.sendFailsAt) {
      var f := TurnFrames(env, result);
      var full := TurnFrames(env.(sendFailsAt := None), result);
      assert forall i :: 0 <= i < |f| ==> f[i] == full[i];
    }
  }

  /** A session never sets a cancel point in the bridge, so a stream never ends cancelled. */
  lemma NoCancelPointNoCancel(backend: Backend)
    ensures Bridge(None, backend).outcome != Cancelled
  {
    BridgeWithoutCancel(backend);
  }

  /** The user turn a new message stores, newer than every row of its conversation. */
  lemma NewestRowOlderEq(convs: seq<Conversation>, msgs: seq<MessageRow>, sid: string, user: ChatMessage, now: int)
    requires TablesValid(convs, msgs)
    requires forall x :: x in msgs && x.conversationId == sid ==> x.createdAt <= ToUtc(user.timestamp)
    ensures DistinctMessageIds(msgs + [StoredRow(msgs, sid, user)])
    ensures forall x :: x in msgs && x.conversationId == sid ==> OlderEq(x, StoredRow(msgs, sid, user))
  {
    AppendKeepsTablesValid(convs, msgs, sid, user, now);
    TablesValidIds(WithConversation(convs, sid, now), msgs + [StoredRow(msgs, sid, user)]);
  }

  /**
   * While a conversation holds fewer than 500 messages and the clock has not
   * gone back, the prompt of a turn is the text the user just sent.
   */
  lemma PromptIsNewTurn(convs: seq<Conversation>, msgs: seq<MessageRow>, sid: string, user: ChatMessage, now: int)
    requires TablesValid(convs, msgs)
    requires user.role == "user"
    requires forall x :: x in msgs && x.conversationId == sid ==> x.createdAt <= ToUtc(user.timestamp)
    requires |Matching(msgs, sid, None)| < HistoryLimit
    ensures LastUserContent(HistoryOf(msgs + [StoredRow(msgs, sid, user)], sid, HistoryLimit)) == user.content
  {
    var row := StoredRow(msgs, sid, user);
    NewestRowOlderEq(convs, msgs, sid, user, now);
    HistoryAfterAppend(msgs, sid, row, HistoryLimit);
    var h := HistoryOf(msgs + [row], sid, HistoryLimit);
    var rows := HistoryRows(msgs + [row], sid, HistoryLimit);
    assert rows[|rows| - 1] == row;
    assert h[|h| - 1] == ToChatMessage(row);
  }

  /**
   * Once a conversation holds 500 messages or more, `history` keeps the
   * oldest 500, so the agent sees the same history as before the new
   * message and the text just sent never reaches it.
   */
  lemma PromptAtHistoryLimit(convs: seq<Conversation>, msgs: seq<MessageRow>, sid: string, user: ChatMessage, now: int)
    requires TablesValid(convs, msgs)
    requires forall x :: x in msgs && x.conversationId == sid ==> x.createdAt <= ToUtc(user.timestamp)
    requires |Matching(msgs, sid, None)| >= HistoryLimit
    ensures HistoryOf(msgs + [StoredRow(msgs, sid, user)], sid, HistoryLimit) == HistoryOf(msgs, sid, HistoryLimit)
  {
    NewestRowOlderEq(convs, msgs, sid, user, now);
    HistoryAfterAppend(msgs, sid, StoredRow(msgs, sid, user), HistoryLimit);
  }

  /** Why the handler stopped running. */
  datatype Failure = NotAnObject | StreamError(error: BackendError)

  datatype Status = Open | Closed | Crashed(reason: Failure)

  /**
   * The chunk loop: each delta is recorded, then sent; the first failed send
   * stops the loop. Returns the frames that reached the client, the recorded
   * chunks and whether the client went away.
   */
  method ForwardChunks(deltas: seq<string>, sendFailsAt: Option<nat>, ts: int)
    returns (frames: seq<OutFrame>, chunks: seq<string>, disconnected: bool)
    ensures disconnected == Abandons(deltas, sendFailsAt)
    ensures frames == ChunkFrames(SentDeltas(deltas, sendFailsAt), ts)
    ensures chunks == if disconnected then deltas[..sendFailsAt.value + 1] else deltas
  {
    frames, chunks, disconnected := [], [], false;
    var i := 0;
    while i < |deltas|
      invariant 0 <= i <= |deltas|
      invariant sendFailsAt.None? || i <= sendFailsAt.value
      invariant chunks == deltas[..i]
      invariant frames == ChunkFrames(deltas[..i], ts)
    {
      chunks := chunks + [deltas[i]];
      assert deltas[..i + 1] == deltas[..i] + [deltas[i]];
      if sendFailsAt == Some(i) {
        disconnected := true;
        return;
      }
      frames := frames + [Chunk(deltas[i], ts)];
      i := i + 1;
    }
    assert deltas[..i] == deltas;
  }

  /**
   * The chunk loop makes the same sends over the deltas the handler takes
   * as over the whole stream: the failed send is among them, and what
   * reaches the client is unchanged.
   */
  lemma TakenSendsAlike(deltas: seq<string>, sendFailsAt: Option<nat>)
    ensures Abandons(Taken(deltas, sendFailsAt), sendFailsAt) == Abandons(deltas, sendFailsAt)
    ensures SentDeltas(Taken(deltas, sendFailsAt), sendFailsAt) == SentDeltas(deltas, sendFailsAt)
    ensures Abandons(deltas, sendFailsAt) ==>
              Taken(deltas, sendFailsAt)[..sendFailsAt.value + 1] == deltas[..sendFailsAt.value + 1]
  {
  }

  /** The handler's state and the two tables, as values. */
  datatype State = State(sessionId: Option<string>, lastPing: int, sent: seq<OutFrame>, status: Status,
                         prompts: seq<string>, convs: seq<Conversation>, msgs: seq<MessageRow>)

  /**
   * The first half of a chat turn: the conversation is made to exist, the
   * user message is stored, and `start` names the conversation and the
   * stored message's id.
   */
  function StartAfter(text: string, given: Option<string>, env: TurnEnv, s: State): State
  {
    var sid := SessionIdFor(given, env.freshSessionId);
    State(Some(sid), s.lastPing, s.sent + [Start(sid, env.userMsgId, env.now)], s.status, s.prompts,
          WithConversation(s.convs, sid, env.now),
          s.msgs + [StoredRow(s.msgs, sid, MakeUserMsg(text, env.userMsgId, env.now))])
  }

  /**
   * The second half: the agent is prompted with the last user turn of the
   * stored history; the turn's frames are sent; the assistant reply is
   * stored exactly when the turn is done; a stream error ends the handler.
   */
  function ReplyAfter(sid: string, env: TurnEnv, s: State): State
  {
    var result := Bridge(None, env.backend);
    var end := TurnEndOf(result, env.sendFailsAt);
    State(s.sessionId, s.lastPing, s.sent + TurnFrames(env, result),
          if end.TurnRaised? then Crashed(StreamError(end.error)) else s.status,
          s.prompts + [LastUserContent(HistoryOf(s.msgs, sid, HistoryLimit))],
          if end == TurnDone then WithConversation(s.convs, sid, env.doneAt) else s.convs,
          s.msgs + (if end == TurnDone then [StoredRow(s.msgs, sid, AssistantReply(env, result.deltas))] else []))
  }

  /** A turn whose stream raises after every chunk was sent ends the handler without storing anything. */
  lemma RaisedReply(sid: string, env: TurnEnv, s: State)
    requires var result := Bridge(None, env.backend);
             !Abandons(result.deltas, env.sendFailsAt) && result.outcome.Raised?
    ensures var result := Bridge(None, env.backend);
            ReplyAfter(sid, env, s)
            == s.(sent := s.sent + ChunkFrames(SentDeltas(result.deltas, env.sendFailsAt), env.now),
                  status := Crashed(StreamError(result.outcome.error)),
                  prompts := s.prompts + [LastUserContent(HistoryOf(s.msgs, sid, HistoryLimit))])
  {
    var result := Bridge(None, env.backend);
    assert TurnEndOf(result, env.sendFailsAt) == TurnRaised(result.outcome.error);
    assert TurnFrames(env, result) == ChunkFrames(SentDeltas(result.deltas, env.sendFailsAt), env.now) + [];
  }

  /** A turn that is done stores the reply and sends `done` after the chunks. */
  lemma DoneReply(sid: string, env: TurnEnv, s: State)
    requires var result := Bridge(None, env.backend);
             !Abandons(result.deltas, env.sendFailsAt) && result.outcome == Finished
    ensures var result := Bridge(None, env.backend);
            var reply := AssistantReply(env, result.deltas);
            ReplyAfter(sid, env, s)
            == s.(sent := s.sent + ChunkFrames(SentDeltas(result.deltas, env.sendFailsAt), env.now)
                          + [Done(reply, 0, |result.deltas|, env.doneAt)],
                  prompts := s.prompts + [LastUserContent(HistoryOf(s.msgs, sid, HistoryLimit))],
                  convs := WithConversation(s.convs, sid, env.doneAt),
                  msgs := s.msgs + [StoredRow(s.msgs, sid, reply)])
  {
  }

  /** A turn whose client went away sends the chunks up to the failed one and stores nothing. */
  lemma DisconnectedReply(sid: string, env: TurnEnv, s: State)
    requires Abandons(Bridge(None, env.backend).deltas, env.sendFailsAt)
    ensures var result := Bridge(None, env.backend);
            ReplyAfter(sid, env, s)
            == s.(sent := s.sent + ChunkFrames(SentDeltas(result.deltas, env.sendFailsAt), env.now),
                  prompts := s.prompts + [LastUserContent(HistoryOf(s.msgs, sid, HistoryLimit))])
  {
    var result := Bridge(None, env.backend);
    assert TurnEndOf(result, env.sendFailsAt) == TurnDisconnected;
    assert TurnFrames(env, result) == ChunkFrames(SentDeltas(result.deltas, env.sendFailsAt), env.now) + [];
  }

  /** A whole chat turn. */
  function TurnAfter(text: string, given: Option<string>, env: TurnEnv, s: State): State
  {
    ReplyAfter(SessionIdFor(given, env.freshSessionId), env, StartAfter(text, given, env, s))
  }

  /**
   * A turn keeps the tables valid and only appends to the message table: the
   * user message, then the assistant reply (the concatenated deltas) exactly
   * when the turn is done. The turn's conversation exists afterwards.
   */
  lemma TurnStoresItsMessages(text: string, given: Option<string>, env: TurnEnv, s: State)
    requires TablesValid(s.convs, s.msgs)
    ensures var t := TurnAfter(text, given, env, s);
            var sid := SessionIdFor(given, env.freshSessionId);
            var result := Bridge(None, env.backend);
            var done := TurnEndOf(result, env.sendFailsAt) == TurnDone;
            && TablesValid(t.convs, t.msgs)
            && HasConversation(t.convs, sid)
            && |t.msgs| == |s.msgs| + (if done then 2 else 1)
            && t.msgs[..|s.msgs|] == s.msgs
            && t.msgs[|s.msgs|].conversationId == sid
            && t.msgs[|s.msgs|].role == "user" && t.msgs[|s.msgs|].content == text
            && (done ==> && t.msgs[|s.msgs| + 1].conversationId == sid
                         && t.msgs[|s.msgs| + 1].role == "assistant"
                         && t.msgs[|s.msgs| + 1].content == Join(result.deltas))
  {
    var sid := SessionIdFor(given, env.freshSessionId);
    var user := MakeUserMsg(text, env.userMsgId, env.now);
    var s1 := StartAfter(text, given, env, s);
    AppendKeepsTablesValid(s.convs, s.msgs, sid, user, env.now);
    WithConversationFacts(s.convs, sid, env.now, env.doneAt);
    var row := StoredRow(s.msgs, sid, user);
    var t := ReplyAfter(sid, env, s1);
    var result := Bridge(None, env.backend);
    if TurnEndOf(result, env.sendFailsAt) == TurnDone {
      var reply := AssistantReply(env, result.deltas);
      AppendKeepsTablesValid(s1.convs, s1.msgs, sid, reply, env.doneAt);
      WithConversationFacts(s1.convs, sid, env.doneAt, env.doneAt);
      assert t.msgs == (s.msgs + [row]) + [StoredRow(s1.msgs, sid, reply)];
      PrefixOfAppended(s.msgs, [row, StoredRow(s1.msgs, sid, reply)]);
    } else {
      assert t.msgs == s.msgs + [row];
      PrefixOfAppended(s.msgs, [row]);
    }
  }

  /**
   * While the conversation holds fewer than 500 messages and the clock has
   * not gone back, the agent is prompted with the text just sent; from 500
   * on, with whatever the first 500 messages held.
   */
  lemma TurnPrompt(text: string, given: Option<string>, env: TurnEnv, s: State)
    requires TablesValid(s.convs, s.msgs)
    requires var sid := SessionIdFor(given, env.freshSessionId);
             forall x :: x in s.msgs && x.conversationId == sid ==> x.createdAt <= ToUtc(env.now)
    ensures var t := TurnAfter(text, given, env, s);
            var sid := SessionIdFor(given, env.freshSessionId);
            && |t.prompts| == |s.prompts| + 1
            && (|Matching(s.msgs, sid, None)| < HistoryLimit ==> t.prompts[|s.prompts|] == text)
            && (|Matching(s.msgs, sid, None)| >= HistoryLimit ==>
                  t.prompts[|s.prompts|] == LastUserContent(HistoryOf(s.msgs, sid, HistoryLimit)))
  {
    var sid := SessionIdFor(given, env.freshSessionId);
    var user := MakeUserMsg(text, env.userMsgId, env.now);
    if |Matching(s.msgs, sid, None)| < HistoryLimit {
      PromptIsNewTurn(s.convs, s.msgs, sid, user, env.now);
    } else {
      PromptAtHistoryLimit(s.convs, s.msgs, sid, user, env.now);
    }
  }

  class Connection {
    const store: DBStore
    const engine: Engine
    /** The variable `session_id`: the conversation of the last turn. */
    var sessionId: Option<string>
    var lastPing: int
    /** Whether the cancel event is set. */
    var cancel: bool
    /** Every frame sent so far, in order. */
    var sent: seq<OutFrame>
    var status: Status
    /** The prompt each turn handed to the agent. */
    ghost var prompts: seq<string>

    ghost function Snapshot(): State
      reads this, store
    {
      State(sessionId, lastPing, sent, status, prompts, store.conversations, store.messages)
    }

    /** Between frames the store is consistent and the cancel event is clear. */
    ghost predicate Valid()
      reads this, store
    {
      store.Valid() && !cancel
    }

    /** `accept`, then the `ready` frame. */
    constructor Accept(store: DBStore, engine: Engine, now: int)
      requires store.Valid()
      ensures Valid()
      ensures this.store == store && this.engine == engine
      ensures sessionId == None && lastPing == now && sent == [Ready(now)] && status == Open && prompts == []
    {
      this.store := store;
      this.engine := engine;
      sessionId := None;
      lastPing := now;
      cancel := false;
      sent := [Ready(now)];
      status := Open;
      prompts := [];
    }

    /** One pass of the heartbeat task's loop, while the handler runs. */
    method HeartbeatTick(now: int)
      modifies this
      ensures sent == old(sent) + (if status == Open && HeartbeatDue(lastPing, now) then [Heartbeat(now)] else [])
      ensures sessionId == old(sessionId) && lastPing == old(lastPing) && cancel == old(cancel)
      ensures status == old(status) && prompts == old(prompts)
    {
      if status == Open && HeartbeatDue(lastPing, now) {
        sent := sent + [Heartbeat(now)];
      }
    }

    /** One pass of the receive loop. */
    method Receive(m: Inbound, env: TurnEnv)
      requires Valid() && status == Open
      modifies this, store, engine
      ensures Valid()
      ensures Dispatch(m) == Close ==> status == Closed && sent == old(sent)
      ensures Dispatch(m) == Crash ==> status == Crashed(NotAnObject) && sent == old(sent)
      ensures Dispatch(m).Reply? ==> status == Open && sent == old(sent) + [ErrorFrame(Dispatch(m).error)]
      ensures Dispatch(m) == PingAction ==> status == Open && sent == old(sent) + [Pong(env.now)] && lastPing == env.now
      ensures Dispatch(m) == CancelAction ==> status == Open && sent == old(sent) + [CancelledFrame]
      ensures !Dispatch(m).Chat? ==> && store.conversations == old(store.conversations)
                                     && store.messages == old(store.messages)
                                     && sessionId == old(sessionId) && prompts == old(prompts)
                                     && (Dispatch(m) != PingAction ==> lastPing == old(lastPing))
      ensures Dispatch(m).Chat? ==> Snapshot() == TurnAfter(Dispatch(m).text, Dispatch(m).sessionId, env, old(Snapshot()))
      ensures engine.builds == old(engine.builds)
                               + (if Dispatch(m).Chat? && Rebuilds(None, env.backend, env.sendFailsAt) then 1 else 0)
      ensures engine.model == if Dispatch(m).Chat? && Rebuilds(None, env.backend, env.sendFailsAt)
                              then BuildModel(engine.providerEnv, engine.modelEnv, engine.regionEnv)
                              else old(engine.model)
    {
      match Dispatch(m)
      case Close =>
        status := Closed;
      case Crash =>
        status := Crashed(NotAnObject);
      case Reply(e) =>
        sent := sent + [ErrorFrame(e)];
      case PingAction =>
        lastPing := env.now;
        sent := sent + [Pong(env.now)];
      case CancelAction =>
        cancel := true;
        sent := sent + [CancelledFrame];
        cancel := false;
      case Chat(text, sid) =>
        HandleMessage(text, sid, env);
    }

    /** The `message` branch of the receive loop. */
    method HandleMessage(text: string, given: Option<string>, env: TurnEnv)
      requires Valid() && status == Open
      modifies this, store, engine
      ensures Valid()
      ensures Snapshot() == TurnAfter(text, given, env, old(Snapshot()))
      ensures engine.builds == old(engine.builds) + (if Rebuilds(None, env.backend, env.sendFailsAt) then 1 else 0)
      ensures engine.model == if Rebuilds(None, env.backend, env.sendFailsAt)
                              then BuildModel(engine.providerEnv, engine.modelEnv, engine.regionEnv)
                              else old(engine.model)
    {
      var sid := StartTurn(text, given, env);
      StreamReply(sid, env);
    }

    /** Up to and including the `start` frame. */
    method StartTurn(text: string, given: Option<string>, env: TurnEnv) returns (sid: string)
      requires Valid() && status == Open
      modifies this, store
      ensures Valid() && status == Open
      ensures sid == SessionIdFor(given, env.freshSessionId)
      ensures Snapshot() == StartAfter(text, given, env, old(Snapshot()))
    {
      ghost var convs0 := store.conversations;
      sid := store.GetOrCreate(given, env.freshSessionId, env.now);
      sessionId := Some(sid);
      var user := MakeUserMsg(text, env.userMsgId, env.now);
      store.Append(sid, user, env.now);
      WithConversationFacts(convs0, sid, env.now, env.now);
      sent := sent + [Start(sid, user.id, env.now)];
    }

    /** From the history lookup to the end of the turn. */
    method StreamReply(sid: string, env: TurnEnv)
      requires Valid() && status == Open
      modifies this, store, engine
      ensures Valid()
      ensures Snapshot() == ReplyAfter(sid, env, old(Snapshot()))
      ensures engine.builds == old(engine.builds) + (if Rebuilds(None, env.backend, env.sendFailsAt) then 1 else 0)
      ensures engine.model == if Rebuilds(None, env.backend, env.sendFailsAt)
                              then BuildModel(engine.providerEnv, engine.modelEnv, engine.regionEnv)
                              else old(engine.model)
    {
      ghost var s0 := Snapshot();
      var deltas, outcome := AskAgent(sid, env);
      Deliver(sid, env, deltas, outcome, s0);
    }

    /**
     * The agent gets the stored history and streams until the chunk loop
     * stops pulling. The cancel event is clear whenever a turn starts
     * (Valid), and nothing sets it while the stream runs, so the bridge never
     * sees it set.
     */
    method AskAgent(sid: string, env: TurnEnv) returns (deltas: seq<string>, outcome: Option<Outcome>)
      requires Valid() && status == Open
      modifies this, engine
      ensures Valid() && status == Open
      ensures var result := Bridge(None, env.backend);
              && deltas == Taken(result.deltas, env.sendFailsAt)
              && outcome == (if Abandons(result.deltas, env.sendFailsAt) then None else Some(result.outcome))
              && result.outcome != Cancelled
      ensures engine.builds == old(engine.builds) + (if Rebuilds(None, env.backend, env.sendFailsAt) then 1 else 0)
      ensures engine.model == if Rebuilds(None, env.backend, env.sendFailsAt)
                              then BuildModel(engine.providerEnv, engine.modelEnv, engine.regionEnv)
                              else old(engine.model)
      ensures Snapshot() == old(Snapshot()).(prompts := old(prompts) + [LastUserContent(HistoryOf(store.messages, sid, HistoryLimit))])
    {
      var hist := store.History(sid, HistoryLimit);
      var prompt;
      prompt, deltas, outcome := engine.GenerateStream(hist, None, env.backend, env.sendFailsAt);
      prompts := prompts + [prompt];
      NoCancelPointNoCancel(env.backend);
    }

    /** The chunk loop and what follows it. */
    method Deliver(sid: string, env: TurnEnv, deltas: seq<string>, outcome: Option<Outcome>, ghost s0: State)
      requires Valid() && status == Open && status == s0.status
      requires var result := Bridge(None, env.backend);
               && deltas == Taken(result.deltas, env.sendFailsAt)
               && outcome == (if Abandons(result.deltas, env.sendFailsAt) then None else Some(result.outcome))
               && result.outcome != Cancelled
      requires Snapshot() == s0.(prompts := s0.prompts + [LastUserContent(HistoryOf(s0.msgs, sid, HistoryLimit))])
      modifies this, store
      ensures Valid()
      ensures Snapshot() == ReplyAfter(sid, env, s0)
    {
      var frames, chunks, disconnected := ForwardChunks(deltas, env.sendFailsAt, env.now);
      TakenSendsAlike(Bridge(None, env.backend).deltas, env.sendFailsAt);
      sent := sent + frames;
      if disconnected {
        cancel := true;
      } else if outcome.value.Raised? {
        status := Crashed(StreamError(outcome.value.error));
        RaisedReply(sid, env, s0);
        return;
      }
      Finish(sid, env, chunks, s0);
    }

    /** After the chunk loop of a turn that did not raise: `done`, or the cancel event renewed. */
    method Finish(sid: string, env: TurnEnv, chunks: seq<string>, ghost s0: State)
      requires var result := Bridge(None, env.backend);
               && result.outcome != Cancelled
               && (Abandons(result.deltas, env.sendFailsAt) || result.outcome == Finished)
               && cancel == Abandons(result.deltas, env.sendFailsAt)
               && (!cancel ==> chunks == result.deltas)
               && Snapshot() == s0.(sent := s0.sent + ChunkFrames(SentDeltas(result.deltas, env.sendFailsAt), env.now),
                                    prompts := s0.prompts + [LastUserContent(HistoryOf(s0.msgs, sid, HistoryLimit))])
      requires store.Valid() && status == s0.status
      modifies this, store
      ensures Valid()
      ensures Snapshot() == ReplyAfter(sid, env, s0)
    {
      if !cancel {
        var assistant := MakeAssistantMsg(Join(chunks), env.assistantMsgId, env.doneAt);
        store.Append(sid, assistant, env.doneAt);
        sent := sent + [Done(assistant, 0, |chunks|, env.doneAt)];
        DoneReply(sid, env, s0);
      } else {
        cancel := false;
        DisconnectedReply(sid, env, s0);
      }
    }
  }
}
