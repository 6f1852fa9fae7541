/**
 * The persistence layer (`DBStore`, server/db.py) as a class over the two
 * tables. Conversations are keyed by their string id; messages are
 * append-only and carry the auto-increment id SQLite gives them (one more
 * than the number of rows already stored, nothing being deleted).
 * Fresh uuids and the wall clock (`utcnow()`) are parameters.
 */
module Store {
  import opened Common
  import opened Sorting
  import opened History

  /** `db.get(Conversation, id)` finds a row. */
  predicate HasConversation(convs: seq<Conversation>, id: string)
  {
    exists i :: 0 <= i < |convs| && convs[i].id == id
  }

  /** The primary key of `conversations` is unique. */
  ghost predicate DistinctConversationIds(convs: seq<Conversation>)
  {
    forall i, j :: 0 <= i < j < |convs| ==> convs[i].id != convs[j].id
  }

  /** No two rows of a message sequence share an id. */
  ghost predicate DistinctMessageIds(msgs: seq<MessageRow>)
  {
    forall i, j :: 0 <= i < j < |msgs| ==> msgs[i].id != msgs[j].id
  }

  /**
   * What the two tables always satisfy: unique conversation keys,
   * auto-increment message ids, the foreign key, and `created_at` derived
   * from `timestamp`.
   */
  ghost predicate TablesValid(convs: seq<Conversation>, msgs: seq<MessageRow>)
  {
    && DistinctConversationIds(convs)
    && (forall i :: 0 <= i < |msgs| ==> msgs[i].id == i + 1)
    && (forall i :: 0 <= i < |msgs| ==> HasConversation(convs, msgs[i].conversationId))
    && (forall i :: 0 <= i < |msgs| ==> msgs[i].createdAt == ToUtc(msgs[i].timestamp))
  }

  /** The conversation table once `sid` is made to exist (created untitled at `now` if absent). */
  function WithConversation(convs: seq<Conversation>, sid: string, now: int): seq<Conversation>
  {
    if HasConversation(convs, sid) then convs else convs + [Conversation(sid, None, now)]
  }

  /** `session_id or str(uuid.uuid4())`. */
  function SessionIdFor(sessionId: Option<string>, freshId: string): string
  {
    if sessionId.Some? && sessionId.value != "" then sessionId.value else freshId
  }

  /** The row `append` stores for `msg`: the next id, the fields copied, `created_at` derived. */
  function StoredRow(msgs: seq<MessageRow>, sid: string, msg: ChatMessage): MessageRow
  {
    MessageRow(|msgs| + 1, sid, msg.role, msg.content, msg.timestamp, ToUtc(msg.timestamp))
  }

  /**
   * Making a conversation exist: afterwards it exists, no other conversation
   * appears or disappears, an existing one leaves the table untouched, and
   * doing it again changes nothing.
   */
  lemma WithConversationFacts(convs: seq<Conversation>, sid: string, now: int, now2: int)
    ensures var r := WithConversation(convs, sid, now);
            && HasConversation(r, sid)
            && (forall id :: HasConversation(r, id) <==> HasConversation(convs, id) || id == sid)
            && (HasConversation(convs, sid) ==> r == convs)
            && convs <= r && |r| <= |convs| + 1
            && WithConversation(r, sid, now2) == r
            && (DistinctConversationIds(convs) ==> DistinctConversationIds(r))
  {
    var r := WithConversation(convs, sid, now);
    if !HasConversation(convs, sid) {
      assert r[|convs|].id == sid;
      forall id | HasConversation(r, id)
        ensures HasConversation(convs, id) || id == sid
      {
        var i :| 0 <= i < |r| && r[i].id == id;
        if i < |convs| {
          assert convs[i] == r[i];
        }
      }
      forall id | HasConversation(convs, id)
        ensures HasConversation(r, id)
      {
        var i :| 0 <= i < |convs| && convs[i].id == id;
        assert r[i] == convs[i];
      }
    }
  }

  /**
   * Appending a message keeps the tables valid, adds exactly the stored row,
   * and gives it an id larger than every id already in the table.
   */
  lemma AppendKeepsTablesValid(convs: seq<Conversation>, msgs: seq<MessageRow>, sid: string, msg: ChatMessage, now: int)
    requires TablesValid(convs, msgs)
    ensures TablesValid(WithConversation(convs, sid, now), msgs + [StoredRow(msgs, sid, msg)])
    ensures forall r :: r in msgs ==> r.id < StoredRow(msgs, sid, msg).id
  {
    var convs' := WithConversation(convs, sid, now);
    var msgs' := msgs + [StoredRow(msgs, sid, msg)];
    WithConversationFacts(convs, sid, now, now);
    forall i | 0 <= i < |msgs'|
      ensures msgs'[i].id == i + 1
      ensures HasConversation(convs', msgs'[i].conversationId)
      ensures msgs'[i].createdAt == ToUtc(msgs'[i].timestamp)
    {
      if i < |msgs| {
        assert msgs'[i] == msgs[i];
      }
    }
  }

  /** Valid tables have positive, increasing message ids, so no row repeats. */
  lemma TablesValidIds(convs: seq<Conversation>, msgs: seq<MessageRow>)
    requires TablesValid(convs, msgs)
    ensures PositiveIds(msgs) && IncreasingIds(msgs) && DistinctMessageIds(msgs)
  {
  }

  /**
   * Appending the newest message of a conversation to the table: `history`
   * gains that message at its end while the conversation holds fewer than
   * `limit` messages (or `limit` is negative); once it holds `limit` or more,
   * `history` does not change at all, because it keeps the oldest rows.
   */
  lemma {:induction false} HistoryAfterAppend(msgs: seq<MessageRow>, sid: string, row: MessageRow, limit: int)
    requires row.conversationId == sid
    requires DistinctMessageIds(msgs + [row])
    requires forall x :: x in msgs && x.conversationId == sid ==> OlderEq(x, row)
    ensures HistoryRows(msgs + [row], sid, limit)
            == if 0 <= limit <= |Matching(msgs, sid, None)| then HistoryRows(msgs, sid, limit)
               else HistoryRows(msgs, sid, limit) + [row]
  {
    var all := msgs + [row];
    var m := Matching(msgs, sid, None);
    assert all[..|all| - 1] == msgs;
    assert Matching(all, sid, None) == m + [row];
    NewestSortsLast(all, m, row);
    LimitAppend(SortBy(m, OlderEq), row, limit);
  }

  /** Sorting a selection plus a row newer than all of it puts that row last. */
  lemma NewestSortsLast(all: seq<MessageRow>, m: seq<MessageRow>, row: MessageRow)
    requires DistinctMessageIds(all)
    requires forall x :: x in m + [row] ==> x in all
    requires forall x :: x in m ==> OlderEq(x, row)
    ensures SortBy(m + [row], OlderEq) == SortBy(m, OlderEq) + [row]
  {
    var s := SortBy(m, OlderEq);
    MessageOrdersArePreorders();
    SortBySorted(m, OlderEq);
    SortBySorted(m + [row], OlderEq);
    forall y | y in s
      ensures OlderEq(y, row)
    {
      assert y in multiset(m);
    }
    SortedAppend(s, row, OlderEq);
    assert multiset(s + [row]) == multiset(m + [row]);
    forall x, y | x in s + [row] && y in s + [row] && OlderEq(x, y) && OlderEq(y, x)
      ensures x == y
    {
      assert x in multiset(m + [row]) && y in multiset(m + [row]);
      assert x in m + [row] && y in m + [row];
      var i :| 0 <= i < |all| && all[i] == x;
      var j :| 0 <= j < |all| && all[j] == y;
      assert i == j;
    }
    SortedUnique(s + [row], SortBy(m + [row], OlderEq), OlderEq);
  }

  /** The error `create_conversation` surfaces when the fresh id is already taken. */
  datatype StoreError = DuplicateConversation(id: string)

  class DBStore {
    var conversations: seq<Conversation>
    var messages: seq<MessageRow>

    ghost predicate Valid()
      reads this
    {
      TablesValid(conversations, messages)
    }

    /** Empty tables, as `init_db` creates them. */
    constructor ()
      ensures Valid() && conversations == [] && messages == []
    {
      conversations := [];
      messages := [];
    }

    /**
     * `get_or_create`: the given id when it is present and non-empty,
     * otherwise the fresh one; that conversation exists afterwards.
     */
    method GetOrCreate(sessionId: Option<string>, freshId: string, now: int) returns (sid: string)
      requires Valid()
      modifies this
      ensures Valid()
      ensures sessionId.Some? && sessionId.value != "" ==> sid == sessionId.value
      ensures sessionId.None? || sessionId.value == "" ==> sid == freshId
      ensures sid == SessionIdFor(sessionId, freshId)
      ensures conversations == WithConversation(old(conversations), sid, now)
      ensures messages == old(messages)
    {
      sid := SessionIdFor(sessionId, freshId);
      WithConversationFacts(conversations, sid, now, now);
      if !HasConversation(conversations, sid) {
        conversations := conversations + [Conversation(sid, None, now)];
      }
    }

    /** `append`: make the conversation exist, then store exactly one row. */
    method Append(sid: string, msg: ChatMessage, now: int)
      requires Valid()
      modifies this
      ensures Valid()
      ensures conversations == WithConversation(old(conversations), sid, now)
      ensures messages == old(messages) + [StoredRow(old(messages), sid, msg)]
      ensures forall r :: r in old(messages) ==> r.id < StoredRow(old(messages), sid, msg).id
    {
      AppendKeepsTablesValid(conversations, messages, sid, msg, now);
      if !HasConversation(conversations, sid) {
        conversations := conversations + [Conversation(sid, None, now)];
      }
      var row := MessageRow(|messages| + 1, sid, msg.role, msg.content, msg.timestamp, ToUtc(msg.timestamp));
      messages := messages + [row];
    }

    /** `history(sid, limit)`. */
    function History(sid: string, limit: int): seq<ChatMessage>
      reads this
    {
      HistoryOf(messages, sid, limit)
    }

    /**
     * `history_grouped_by_day`: the page's rows bucketed by UTC day in page
     * order, and the id of the page's last row as the next cursor.
     */
    method HistoryGroupedByDay(sid: string, beforeId: Option<int>, pageSize: int)
      returns (groups: map<int, seq<MessageRow>>, nextCursor: Option<int>)
      ensures groups == GroupsOf(Page(messages, sid, beforeId, pageSize))
      ensures nextCursor == NextCursor(Page(messages, sid, beforeId, pageSize))
    {
      var rows := Page(messages, sid, beforeId, pageSize);
      groups := map[];
      var i := 0;
      while i < |rows|
        invariant 0 <= i <= |rows|
        invariant groups == GroupsOf(rows[..i])
      {
        var r := rows[i];
        assert rows[..i + 1] == rows[..i] + [r];
        GroupsStep(rows[..i], r);
        var day := Day(r.createdAt);
        var bucket := if day in groups then groups[day] else [];
        groups := groups[day := bucket + [r]];
        i := i + 1;
      }
      assert rows[..i] == rows;
      nextCursor := if rows == [] then None else Some(rows[|rows| - 1].id);
    }

    /**
     * `create_conversation`: store a titled conversation under the fresh id
     * and return its metadata; a fresh id that is already taken violates the
     * primary key and the commit fails with nothing stored.
     */
    method CreateConversation(title: Option<string>, freshId: string, now: int)
      returns (r: Result<Conversation, StoreError>)
      requires Valid()
      modifies this
      ensures Valid()
      ensures r.Success? <==> !HasConversation(old(conversations), freshId)
      ensures r.Success? ==> r.value == Conversation(freshId, title, now)
                             && conversations == old(conversations) + [r.value]
      ensures r.Failure? ==> r.error == DuplicateConversation(freshId) && conversations == old(conversations)
      ensures messages == old(messages)
    {
      if HasConversation(conversations, freshId) {
        r := Failure(DuplicateConversation(freshId));
      } else {
        var conv := Conversation(freshId, title, now);
        WithConversationFacts(conversations, freshId, now, now);
        assert WithConversation(conversations, freshId, now) == conversations + [Conversation(freshId, None, now)];
        ghost var before := conversations;
        conversations := conversations + [conv];
        forall i | 0 <= i < |messages|
          ensures HasConversation(conversations, messages[i].conversationId)
        {
          assert HasConversation(before, messages[i].conversationId);
          var k :| 0 <= k < |before| && before[k].id == messages[i].conversationId;
          assert conversations[k] == before[k];
        }
        assert conversations[|before|].id == freshId;
        r := Success(conv);
      }
    }

    /**
     * `list_conversations`: one entry per ranked conversation, in rank
     * order, the snippet looked up only for conversations with messages.
     */
    method ListConversations(limit: int) returns (items: seq<ConversationItem>)
      ensures items == Listing(conversations, messages, limit)
    {
      var rows := Ranked(conversations, messages, limit);
      ghost var all := Listing(conversations, messages, limit);
      items := [];
      var i := 0;
      while i < |rows|
        invariant 0 <= i <= |rows| == |all|
        invariant items == all[..i]
      {
        var s := rows[i];
        var snippet: Option<string> := None;
        if s.lastAt.Some? {
          var last := NewestRow(messages, s.conv.id);
          if last.Some? {
            snippet := Some(Limit(last.value.content, SnippetLength));
          }
        }
        var item := ConversationItem(s.conv.id, s.conv.title, s.conv.createdAt, s.lastAt, snippet);
        assert item == all[i];
        PrefixStep(all, i);
        items := items + [item];
        i := i + 1;
      }
    }
  }
}
