/**
 * The queries of the history store (server/db.py) as pure functions over the
 * two tables: `conversations` and `messages`, each in insertion order.
 * Every SQL query is a filter (WHERE), a stable sort (ORDER BY) and a prefix
 * (LIMIT) over the message table.
 */
module History {
  import opened Common
  import opened Sorting

  datatype Conversation = Conversation(id: string, title: Option<string>, createdAt: int)

  /** One row of the message table; `id` is the auto-increment primary key. */
  datatype MessageRow = MessageRow(
    id: int,
    conversationId: string,
    role: string,
    content: string,
    timestamp: int,
    createdAt: int)

  /** The API shape of a message (`ChatMessage`), whose id is a string. */
  datatype ChatMessage = ChatMessage(id: string, role: string, content: string, timestamp: int)

  const SecondsPerDay: int := 86400

  /**
   * `datetime.fromtimestamp(ts, tz=timezone.utc)`: with whole-second
   * timestamps the UTC instant is the timestamp itself.
   */
  function ToUtc(timestamp: int): int
  {
    timestamp
  }

  /** The UTC calendar day of an instant, as a day number since the epoch. */
  function Day(createdAt: int): int
  {
    createdAt / SecondsPerDay
  }

  /** `ORDER BY created_at ASC, id ASC`. */
  predicate OlderEq(a: MessageRow, b: MessageRow)
  {
    a.createdAt < b.createdAt || (a.createdAt == b.createdAt && a.id <= b.id)
  }

  /** `ORDER BY created_at DESC, id DESC`. */
  predicate NewerEq(a: MessageRow, b: MessageRow)
  {
    OlderEq(b, a)
  }

  lemma MessageOrdersArePreorders()
    ensures TotalPreorder(OlderEq) && TotalPreorder(NewerEq)
  {
  }

  // ---------- WHERE clauses ----------

  /** `conversation_id == sid`, then `id < before_id` when `before_id` is truthy. */
  predicate Selected(r: MessageRow, sid: string, beforeId: Option<int>)
  {
    r.conversationId == sid && (beforeId.None? || beforeId.value == 0 || r.id < beforeId.value)
  }

  /** The rows a query filtered by `Selected` sees, in table order. */
  function Matching(msgs: seq<MessageRow>, sid: string, beforeId: Option<int>): (r: seq<MessageRow>)
    ensures |r| <= |msgs|
    ensures forall x :: x in r <==> x in msgs && Selected(x, sid, beforeId)
  {
    if msgs == [] then []
    else
      var init, last := msgs[..|msgs| - 1], msgs[|msgs| - 1];
      assert msgs == init + [last];
      Matching(init, sid, beforeId) + (if Selected(last, sid, beforeId) then [last] else [])
  }

  /** The filter keeps each selected row as often as the table holds it, and no other. */
  lemma {:induction false} MatchingCount(msgs: seq<MessageRow>, sid: string, beforeId: Option<int>)
    ensures forall x :: multiset(Matching(msgs, sid, beforeId))[x]
                        == if Selected(x, sid, beforeId) then multiset(msgs)[x] else 0
  {
    if msgs != [] {
      var init, last := msgs[..|msgs| - 1], msgs[|msgs| - 1];
      assert msgs == init + [last];
      MatchingCount(init, sid, beforeId);
    }
  }

  // ---------- history(): chronological read ----------

  /** The rows `history(sid, limit)` reads: ascending, first `limit` of them. */
  function HistoryRows(msgs: seq<MessageRow>, sid: string, limit: int): seq<MessageRow>
  {
    Limit(SortBy(Matching(msgs, sid, None), OlderEq), limit)
  }

  function ToChatMessage(r: MessageRow): ChatMessage
  {
    ChatMessage(IntToString(r.id), r.role, r.content, r.timestamp)
  }

  /** `history(sid, limit)`: the rows above as `ChatMessage`s, id rendered with `str`. */
  function HistoryOf(msgs: seq<MessageRow>, sid: string, limit: int): (h: seq<ChatMessage>)
    ensures |h| == |HistoryRows(msgs, sid, limit)|
    ensures forall i :: 0 <= i < |h| ==> h[i] == ToChatMessage(HistoryRows(msgs, sid, limit)[i])
  {
    var rows := HistoryRows(msgs, sid, limit);
    seq(|rows|, i requires 0 <= i < |rows| => ToChatMessage(rows[i]))
  }

  /**
   * `history` returns only the conversation's rows, oldest first, at most
   * `limit` of them, and as written keeps the OLDEST ones: every row of the
   * conversation it leaves out is newer than every row it returns.
   */
  lemma HistoryWindow(msgs: seq<MessageRow>, sid: string, limit: int)
    ensures var rows := HistoryRows(msgs, sid, limit);
            var all := Matching(msgs, sid, None);
            && (forall r :: r in rows ==> r in msgs && r.conversationId == sid)
            && Sorted(rows, OlderEq)
            && |rows| == (if 0 <= limit < |all| then limit else |all|)
            && multiset(rows) <= multiset(all)
            && (forall x, y :: x in all && x !in rows && y in rows ==> OlderEq(y, x))
  {
    MessageOrdersArePreorders();
    SortedWindow(Matching(msgs, sid, None), OlderEq, limit);
  }

  // ---------- history_grouped_by_day(): newest-first pages ----------

  /** The rows of one page: `Selected`, newest first, at most `pageSize`. */
  function Page(msgs: seq<MessageRow>, sid: string, beforeId: Option<int>, pageSize: int): seq<MessageRow>
  {
    Limit(SortBy(Matching(msgs, sid, beforeId), NewerEq), pageSize)
  }

  /** `rows[-1].id if rows else None`. */
  function NextCursor(page: seq<MessageRow>): (c: Option<int>)
    ensures c.None? <==> page == []
  {
    if page == [] then None else Some(page[|page| - 1].id)
  }

  /**
   * A page holds only rows of the conversation, below the cursor when the
   * cursor is truthy, newest first, at most `pageSize` of them, and they are
   * the newest such rows: every selected row left out is older than every
   * row on the page. Its last row, whose id is the next cursor, is its oldest.
   */
  lemma PageWindow(msgs: seq<MessageRow>, sid: string, beforeId: Option<int>, pageSize: int)
    ensures var page := Page(msgs, sid, beforeId, pageSize);
            var all := Matching(msgs, sid, beforeId);
            && (forall r :: r in page ==> r in msgs && r.conversationId == sid)
            && (beforeId.Some? && beforeId.value != 0 ==> forall r :: r in page ==> r.id < beforeId.value)
            && Sorted(page, NewerEq)
            && |page| == (if 0 <= pageSize < |all| then pageSize else |all|)
            && multiset(page) <= multiset(all)
            && (forall x, y :: x in all && x !in page && y in page ==> NewerEq(y, x))
            && (page != [] ==> forall r :: r in page ==> NewerEq(r, page[|page| - 1]))
  {
    var all := Matching(msgs, sid, beforeId);
    var page := Page(msgs, sid, beforeId, pageSize);
    NewestFirstWindow(all, pageSize);
    forall r | r in page
      ensures r in msgs && Selected(r, sid, beforeId)
    {
      assert r in all;
    }
  }

  /** A newest-first window. */
  lemma NewestFirstWindow(all: seq<MessageRow>, n: int)
    ensures IsWindow(all, NewerEq, n, Limit(SortBy(all, NewerEq), n))
  {
    MessageOrdersArePreorders();
    SortedWindow(all, NewerEq, n);
  }

  ghost predicate PositiveIds(msgs: seq<MessageRow>)
  {
    forall i :: 0 <= i < |msgs| ==> msgs[i].id >= 1
  }

  /** Ids grow with table order (an auto-increment key). */
  ghost predicate IncreasingIds(msgs: seq<MessageRow>)
  {
    forall i, j :: 0 <= i < j < |msgs| ==> msgs[i].id < msgs[j].id
  }

  /** `created_at` never goes backwards in table order. */
  ghost predicate ClockMonotone(msgs: seq<MessageRow>)
  {
    forall i, j :: 0 <= i < j < |msgs| ==> msgs[i].createdAt <= msgs[j].createdAt
  }

  /** Every row on a page is a table row the page's WHERE clause selects. */
  lemma PageRowSelected(msgs: seq<MessageRow>, sid: string, beforeId: Option<int>, pageSize: int, r: MessageRow)
    requires r in Page(msgs, sid, beforeId, pageSize)
    ensures r in msgs && Selected(r, sid, beforeId)
  {
    var d := SortBy(Matching(msgs, sid, beforeId), NewerEq);
    assert Page(msgs, sid, beforeId, pageSize) == d[..|Page(msgs, sid, beforeId, pageSize)|];
    assert r in d;
    assert r in multiset(Matching(msgs, sid, beforeId));
  }

  /**
   * A narrower WHERE clause selects no more rows, and strictly fewer when
   * some table row passes the wider clause only.
   */
  lemma {:induction false} MatchingShrinks(msgs: seq<MessageRow>, sid: string, wide: Option<int>, narrow: Option<int>, w: MessageRow)
    requires forall x :: Selected(x, sid, narrow) ==> Selected(x, sid, wide)
    ensures |Matching(msgs, sid, narrow)| <= |Matching(msgs, sid, wide)|
    ensures w in msgs && Selected(w, sid, wide) && !Selected(w, sid, narrow) ==>
              |Matching(msgs, sid, narrow)| < |Matching(msgs, sid, wide)|
  {
    if msgs != [] {
      var init, last := msgs[..|msgs| - 1], msgs[|msgs| - 1];
      assert msgs == init + [last];
      MatchingShrinks(init, sid, wide, narrow, w);
    }
  }

  /**
   * Feeding a non-empty page's cursor back as `before_id` gives a strictly
   * smaller cursor, and (ids being positive, so the cursor is truthy) strictly
   * fewer selected rows, so following the cursors terminates.
   */
  lemma CursorProgress(msgs: seq<MessageRow>, sid: string, beforeId: Option<int>, pageSize: int)
    requires PositiveIds(msgs)
    requires Page(msgs, sid, beforeId, pageSize) != []
    ensures var next := NextCursor(Page(msgs, sid, beforeId, pageSize)).value;
            && 1 <= next
            && (beforeId.Some? && beforeId.value != 0 ==> next < beforeId.value)
            && |Matching(msgs, sid, Some(next))| < |Matching(msgs, sid, beforeId)|
  {
    var page := Page(msgs, sid, beforeId, pageSize);
    var last := page[|page| - 1];
    PageRowSelected(msgs, sid, beforeId, pageSize, last);
    assert NextCursor(page).value == last.id;
    CursorNarrows(msgs, sid, beforeId, last);
  }

  /** Narrowing a selection to the ids below one of its rows drops at least that row. */
  lemma CursorNarrows(msgs: seq<MessageRow>, sid: string, beforeId: Option<int>, last: MessageRow)
    requires PositiveIds(msgs)
    requires last in msgs && Selected(last, sid, beforeId)
    ensures 1 <= last.id
    ensures beforeId.Some? && beforeId.value != 0 ==> last.id < beforeId.value
    ensures |Matching(msgs, sid, Some(last.id))| < |Matching(msgs, sid, beforeId)|
  {
    var p :| 0 <= p < |msgs| && msgs[p] == last;
    assert 1 <= last.id;
    MatchingShrinks(msgs, sid, beforeId, Some(last.id), last);
  }

  /** The pages a client visits by following `next_cursor` until it is null. */
  ghost function Pages(msgs: seq<MessageRow>, sid: string, beforeId: Option<int>, pageSize: int): seq<MessageRow>
    requires PositiveIds(msgs)
    decreases |Matching(msgs, sid, beforeId)|
  {
    var page := Page(msgs, sid, beforeId, pageSize);
    if page == [] then []
    else
      CursorProgress(msgs, sid, beforeId, pageSize);
      page + Pages(msgs, sid, NextCursor(page), pageSize)
  }

  /** With increasing ids no row occurs twice in the table. */
  lemma {:induction false} IncreasingIdsNoRepeats(msgs: seq<MessageRow>)
    requires IncreasingIds(msgs)
    ensures forall x :: multiset(msgs)[x] <= 1
  {
    if msgs != [] {
      var init, last := msgs[..|msgs| - 1], msgs[|msgs| - 1];
      assert msgs == init + [last];
      assert forall i :: 0 <= i < |init| ==> init[i] == msgs[i];
      assert IncreasingIds(init);
      IncreasingIdsNoRepeats(init);
      assert last !in init;
      assert multiset(init)[last] == 0;
      assert multiset(msgs) == multiset(init) + multiset{last};
    }
  }

  lemma CountTwo<T>(s: seq<T>, i: nat, j: nat)
    requires i < j < |s| && s[i] == s[j]
    ensures multiset(s)[s[i]] >= 2
  {
    assert s == s[..j] + s[j..];
    assert s[..j][i] == s[i];
    assert s[j..][0] == s[j];
  }

  /** Ids strictly decrease along `d`. */
  ghost predicate StrictlyDescendingIds(d: seq<MessageRow>)
  {
    forall i, j :: 0 <= i < j < |d| ==> d[i].id > d[j].id
  }

  /**
   * When ids grow with `created_at`, the newest-first order of any selection
   * of rows is strictly decreasing in id.
   */
  lemma DescendingIds(msgs: seq<MessageRow>, d: seq<MessageRow>)
    requires IncreasingIds(msgs) && ClockMonotone(msgs)
    requires Sorted(d, NewerEq)
    requires forall x :: multiset(d)[x] <= multiset(msgs)[x]
    ensures StrictlyDescendingIds(d)
  {
    IncreasingIdsNoRepeats(msgs);
    forall i, j | 0 <= i < j < |d|
      ensures d[i].id > d[j].id
    {
      assert d[i] in multiset(d) && d[j] in multiset(d);
      assert d[i] in msgs && d[j] in msgs;
      var p :| 0 <= p < |msgs| && msgs[p] == d[i];
      var q :| 0 <= q < |msgs| && msgs[q] == d[j];
      assert NewerEq(d[i], d[j]);
      if p < q {
        assert false;
      } else if p == q {
        CountTwo(d, i, j);
      }
    }
  }

  lemma SuffixSorted(d: seq<MessageRow>, k: nat)
    requires Sorted(d, NewerEq) && k <= |d|
    ensures Sorted(d[k..], NewerEq)
  {
    forall i, j | 0 <= i < j < |d| - k
      ensures NewerEq(d[k..][i], d[k..][j])
    {
      assert d[k..][i] == d[k + i] && d[k..][j] == d[k + j];
    }
  }

  /**
   * Cutting a selection ordered by descending id after position `k`: what
   * follows is the selection narrowed to ids below the `k`-th row's id.
   */
  lemma RestCounts(msgs: seq<MessageRow>, sid: string, beforeId: Option<int>, d: seq<MessageRow>, k: nat)
    requires forall x :: multiset(d)[x] == if Selected(x, sid, beforeId) then multiset(msgs)[x] else 0
    requires StrictlyDescendingIds(d)
    requires 0 < k <= |d|
    requires beforeId.Some? && beforeId.value != 0 ==> d[k - 1].id < beforeId.value
    requires d[k - 1].id != 0
    ensures forall x :: multiset(d[k..])[x] == if Selected(x, sid, Some(d[k - 1].id)) then multiset(msgs)[x] else 0
  {
    var next := d[k - 1].id;
    var front, back := d[..k], d[k..];
    SplitCounts(d, k);
    forall x | x in front
      ensures x.id >= next
    {
      var i :| 0 <= i < k && front[i] == x;
      assert front[i] == d[i];
    }
    forall x | x in back
      ensures x.id < next
    {
      var i :| 0 <= i < |back| && back[i] == x;
      assert back[i] == d[k + i];
    }
    forall x
      ensures multiset(back)[x] == if Selected(x, sid, Some(next)) then multiset(msgs)[x] else 0
    {
      assert multiset(d)[x] == multiset(front)[x] + multiset(back)[x];
      if x.id < next {
        assert x !in front;
      } else {
        assert x !in back;
      }
    }
  }

  /** A newest-first sequence with distinct ids is the newest-first sort of any arrangement of it. */
  lemma SortedByIdIsTheSort(rest: seq<MessageRow>, tail: seq<MessageRow>)
    requires Sorted(tail, NewerEq) && StrictlyDescendingIds(tail)
    requires multiset(rest) == multiset(tail)
    ensures SortBy(rest, NewerEq) == tail
  {
    MessageOrdersArePreorders();
    SortBySorted(rest, NewerEq);
    forall x, y | x in tail && y in tail && NewerEq(x, y) && NewerEq(y, x)
      ensures x == y
    {
      var i :| 0 <= i < |tail| && tail[i] == x;
      var j :| 0 <= j < |tail| && tail[j] == y;
    }
    SortedUnique(tail, SortBy(rest, NewerEq), NewerEq);
  }

  lemma SuffixDescending(d: seq<MessageRow>, k: nat)
    requires StrictlyDescendingIds(d) && k <= |d|
    ensures StrictlyDescendingIds(d[k..])
  {
    forall i, j | 0 <= i < j < |d| - k
      ensures d[k..][i].id > d[k..][j].id
    {
      assert d[k..][i] == d[k + i] && d[k..][j] == d[k + j];
    }
  }

  /**
   * When ids grow with `created_at`, the newest-first order of a selection is
   * strictly descending in id and holds each selected row as often as the table.
   */
  lemma NewestFirstSelection(msgs: seq<MessageRow>, sid: string, beforeId: Option<int>)
    requires IncreasingIds(msgs) && ClockMonotone(msgs)
    ensures var d := SortBy(Matching(msgs, sid, beforeId), NewerEq);
            && Sorted(d, NewerEq)
            && StrictlyDescendingIds(d)
            && forall x :: multiset(d)[x] == if Selected(x, sid, beforeId) then multiset(msgs)[x] else 0
  {
    var all := Matching(msgs, sid, beforeId);
    var d := SortBy(all, NewerEq);
    MatchingCount(msgs, sid, beforeId);
    MessageOrdersArePreorders();
    SortBySorted(all, NewerEq);
    DescendingIds(msgs, d);
  }

  /**
   * Below the last row of a newest-first page lie exactly the rows that
   * follow the page, when ids grow with `created_at`.
   */
  lemma RestAfterPage(msgs: seq<MessageRow>, sid: string, beforeId: Option<int>, k: nat)
    requires PositiveIds(msgs) && IncreasingIds(msgs) && ClockMonotone(msgs)
    requires 0 < k <= |Matching(msgs, sid, beforeId)|
    requires beforeId.Some? && beforeId.value != 0 ==>
               SortBy(Matching(msgs, sid, beforeId), NewerEq)[k - 1].id < beforeId.value
    ensures var d := SortBy(Matching(msgs, sid, beforeId), NewerEq);
            SortBy(Matching(msgs, sid, Some(d[k - 1].id)), NewerEq) == d[k..]
  {
    var all := Matching(msgs, sid, beforeId);
    var d := SortBy(all, NewerEq);
    NewestFirstSelection(msgs, sid, beforeId);
    assert d[k - 1] in multiset(all);
    assert d[k - 1] in all;
    var p :| 0 <= p < |msgs| && msgs[p] == d[k - 1];
    SuffixIsNarrowerSelection(msgs, sid, beforeId, d, k);
  }

  lemma SuffixIsNarrowerSelection(msgs: seq<MessageRow>, sid: string, beforeId: Option<int>, d: seq<MessageRow>, k: nat)
    requires Sorted(d, NewerEq) && StrictlyDescendingIds(d)
    requires forall x :: multiset(d)[x] == if Selected(x, sid, beforeId) then multiset(msgs)[x] else 0
    requires 0 < k <= |d|
    requires beforeId.Some? && beforeId.value != 0 ==> d[k - 1].id < beforeId.value
    requires d[k - 1].id != 0
    ensures SortBy(Matching(msgs, sid, Some(d[k - 1].id)), NewerEq) == d[k..]
  {
    var rest := Matching(msgs, sid, Some(d[k - 1].id));
    RestCounts(msgs, sid, beforeId, d, k);
    MatchingCount(msgs, sid, Some(d[k - 1].id));
    assert multiset(rest) == multiset(d[k..]);
    SuffixSorted(d, k);
    SuffixDescending(d, k);
    SortedByIdIsTheSort(rest, d[k..]);
  }

  /** A page is the front of the newest-first selection; its cursor is its last row's id. */
  lemma PageIsFront(msgs: seq<MessageRow>, sid: string, beforeId: Option<int>, pageSize: int)
    requires pageSize != 0
    ensures var d := SortBy(Matching(msgs, sid, beforeId), NewerEq);
            var page := Page(msgs, sid, beforeId, pageSize);
            && page == d[..|page|]
            && (page == [] <==> d == [])
            && (page != [] ==> NextCursor(page) == Some(d[|page| - 1].id))
            && (page != [] && beforeId.Some? && beforeId.value != 0 ==> d[|page| - 1].id < beforeId.value)
  {
    var d := SortBy(Matching(msgs, sid, beforeId), NewerEq);
    var page := Page(msgs, sid, beforeId, pageSize);
    if page != [] {
      PageRowSelected(msgs, sid, beforeId, pageSize, page[|page| - 1]);
    }
    FrontOf(d, page, sid, beforeId, pageSize);
  }

  lemma FrontOf(d: seq<MessageRow>, page: seq<MessageRow>, sid: string, beforeId: Option<int>, pageSize: int)
    requires pageSize != 0 && page == Limit(d, pageSize)
    requires page != [] ==> Selected(page[|page| - 1], sid, beforeId)
    ensures page == d[..|page|]
    ensures page == [] <==> d == []
    ensures page != [] ==> NextCursor(page) == Some(d[|page| - 1].id)
    ensures page != [] && beforeId.Some? && beforeId.value != 0 ==> d[|page| - 1].id < beforeId.value
  {
    LimitFront(d, pageSize);
  }

  lemma PagesUnfold(msgs: seq<MessageRow>, sid: string, beforeId: Option<int>, pageSize: int)
    requires PositiveIds(msgs)
    requires Page(msgs, sid, beforeId, pageSize) != []
    ensures var page := Page(msgs, sid, beforeId, pageSize);
            Pages(msgs, sid, beforeId, pageSize) == page + Pages(msgs, sid, NextCursor(page), pageSize)
  {
  }

  /** One page followed by the rest of the walk is the whole newest-first selection. */
  lemma PagesFromFront(msgs: seq<MessageRow>, sid: string, beforeId: Option<int>, pageSize: int)
    requires PositiveIds(msgs) && IncreasingIds(msgs) && ClockMonotone(msgs)
    requires pageSize != 0
    requires Page(msgs, sid, beforeId, pageSize) != []
    requires var next := NextCursor(Page(msgs, sid, beforeId, pageSize));
             Pages(msgs, sid, next, pageSize) == SortBy(Matching(msgs, sid, next), NewerEq)
    ensures Pages(msgs, sid, beforeId, pageSize) == SortBy(Matching(msgs, sid, beforeId), NewerEq)
  {
    FrontAndRest(msgs, sid, beforeId, pageSize);
    PagesUnfold(msgs, sid, beforeId, pageSize);
  }

  /** The newest-first selection is a page followed by the selection below its cursor. */
  lemma FrontAndRest(msgs: seq<MessageRow>, sid: string, beforeId: Option<int>, pageSize: int)
    requires PositiveIds(msgs) && IncreasingIds(msgs) && ClockMonotone(msgs)
    requires pageSize != 0
    requires Page(msgs, sid, beforeId, pageSize) != []
    ensures var page := Page(msgs, sid, beforeId, pageSize);
            SortBy(Matching(msgs, sid, beforeId), NewerEq)
            == page + SortBy(Matching(msgs, sid, NextCursor(page)), NewerEq)
  {
    var d := SortBy(Matching(msgs, sid, beforeId), NewerEq);
    var page := Page(msgs, sid, beforeId, pageSize);
    var rest := SortBy(Matching(msgs, sid, NextCursor(page)), NewerEq);
    RestIsSuffix(msgs, sid, beforeId, pageSize);
    assert page == d[..|page|];
    SplitAt(d, page, rest);
  }

  /** What the cursor of a non-empty page selects, newest first, is what follows the page. */
  lemma RestIsSuffix(msgs: seq<MessageRow>, sid: string, beforeId: Option<int>, pageSize: int)
    requires PositiveIds(msgs) && IncreasingIds(msgs) && ClockMonotone(msgs)
    requires pageSize != 0
    requires Page(msgs, sid, beforeId, pageSize) != []
    ensures var page := Page(msgs, sid, beforeId, pageSize);
            var d := SortBy(Matching(msgs, sid, beforeId), NewerEq);
            |page| <= |d| && SortBy(Matching(msgs, sid, NextCursor(page)), NewerEq) == d[|page|..]
  {
    var d := SortBy(Matching(msgs, sid, beforeId), NewerEq);
    var page := Page(msgs, sid, beforeId, pageSize);
    var k := |page|;
    assert && 0 < k <= |Matching(msgs, sid, beforeId)|
           && NextCursor(page) == Some(d[k - 1].id)
           && (beforeId.Some? && beforeId.value != 0 ==> d[k - 1].id < beforeId.value) by {
      PageIsFront(msgs, sid, beforeId, pageSize);
    }
    assert SortBy(Matching(msgs, sid, Some(d[k - 1].id)), NewerEq) == d[k..] by {
      RestAfterPage(msgs, sid, beforeId, k);
    }
  }

  /**
   * When ids grow and the clock is monotone, following the cursors from
   * `before_id` visits exactly the selected rows, newest first.
   */
  lemma {:induction false} PagesVisitEachOnce(msgs: seq<MessageRow>, sid: string, beforeId: Option<int>, pageSize: int)
    requires PositiveIds(msgs) && IncreasingIds(msgs) && ClockMonotone(msgs)
    requires pageSize != 0
    ensures Pages(msgs, sid, beforeId, pageSize) == SortBy(Matching(msgs, sid, beforeId), NewerEq)
    decreases |Matching(msgs, sid, beforeId)|
  {
    var page := Page(msgs, sid, beforeId, pageSize);
    if page == [] {
      PageIsFront(msgs, sid, beforeId, pageSize);
    } else {
      CursorProgress(msgs, sid, beforeId, pageSize);
      PagesVisitEachOnce(msgs, sid, NextCursor(page), pageSize);
      PagesFromFront(msgs, sid, beforeId, pageSize);
    }
  }

  /**
   * Starting without a cursor, the pages together hold every message of the
   * conversation exactly as often as the table does, newest first.
   */
  lemma PagingVisitsEveryMessageOnce(msgs: seq<MessageRow>, sid: string, pageSize: int)
    requires PositiveIds(msgs) && IncreasingIds(msgs) && ClockMonotone(msgs)
    requires pageSize != 0
    ensures var visited := Pages(msgs, sid, None, pageSize);
            && Sorted(visited, NewerEq)
            && forall x :: multiset(visited)[x] == if x.conversationId == sid then multiset(msgs)[x] else 0
  {
    PagesVisitEachOnce(msgs, sid, None, pageSize);
    MessageOrdersArePreorders();
    SortBySorted(Matching(msgs, sid, None), NewerEq);
    MatchingCount(msgs, sid, None);
  }

  /** Every row the walk visits passes the starting cursor's WHERE clause. */
  lemma {:induction false} PagesStaySelected(msgs: seq<MessageRow>, sid: string, beforeId: Option<int>, pageSize: int)
    requires PositiveIds(msgs)
    ensures forall r :: r in Pages(msgs, sid, beforeId, pageSize) ==> r in msgs && Selected(r, sid, beforeId)
    decreases |Matching(msgs, sid, beforeId)|
  {
    var page := Page(msgs, sid, beforeId, pageSize);
    if page != [] {
      CursorProgress(msgs, sid, beforeId, pageSize);
      var next := NextCursor(page);
      PagesStaySelected(msgs, sid, next, pageSize);
      PagesUnfold(msgs, sid, beforeId, pageSize);
      forall r | r in page
        ensures r in msgs && Selected(r, sid, beforeId)
      {
        PageRowSelected(msgs, sid, beforeId, pageSize, r);
      }
    }
  }

  /**
   * Pages are ordered by `created_at` but the cursor compares ids. A row
   * that is not on a page, yet whose id is not below the page's last id, is
   * never visited by the pages after it. A row stored while the clock
   * stepped back can be in that position: older than the page's last row,
   * with a larger id.
   */
  lemma CursorSkipsOutOfOrderRow(msgs: seq<MessageRow>, sid: string, beforeId: Option<int>, pageSize: int, x: MessageRow)
    requires PositiveIds(msgs)
    requires Page(msgs, sid, beforeId, pageSize) != []
    requires x !in Page(msgs, sid, beforeId, pageSize)
    requires x.id >= NextCursor(Page(msgs, sid, beforeId, pageSize)).value
    ensures x !in Pages(msgs, sid, beforeId, pageSize)
  {
    var page := Page(msgs, sid, beforeId, pageSize);
    CursorProgress(msgs, sid, beforeId, pageSize);
    PagesUnfold(msgs, sid, beforeId, pageSize);
    PagesStaySelected(msgs, sid, NextCursor(page), pageSize);
  }

  /**
   * `LIMIT 0` returns no rows, so a zero page size ends paging at once with
   * no cursor, even when the conversation has messages.
   */
  lemma ZeroPageSizeVisitsNothing(msgs: seq<MessageRow>, sid: string, beforeId: Option<int>)
    requires PositiveIds(msgs)
    ensures Page(msgs, sid, beforeId, 0) == []
    ensures NextCursor(Page(msgs, sid, beforeId, 0)).None?
    ensures Pages(msgs, sid, beforeId, 0) == []
  {
    assert |Page(msgs, sid, beforeId, 0)| == 0;
  }

  /**
   * The same mismatch can also repeat a row. A row on a page whose id is
   * below the page's last id passes the next page's filter again; when the
   * next page holds every row that filter selects, the walk visits the row
   * twice.
   */
  lemma CursorRevisitsOutOfOrderRow(msgs: seq<MessageRow>, sid: string, beforeId: Option<int>, pageSize: int, x: MessageRow)
    requires PositiveIds(msgs)
    requires x in Page(msgs, sid, beforeId, pageSize)
    requires x.id < NextCursor(Page(msgs, sid, beforeId, pageSize)).value
    requires var next := NextCursor(Page(msgs, sid, beforeId, pageSize));
             pageSize < 0 || |Matching(msgs, sid, next)| <= pageSize
    ensures multiset(Pages(msgs, sid, beforeId, pageSize))[x] >= 2
  {
    var page := Page(msgs, sid, beforeId, pageSize);
    var next := NextCursor(page);
    PageRowSelected(msgs, sid, beforeId, pageSize, x);
    CursorProgress(msgs, sid, beforeId, pageSize);
    WholeSelectionOnPage(msgs, sid, next, pageSize, x);
    PagesUnfold(msgs, sid, beforeId, pageSize);
    var later := Pages(msgs, sid, next, pageSize);
    assert multiset(page)[x] >= 1 && multiset(later)[x] >= 1;
    assert multiset(page + later) == multiset(page) + multiset(later);
  }

  /** When one page can hold the whole selection, the walk visits every selected row. */
  lemma WholeSelectionOnPage(msgs: seq<MessageRow>, sid: string, beforeId: Option<int>, pageSize: int, x: MessageRow)
    requires PositiveIds(msgs)
    requires pageSize < 0 || |Matching(msgs, sid, beforeId)| <= pageSize
    requires x in msgs && Selected(x, sid, beforeId)
    ensures x in Pages(msgs, sid, beforeId, pageSize)
  {
    var d := SortBy(Matching(msgs, sid, beforeId), NewerEq);
    assert x in multiset(d);
    var page := Page(msgs, sid, beforeId, pageSize);
    assert page == d[..|page|] && |page| == |d|;
    assert x in page;
    PagesUnfold(msgs, sid, beforeId, pageSize);
  }

  // ---------- grouping a page by UTC day ----------

  /** The rows of `rows` on day `d`, in their order. */
  function OnDay(rows: seq<MessageRow>, d: int): (r: seq<MessageRow>)
    ensures forall x :: x in r <==> x in rows && Day(x.createdAt) == d
    ensures d !in Days(rows) ==> r == []
  {
    if rows == [] then []
    else
      var init, last := rows[..|rows| - 1], rows[|rows| - 1];
      assert rows == init + [last];
      OnDay(init, d) + (if Day(last.createdAt) == d then [last] else [])
  }

  lemma {:induction false} OnDayCount(rows: seq<MessageRow>, d: int)
    ensures forall x :: multiset(OnDay(rows, d))[x] == if Day(x.createdAt) == d then multiset(rows)[x] else 0
  {
    if rows != [] {
      var init, last := rows[..|rows| - 1], rows[|rows| - 1];
      assert rows == init + [last];
      OnDayCount(init, d);
    }
  }

  function Days(rows: seq<MessageRow>): set<int>
  {
    set r | r in rows :: Day(r.createdAt)
  }

  /** The `groups` dictionary: day -> that day's rows in page order. */
  function GroupsOf(rows: seq<MessageRow>): map<int, seq<MessageRow>>
  {
    map d | d in Days(rows) :: OnDay(rows, d)
  }

  /** One turn of the grouping loop: `groups.setdefault(day, []).append(r)`. */
  function AddToGroup(groups: map<int, seq<MessageRow>>, r: MessageRow): map<int, seq<MessageRow>>
  {
    var d := Day(r.createdAt);
    groups[d := (if d in groups then groups[d] else []) + [r]]
  }

  lemma GroupsStep(rows: seq<MessageRow>, r: MessageRow)
    ensures GroupsOf(rows + [r]) == AddToGroup(GroupsOf(rows), r)
  {
    var g', h := GroupsOf(rows + [r]), AddToGroup(GroupsOf(rows), r);
    GroupKeys(rows, r);
    forall e | e in g'
      ensures g'[e] == h[e]
    {
      GroupAt(rows, r, e);
    }
  }

  lemma GroupKeys(rows: seq<MessageRow>, r: MessageRow)
    ensures GroupsOf(rows + [r]).Keys == AddToGroup(GroupsOf(rows), r).Keys
  {
    DaysAppend(rows, r);
  }

  lemma GroupAt(rows: seq<MessageRow>, r: MessageRow, e: int)
    requires e in Days(rows + [r])
    ensures e in AddToGroup(GroupsOf(rows), r)
    ensures GroupsOf(rows + [r])[e] == AddToGroup(GroupsOf(rows), r)[e]
  {
    DaysAppend(rows, r);
    OnDayAppend(rows, r, e);
  }

  lemma DaysAppend(rows: seq<MessageRow>, r: MessageRow)
    ensures Days(rows + [r]) == Days(rows) + {Day(r.createdAt)}
  {
    forall x
      ensures x in rows + [r] <==> x in rows || x == r
    {
    }
  }

  /** Appending a row extends its own day's bucket and no other. */
  lemma OnDayAppend(rows: seq<MessageRow>, r: MessageRow, e: int)
    ensures OnDay(rows + [r], e) == OnDay(rows, e) + (if Day(r.createdAt) == e then [r] else [])
  {
    assert (rows + [r])[..|rows|] == rows;
  }

  /**
   * Every row of the page lies in exactly one group, the one of its UTC day,
   * as often as on the page; no group is empty; and a newest-first page gives
   * newest-first groups.
   */
  lemma GroupsPartition(rows: seq<MessageRow>)
    ensures var g := GroupsOf(rows);
            && (forall r :: r in rows ==> Day(r.createdAt) in g && r in g[Day(r.createdAt)])
            && (forall d, r :: d in g && r in g[d] ==> r in rows && Day(r.createdAt) == d)
            && (forall d, r: MessageRow :: d in g ==> multiset(g[d])[r] == if Day(r.createdAt) == d then multiset(rows)[r] else 0)
            && (forall d :: d in g ==> g[d] != [])
            && (Sorted(rows, NewerEq) ==> forall d :: d in g ==> Sorted(g[d], NewerEq))
  {
    var g := GroupsOf(rows);
    forall d | d in g
      ensures g[d] != []
      ensures forall r: MessageRow :: multiset(g[d])[r] == if Day(r.createdAt) == d then multiset(rows)[r] else 0
    {
      var r :| r in rows && Day(r.createdAt) == d;
      assert r in g[d];
      OnDayCount(rows, d);
    }
    if Sorted(rows, NewerEq) {
      forall d | d in g
        ensures Sorted(g[d], NewerEq)
      {
        OnDaySorted(rows, d);
      }
    }
  }

  lemma {:induction false} OnDaySorted(rows: seq<MessageRow>, d: int)
    requires Sorted(rows, NewerEq)
    ensures Sorted(OnDay(rows, d), NewerEq)
  {
    if rows != [] {
      var init, last := rows[..|rows| - 1], rows[|rows| - 1];
      assert rows == init + [last];
      SortedPrefix(rows, |init|, NewerEq);
      OnDaySorted(init, d);
      if Day(last.createdAt) == d {
        var g := OnDay(init, d);
        forall x | x in g
          ensures NewerEq(x, last)
        {
          var p :| 0 <= p < |init| && init[p] == x;
          assert rows[p] == x;
        }
        SortedAppend(g, last, NewerEq);
      }
    }
  }

  // ---------- list_conversations(): recency listing ----------

  /** `max(created_at)` over the conversation's messages, `None` if it has none. */
  function LastAt(msgs: seq<MessageRow>, cid: string): (r: Option<int>)
    ensures r.None? <==> forall m :: m in msgs ==> m.conversationId != cid
    ensures r.Some? ==> exists m :: m in msgs && m.conversationId == cid && m.createdAt == r.value
    ensures r.Some? ==> forall m :: m in msgs && m.conversationId == cid ==> m.createdAt <= r.value
  {
    if msgs == [] then None
    else
      var rest := LastAt(msgs[1..], cid);
      assert forall m :: m in msgs <==> m == msgs[0] || m in msgs[1..];
      if msgs[0].conversationId != cid then rest
      else if rest.Some? && rest.value >= msgs[0].createdAt then rest
      else Some(msgs[0].createdAt)
  }

  datatype Summary = Summary(conv: Conversation, lastAt: Option<int>)

  /** `ORDER BY last_at DESC NULLS LAST, created_at DESC`. */
  predicate RanksBefore(a: Summary, b: Summary)
  {
    match (a.lastAt, b.lastAt)
    case (Some(x), Some(y)) => x > y || (x == y && a.conv.createdAt >= b.conv.createdAt)
    case (Some(_), None) => true
    case (None, Some(_)) => false
    case (None, None) => a.conv.createdAt >= b.conv.createdAt
  }

  lemma RanksBeforeIsPreorder()
    ensures TotalPreorder(RanksBefore)
  {
  }

  /** The outer join of conversations with their last message time. */
  function Summaries(convs: seq<Conversation>, msgs: seq<MessageRow>): (r: seq<Summary>)
    ensures |r| == |convs|
    ensures forall i :: 0 <= i < |convs| ==> r[i] == Summary(convs[i], LastAt(msgs, convs[i].id))
  {
    seq(|convs|, i requires 0 <= i < |convs| => Summary(convs[i], LastAt(msgs, convs[i].id)))
  }

  function Ranked(convs: seq<Conversation>, msgs: seq<MessageRow>, limit: int): seq<Summary>
  {
    Limit(SortBy(Summaries(convs, msgs), RanksBefore), limit)
  }

  /** The newest message of a conversation by `(created_at, id)`, if any. */
  function NewestRow(msgs: seq<MessageRow>, cid: string): Option<MessageRow>
  {
    var d := SortBy(Matching(msgs, cid, None), NewerEq);
    if d == [] then None else Some(d[0])
  }

  const SnippetLength: int := 140

  /** `(last_msg.content or "")[:140]`. */
  function Snippet(msgs: seq<MessageRow>, cid: string): Option<string>
  {
    match NewestRow(msgs, cid)
    case None => None
    case Some(r) => Some(Limit(r.content, SnippetLength))
  }

  datatype ConversationItem = ConversationItem(
    id: string,
    title: Option<string>,
    createdAt: int,
    lastMessageAt: Option<int>,
    lastSnippet: Option<string>)

  /** One entry of `out`; the snippet is only looked up when `last_at` is set. */
  function ItemOf(s: Summary, msgs: seq<MessageRow>): ConversationItem
  {
    ConversationItem(s.conv.id, s.conv.title, s.conv.createdAt, s.lastAt,
                     if s.lastAt.Some? then Snippet(msgs, s.conv.id) else None)
  }

  function Listing(convs: seq<Conversation>, msgs: seq<MessageRow>, limit: int): (items: seq<ConversationItem>)
    ensures |items| == |Ranked(convs, msgs, limit)|
    ensures forall i :: 0 <= i < |items| ==> items[i] == ItemOf(Ranked(convs, msgs, limit)[i], msgs)
  {
    var ranked := Ranked(convs, msgs, limit);
    seq(|ranked|, i requires 0 <= i < |ranked| => ItemOf(ranked[i], msgs))
  }

  /** Each listed entry is the outer-join row of one stored conversation. */
  lemma RankedAreSummaries(convs: seq<Conversation>, msgs: seq<MessageRow>, limit: int, i: int)
    requires 0 <= i < |Ranked(convs, msgs, limit)|
    ensures var s := Ranked(convs, msgs, limit)[i];
            s.conv in convs && s.lastAt == LastAt(msgs, s.conv.id)
  {
    RanksBeforeIsPreorder();
    SortedWindow(Summaries(convs, msgs), RanksBefore, limit);
    var s := Ranked(convs, msgs, limit)[i];
    assert s in Ranked(convs, msgs, limit);
    var sums := Summaries(convs, msgs);
    var k :| 0 <= k < |sums| && sums[k] == s;
  }

  /**
   * The listing holds at most `limit` of the conversations, none more often
   * than it is stored, ordered by last
   * message time descending with message-less conversations after all others
   * and ties broken by creation time descending; the ones left out rank after
   * every listed one.
   */
  lemma ListingOrder(convs: seq<Conversation>, msgs: seq<MessageRow>, limit: int)
    ensures var items := Listing(convs, msgs, limit);
            && |items| == (if 0 <= limit < |convs| then limit else |convs|)
            && multiset(Ranked(convs, msgs, limit)) <= multiset(Summaries(convs, msgs))
            && (forall i, j :: 0 <= i < j < |items| ==>
                  && (items[j].lastMessageAt.Some? ==> items[i].lastMessageAt.Some?)
                  && (items[i].lastMessageAt.Some? && items[j].lastMessageAt.Some? ==>
                        items[i].lastMessageAt.value >= items[j].lastMessageAt.value)
                  && (items[i].lastMessageAt == items[j].lastMessageAt ==>
                        items[i].createdAt >= items[j].createdAt))
            && (forall s, t ::
                  (s in Summaries(convs, msgs) && s !in Ranked(convs, msgs, limit) && t in Ranked(convs, msgs, limit))
                  ==> RanksBefore(t, s))
  {
    RankedWindow(convs, msgs, limit);
    ItemsFollowRanks(Ranked(convs, msgs, limit), Listing(convs, msgs, limit), msgs);
  }

  /** The ranked rows: sorted, `min(limit, count)` of them, the rest ranking after them. */
  lemma RankedWindow(convs: seq<Conversation>, msgs: seq<MessageRow>, limit: int)
    ensures var ranked := Ranked(convs, msgs, limit);
            && Sorted(ranked, RanksBefore)
            && |ranked| == (if 0 <= limit < |convs| then limit else |convs|)
            && multiset(ranked) <= multiset(Summaries(convs, msgs))
            && (forall s, t :: (s in Summaries(convs, msgs) && s !in ranked && t in ranked) ==> RanksBefore(t, s))
  {
    RanksBeforeIsPreorder();
    SortedWindow(Summaries(convs, msgs), RanksBefore, limit);
  }

  /** Items built in rank order show the rank order in their fields. */
  lemma ItemsFollowRanks(ranked: seq<Summary>, items: seq<ConversationItem>, msgs: seq<MessageRow>)
    requires Sorted(ranked, RanksBefore)
    requires |items| == |ranked|
    requires forall i :: 0 <= i < |items| ==> items[i] == ItemOf(ranked[i], msgs)
    ensures forall i, j :: 0 <= i < j < |items| ==>
              && (items[j].lastMessageAt.Some? ==> items[i].lastMessageAt.Some?)
              && (items[i].lastMessageAt.Some? && items[j].lastMessageAt.Some? ==>
                    items[i].lastMessageAt.value >= items[j].lastMessageAt.value)
              && (items[i].lastMessageAt == items[j].lastMessageAt ==>
                    items[i].createdAt >= items[j].createdAt)
  {
    forall i, j | 0 <= i < j < |items|
      ensures RanksBefore(ranked[i], ranked[j])
    {
    }
  }

  /**
   * A snippet is present exactly when the conversation has messages; it is
   * the first 140 characters of the newest message by `(created_at, id)`,
   * whose `created_at` is the listed `last_message_at`.
   */
  lemma ListingSnippet(convs: seq<Conversation>, msgs: seq<MessageRow>, limit: int, i: int)
    requires 0 <= i < |Listing(convs, msgs, limit)|
    ensures var item := Listing(convs, msgs, limit)[i];
            && (exists c :: c in convs && c.id == item.id && c.title == item.title && c.createdAt == item.createdAt)
            && (item.lastSnippet.None? <==> item.lastMessageAt.None?)
            && (item.lastMessageAt.None? <==> forall m :: m in msgs ==> m.conversationId != item.id)
            && (item.lastSnippet.Some? ==> exists r ::
                  && r in msgs && r.conversationId == item.id
                  && (forall m :: m in msgs && m.conversationId == item.id ==> NewerEq(r, m))
                  && Some(r.createdAt) == item.lastMessageAt
                  && item.lastSnippet.value == r.content[..if |r.content| < 140 then |r.content| else 140]
                  && |item.lastSnippet.value| <= 140)
  {
    RankedAreSummaries(convs, msgs, limit, i);
    var s := Ranked(convs, msgs, limit)[i];
    if s.lastAt.Some? {
      NewestRowIsNewest(msgs, s.conv.id);
    }
  }

  lemma NewestRowIsNewest(msgs: seq<MessageRow>, cid: string)
    requires exists m :: m in msgs && m.conversationId == cid
    ensures NewestRow(msgs, cid).Some?
    ensures var r := NewestRow(msgs, cid).value;
            && r in msgs && r.conversationId == cid
            && (forall m :: m in msgs && m.conversationId == cid ==> NewerEq(r, m))
            && Some(r.createdAt) == LastAt(msgs, cid)
  {
    var all := Matching(msgs, cid, None);
    var m :| m in msgs && m.conversationId == cid;
    assert m in all;
    NewestFirstHead(all);
    var r := SortBy(all, NewerEq)[0];
    var w :| w in msgs && w.conversationId == cid && w.createdAt == LastAt(msgs, cid).value;
    assert NewerEq(r, w);
  }

  /** The head of the newest-first sort is a newest element. */
  lemma NewestFirstHead(all: seq<MessageRow>)
    requires all != []
    ensures var d := SortBy(all, NewerEq);
            && d != [] && d[0] in all
            && forall x :: x in all ==> NewerEq(d[0], x)
  {
    var d := SortBy(all, NewerEq);
    MessageOrdersArePreorders();
    SortBySorted(all, NewerEq);
    SortedHead(d, NewerEq);
    SameMembers(all, d);
  }
}
