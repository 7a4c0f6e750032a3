/**
 * The per-chat store of the chat backend (`ChatManager`): chat sessions with
 * an owner, a title, an active flag and an update stamp, and the append-only
 * messages, schemas and queries of each session. Each SQL table is a
 * sequence of rows in insertion order; `updated_at` is a logical clock that
 * every write advances, so "newest first" is a strict order.
 */
module ChatStore {
  import opened Wrappers
  import opened Text

  type SessionId = string
  type UserId = int

  /** Title of a chat created without one. */
  const DefaultChatTitle: string := "New Chat"
  /** Default window sizes of `getRecentQueries` and `getRecentMessages`. */
  const RecentQueryLimit: nat := 5
  const RecentMessageLimit: nat := 10
  /** An automatic title keeps this many characters of the first message. */
  const TitleLength: nat := 50
  const TitleEllipsis: string := "..."

  /** A row of `chat_sessions` (the creation stamp is not modelled). */
  datatype Session = Session(sessionId: SessionId, userId: UserId, chatTitle: string, isActive: bool, updatedAt: nat)

  /** Rows of `chat_messages`, `chat_schemas` and `chat_queries`. */
  datatype MessageRow = MessageRow(sessionId: SessionId, role: string, content: string)
  datatype SchemaRow = SchemaRow(sessionId: SessionId, tableName: string, sqlStatement: string, description: string)
  datatype QueryRow = QueryRow(sessionId: SessionId, naturalLanguage: string, generatedSql: string,
                               wasExecuted: bool, executionResult: Option<string>)

  /** The columns the getters select. */
  datatype Message = Message(role: string, content: string)
  datatype SchemaRecord = SchemaRecord(tableName: string, sqlStatement: string, description: string)
  datatype QueryRecord = QueryRecord(naturalLanguage: string, generatedSql: string, wasExecuted: bool)

  /** What `getFullContext` returns: all schemas, the recent queries and the recent messages. */
  datatype ChatContext = ChatContext(schemas: seq<SchemaRecord>, queries: seq<QueryRecord>, messages: seq<Message>)

  /** A line of `getAllChats`: the session with its message and schema counts. */
  datatype ChatSummary = ChatSummary(session: Session, messageCount: nat, schemaCount: nat)

  function Min(a: nat, b: nat): nat {
    if a <= b then a else b
  }

  // ---------------------------------------------------------------------------
  // Row selection (the WHERE clauses)
  // ---------------------------------------------------------------------------

  /** Index of the first session with this id, or -1. */
  function FindSession(ss: seq<Session>, id: SessionId): (r: int)
    ensures -1 <= r < |ss|
    ensures r == -1 <==> forall i :: 0 <= i < |ss| ==> ss[i].sessionId != id
    ensures r >= 0 ==> ss[r].sessionId == id
  {
    if ss == [] then -1
    else if ss[0].sessionId == id then 0
    else var r := FindSession(ss[1..], id); if r == -1 then -1 else r + 1
  }

  /** `WHERE session_id = ? AND user_id = ? AND is_active = TRUE`. */
  predicate Owned(s: Session, id: SessionId, user: UserId) {
    s.sessionId == id && s.userId == user && s.isActive
  }

  /** Index of the first session that is active, has this id and belongs to this user, or -1. */
  function FindOwned(ss: seq<Session>, id: SessionId, user: UserId): (r: int)
    ensures -1 <= r < |ss|
    ensures r == -1 <==> forall i :: 0 <= i < |ss| ==> !Owned(ss[i], id, user)
    ensures r >= 0 ==> Owned(ss[r], id, user)
  {
    if ss == [] then -1
    else if Owned(ss[0], id, user) then 0
    else var r := FindOwned(ss[1..], id, user); if r == -1 then -1 else r + 1
  }

  /** `SELECT role, content FROM chat_messages WHERE session_id = ? ORDER BY created_at ASC`. */
  function MessagesOf(rows: seq<MessageRow>, id: SessionId): seq<Message> {
    if rows == [] then []
    else
      var last := rows[|rows| - 1];
      MessagesOf(rows[..|rows| - 1], id) + (if last.sessionId == id then [Message(last.role, last.content)] else [])
  }

  /** The schemas of one session, oldest first. */
  function SchemasOf(rows: seq<SchemaRow>, id: SessionId): seq<SchemaRecord> {
    if rows == [] then []
    else
      var last := rows[|rows| - 1];
      SchemasOf(rows[..|rows| - 1], id)
        + (if last.sessionId == id then [SchemaRecord(last.tableName, last.sqlStatement, last.description)] else [])
  }

  /** The queries of one session, oldest first. */
  function QueriesOf(rows: seq<QueryRow>, id: SessionId): seq<QueryRecord> {
    if rows == [] then []
    else
      var last := rows[|rows| - 1];
      QueriesOf(rows[..|rows| - 1], id)
        + (if last.sessionId == id then [QueryRecord(last.naturalLanguage, last.generatedSql, last.wasExecuted)] else [])
  }

  /** Appending a message row adds its message to the history of its own
      session only, at the end, and leaves every other session's history alone. */
  lemma {:induction false} MessagesOfAppend(rows: seq<MessageRow>, row: MessageRow, id: SessionId)
    ensures MessagesOf(rows + [row], id)
         == MessagesOf(rows, id) + (if row.sessionId == id then [Message(row.role, row.content)] else [])
  {
    assert (rows + [row])[..|rows|] == rows;
  }

  /** Appending a schema row adds its record to its own session's list only, at the end. */
  lemma {:induction false} SchemasOfAppend(rows: seq<SchemaRow>, row: SchemaRow, id: SessionId)
    ensures SchemasOf(rows + [row], id)
         == SchemasOf(rows, id) + (if row.sessionId == id then [SchemaRecord(row.tableName, row.sqlStatement, row.description)] else [])
  {
    assert (rows + [row])[..|rows|] == rows;
  }

  /** Appending a query row adds its record to its own session's list only, at the end. */
  lemma {:induction false} QueriesOfAppend(rows: seq<QueryRow>, row: QueryRow, id: SessionId)
    ensures QueriesOf(rows + [row], id)
         == QueriesOf(rows, id) + (if row.sessionId == id then [QueryRecord(row.naturalLanguage, row.generatedSql, row.wasExecuted)] else [])
  {
    assert (rows + [row])[..|rows|] == rows;
  }

  /** A record is in a chat's schema list exactly when some schema row of that chat selects to it. */
  lemma {:induction false} SchemasOfMembers(rows: seq<SchemaRow>, id: SessionId)
    ensures forall rec :: rec in SchemasOf(rows, id) <==>
      exists i :: 0 <= i < |rows| && rows[i].sessionId == id
        && rec == SchemaRecord(rows[i].tableName, rows[i].sqlStatement, rows[i].description)
    decreases |rows|
  {
    if rows != [] {
      var init := rows[..|rows| - 1];
      SchemasOfMembers(init, id);
      forall rec ensures rec in SchemasOf(rows, id) <==>
        exists i :: 0 <= i < |rows| && rows[i].sessionId == id
          && rec == SchemaRecord(rows[i].tableName, rows[i].sqlStatement, rows[i].description)
      {
        if rec in SchemasOf(init, id) {
          var i :| 0 <= i < |init| && init[i].sessionId == id
            && rec == SchemaRecord(init[i].tableName, init[i].sqlStatement, init[i].description);
          assert rows[i] == init[i];
        }
        if (exists i :: 0 <= i < |rows| && rows[i].sessionId == id
              && rec == SchemaRecord(rows[i].tableName, rows[i].sqlStatement, rows[i].description)) {
          var i :| 0 <= i < |rows| && rows[i].sessionId == id
            && rec == SchemaRecord(rows[i].tableName, rows[i].sqlStatement, rows[i].description);
          if i < |init| {
            assert init[i] == rows[i];
          }
        }
      }
    }
  }

  /** A message is in a chat's history exactly when some message row of that chat selects to it. */
  lemma {:induction false} MessagesOfMembers(rows: seq<MessageRow>, id: SessionId)
    ensures forall m :: m in MessagesOf(rows, id) <==>
      exists i :: 0 <= i < |rows| && rows[i].sessionId == id && m == Message(rows[i].role, rows[i].content)
    decreases |rows|
  {
    if rows != [] {
      var init := rows[..|rows| - 1];
      MessagesOfMembers(init, id);
      forall m ensures m in MessagesOf(rows, id) <==>
        exists i :: 0 <= i < |rows| && rows[i].sessionId == id && m == Message(rows[i].role, rows[i].content)
      {
        if m in MessagesOf(init, id) {
          var i :| 0 <= i < |init| && init[i].sessionId == id && m == Message(init[i].role, init[i].content);
          assert rows[i] == init[i];
        }
        if exists i :: 0 <= i < |rows| && rows[i].sessionId == id && m == Message(rows[i].role, rows[i].content) {
          var i :| 0 <= i < |rows| && rows[i].sessionId == id && m == Message(rows[i].role, rows[i].content);
          if i < |init| {
            assert init[i] == rows[i];
          }
        }
      }
    }
  }

  // ---------------------------------------------------------------------------
  // "ORDER BY created_at DESC LIMIT n", then reverse()
  // ---------------------------------------------------------------------------

  function Reverse<T>(s: seq<T>): (r: seq<T>)
    ensures |r| == |s|
    ensures forall i :: 0 <= i < |s| ==> r[i] == s[|s| - 1 - i]
  {
    if s == [] then [] else Reverse(s[1..]) + [s[0]]
  }

  /** The store's answer to a newest-first query with a limit. */
  function NewestFirst<T>(s: seq<T>, limit: nat): seq<T> {
    Reverse(s)[..Min(limit, |s|)]
  }

  /** What the recent-window getters return: the newest-first answer reversed. */
  function RecentWindow<T>(s: seq<T>, limit: nat): seq<T> {
    Reverse(NewestFirst(s, limit))
  }

  /** The window is the last `limit` records (all of them when there are
      fewer), oldest first: a suffix of the full history. */
  lemma RecentWindowIsSuffix<T>(s: seq<T>, limit: nat)
    ensures |RecentWindow(s, limit)| == Min(limit, |s|) <= limit
    ensures RecentWindow(s, limit) == s[|s| - Min(limit, |s|)..]
  {
    var n := Min(limit, |s|);
    var w := RecentWindow(s, limit);
    forall i | 0 <= i < n ensures w[i] == s[|s| - n + i] {
      assert w[i] == NewestFirst(s, limit)[n - 1 - i] == Reverse(s)[n - 1 - i];
    }
  }

  // ---------------------------------------------------------------------------
  // Listing chats: "WHERE user_id = ? AND is_active = TRUE ORDER BY updated_at DESC"
  // ---------------------------------------------------------------------------

  /** The active sessions of one user, in table order. */
  function ActiveOf(ss: seq<Session>, user: UserId): (r: seq<Session>)
    ensures forall s :: s in r <==> s in ss && s.userId == user && s.isActive
  {
    if ss == [] then []
    else (if ss[0].userId == user && ss[0].isActive then [ss[0]] else []) + ActiveOf(ss[1..], user)
  }

  /** The sessions of a chat listing, in listing order. */
  function Listed(r: seq<ChatSummary>): seq<Session> {
    seq(|r|, k requires 0 <= k < |r| => r[k].session)
  }

  /** The user's active sessions, sorted newest first, are all active
      sessions of the user, each once, and belong to `ss`. */
  lemma SortedActiveFacts(ss: seq<Session>, user: UserId)
    ensures var sorted := SortByUpdatedAtDesc(ActiveOf(ss, user));
      && NewestFirstOrder(sorted)
      && multiset(sorted) == multiset(ActiveOf(ss, user))
      && forall k :: 0 <= k < |sorted| ==> sorted[k] in ss && sorted[k].userId == user && sorted[k].isActive
  {
    var active := ActiveOf(ss, user);
    var sorted := SortByUpdatedAtDesc(active);
    forall k | 0 <= k < |sorted| ensures sorted[k] in active {
      assert sorted[k] in multiset(sorted);
    }
  }

  /** Each session with the number of its messages and schemas. */
  function Summaries(ss: seq<Session>, messageRows: seq<MessageRow>, schemaRows: seq<SchemaRow>): (r: seq<ChatSummary>)
    ensures Listed(r) == ss
    ensures forall k :: 0 <= k < |r| ==>
      r[k].messageCount == |MessagesOf(messageRows, r[k].session.sessionId)|
      && r[k].schemaCount == |SchemasOf(schemaRows, r[k].session.sessionId)|
  {
    seq(|ss|, k requires 0 <= k < |ss| =>
      ChatSummary(ss[k], |MessagesOf(messageRows, ss[k].sessionId)|, |SchemasOf(schemaRows, ss[k].sessionId)|))
  }

  predicate NewestFirstOrder(ss: seq<Session>) {
    forall i, j :: 0 <= i < j < |ss| ==> ss[i].updatedAt >= ss[j].updatedAt
  }

  /** Inserts one session in front of the first one it is at least as new as. */
  function InsertByUpdatedAt(x: Session, ss: seq<Session>): (r: seq<Session>)
    ensures multiset(r) == multiset(ss) + multiset{x}
  {
    if ss == [] || x.updatedAt >= ss[0].updatedAt then [x] + ss
    else
      assert ss == [ss[0]] + ss[1..];
      [ss[0]] + InsertByUpdatedAt(x, ss[1..])
  }

  /** Inserting into a newest-first list keeps it newest first. */
  lemma {:induction false} InsertKeepsOrder(x: Session, ss: seq<Session>)
    requires NewestFirstOrder(ss)
    ensures NewestFirstOrder(InsertByUpdatedAt(x, ss))
  {
    if ss == [] || x.updatedAt >= ss[0].updatedAt {
    } else {
      var rest := InsertByUpdatedAt(x, ss[1..]);
      InsertKeepsOrder(x, ss[1..]);
      forall j | 0 <= j < |rest| ensures ss[0].updatedAt >= rest[j].updatedAt {
        assert rest[j] in multiset(rest);
        if rest[j] != x {
          assert rest[j] in multiset(ss[1..]);
          var k :| 0 <= k < |ss[1..]| && ss[1..][k] == rest[j];
          assert ss[1..][k] == ss[k + 1];
        }
      }
    }
  }

  /** Orders sessions by update stamp, newest first, keeping every one of them. */
  function SortByUpdatedAtDesc(ss: seq<Session>): (r: seq<Session>)
    ensures NewestFirstOrder(r)
    ensures multiset(r) == multiset(ss)
  {
    if ss == [] then []
    else
      assert ss == [ss[0]] + ss[1..];
      var sorted := SortByUpdatedAtDesc(ss[1..]);
      InsertKeepsOrder(ss[0], sorted);
      InsertByUpdatedAt(ss[0], sorted)
  }

  /** The automatic title: the first 50 code units of the message, with
      "..." when the message is longer. */
  function AutoTitle(firstMessage: string): string {
    Utf16Prefix(firstMessage, TitleLength) + (if Utf16Length(firstMessage) > TitleLength then TitleEllipsis else "")
  }

  /** An automatic title is the message itself when that has at most 50
      code units, and otherwise a prefix of the message followed by "...":
      the first 50 units, or 49 when the 50th is the first half of a
      surrogate pair. */
  lemma AutoTitleShape(firstMessage: string)
    ensures Utf16Length(firstMessage) <= TitleLength ==> AutoTitle(firstMessage) == firstMessage
    ensures Utf16Length(firstMessage) > TitleLength ==>
      exists k :: 0 <= k < |firstMessage| && AutoTitle(firstMessage) == firstMessage[..k] + TitleEllipsis
        && TitleLength - 1 <= Utf16Length(firstMessage[..k]) <= TitleLength
        && (Utf16Length(firstMessage[..k]) < TitleLength ==> CharUnits(firstMessage[k]) == 2)
  {
    if Utf16Length(firstMessage) > TitleLength {
      var k := AutoTitleCut(firstMessage);
    } else {
      assert Utf16Prefix(firstMessage, TitleLength) + [] == Utf16Prefix(firstMessage, TitleLength);
    }
  }

  /** Where a long message is cut: `k` characters are kept, making 49 or 50 code units. */
  lemma AutoTitleCut(firstMessage: string) returns (k: nat)
    requires Utf16Length(firstMessage) > TitleLength
    ensures k < |firstMessage| && AutoTitle(firstMessage) == firstMessage[..k] + TitleEllipsis
    ensures TitleLength - 1 <= Utf16Length(firstMessage[..k]) <= TitleLength
    ensures Utf16Length(firstMessage[..k]) < TitleLength ==> CharUnits(firstMessage[k]) == 2
  {
    var p := Utf16Prefix(firstMessage, TitleLength);
    k := |p|;
    assert k == |firstMessage| ==> p == firstMessage;
    assert firstMessage[..k] == p;
  }

  /** An automatic title is at most 53 code units long. */
  lemma AutoTitleBound(firstMessage: string)
    ensures Utf16Length(AutoTitle(firstMessage)) <= TitleLength + |TitleEllipsis|
  {
    Utf16InBmp(TitleEllipsis, 0);
    Utf16LengthAppend(Utf16Prefix(firstMessage, TitleLength), TitleEllipsis);
    Utf16LengthAppend(Utf16Prefix(firstMessage, TitleLength), "");
  }

  /** For text inside the Basic Multilingual Plane the title is the first 50
      characters, with "..." when there are more. */
  lemma AutoTitleInBmp(firstMessage: string)
    requires InBmp(firstMessage)
    ensures AutoTitle(firstMessage)
      == firstMessage[..Min(TitleLength, |firstMessage|)] + (if |firstMessage| > TitleLength then TitleEllipsis else "")
  {
    Utf16InBmp(firstMessage, TitleLength);
  }

  /** The sessions after `SET updated_at = CURRENT_TIMESTAMP WHERE session_id = ?`. */
  function Bumped(ss: seq<Session>, id: SessionId, stamp: nat): (r: seq<Session>)
    ensures |r| == |ss|
  {
    if ss == [] then []
    else [(if ss[0].sessionId == id then ss[0].(updatedAt := stamp) else ss[0])] + Bumped(ss[1..], id, stamp)
  }

  /** The sessions after `SET chat_title = ?, updated_at = CURRENT_TIMESTAMP WHERE session_id = ?`. */
  function Retitled(ss: seq<Session>, id: SessionId, title: string, stamp: nat): (r: seq<Session>)
    ensures |r| == |ss|
  {
    if ss == [] then []
    else [(if ss[0].sessionId == id then ss[0].(chatTitle := title, updatedAt := stamp) else ss[0])]
         + Retitled(ss[1..], id, title, stamp)
  }

  /** Bumping changes the stamp of the matching session and nothing else. */
  lemma {:induction false} BumpedAt(ss: seq<Session>, id: SessionId, stamp: nat, i: int)
    requires 0 <= i < |ss|
    ensures Bumped(ss, id, stamp)[i] == if ss[i].sessionId == id then ss[i].(updatedAt := stamp) else ss[i]
  {
    if i > 0 {
      BumpedAt(ss[1..], id, stamp, i - 1);
    }
  }

  /** Retitling changes the title and the stamp of the matching session and
      nothing else. */
  lemma {:induction false} RetitledAt(ss: seq<Session>, id: SessionId, title: string, stamp: nat, i: int)
    requires 0 <= i < |ss|
    ensures Retitled(ss, id, title, stamp)[i]
         == if ss[i].sessionId == id then ss[i].(chatTitle := title, updatedAt := stamp) else ss[i]
  {
    if i > 0 {
      RetitledAt(ss[1..], id, title, stamp, i - 1);
    }
  }

  /** The sessions after `SET is_active = FALSE WHERE session_id = ? AND user_id = ?`.
      `updated_at` is declared `ON UPDATE CURRENT_TIMESTAMP`, so a row whose
      flag actually changes takes the new stamp; a row already inactive is
      left as it was. */
  function Deactivated(ss: seq<Session>, id: SessionId, user: UserId, stamp: nat): (r: seq<Session>)
    ensures |r| == |ss|
  {
    seq(|ss|, i requires 0 <= i < |ss| =>
      if ss[i].sessionId == id && ss[i].userId == user && ss[i].isActive
      then ss[i].(isActive := false, updatedAt := stamp)
      else ss[i])
  }

  /** Session ids are unique (the UNIQUE key), update stamps are distinct and
      none later than the clock. */
  ghost predicate WellFormedSessions(ss: seq<Session>, clock: nat) {
    && (forall i, j :: 0 <= i < j < |ss| ==> ss[i].sessionId != ss[j].sessionId)
    && (forall i, j :: 0 <= i < j < |ss| ==> ss[i].updatedAt != ss[j].updatedAt)
    && (forall i :: 0 <= i < |ss| ==> ss[i].updatedAt <= clock)
  }

  /** Stamping one session with the next clock value keeps the sessions well
      formed under that clock. */
  lemma RetitledWellFormed(ss: seq<Session>, id: SessionId, title: string, clock: nat)
    requires WellFormedSessions(ss, clock)
    ensures WellFormedSessions(Retitled(ss, id, title, clock + 1), clock + 1)
  {
    var stamp := clock + 1;
    var r := Retitled(ss, id, title, stamp);
    forall i | 0 <= i < |ss|
      ensures r[i] == (if ss[i].sessionId == id then ss[i].(chatTitle := title, updatedAt := stamp) else ss[i])
    {
      RetitledAt(ss, id, title, stamp, i);
    }
    assert WellFormedSessions(r, stamp);
  }

  /** Deleting again changes nothing: the row is already inactive, so the
      `ON UPDATE` stamp does not fire a second time. */
  lemma DeactivatedTwice(ss: seq<Session>, id: SessionId, user: UserId, s1: nat, s2: nat)
    ensures Deactivated(Deactivated(ss, id, user, s1), id, user, s2) == Deactivated(ss, id, user, s1)
  {
  }

  /** The same for a soft delete: at most one session takes the new stamp. */
  lemma DeactivatedWellFormed(ss: seq<Session>, id: SessionId, user: UserId, clock: nat)
    requires WellFormedSessions(ss, clock)
    ensures WellFormedSessions(Deactivated(ss, id, user, clock + 1), clock + 1)
  {
  }

  /** The same for a stamp alone. */
  lemma BumpedWellFormed(ss: seq<Session>, id: SessionId, clock: nat)
    requires WellFormedSessions(ss, clock)
    ensures WellFormedSessions(Bumped(ss, id, clock + 1), clock + 1)
  {
    var stamp := clock + 1;
    var r := Bumped(ss, id, stamp);
    forall i | 0 <= i < |ss|
      ensures r[i] == (if ss[i].sessionId == id then ss[i].(updatedAt := stamp) else ss[i])
    {
      BumpedAt(ss, id, stamp, i);
    }
    assert WellFormedSessions(r, stamp);
  }

  /** Bumping keeps every session id, so the same ids are found. */
  lemma BumpedKeepsIds(ss: seq<Session>, id: SessionId, stamp: nat, other: SessionId)
    ensures FindSession(Bumped(ss, id, stamp), other) >= 0 <==> FindSession(ss, other) >= 0
  {
    var r := Bumped(ss, id, stamp);
    forall i | 0 <= i < |ss| ensures r[i].sessionId == ss[i].sessionId {
      BumpedAt(ss, id, stamp, i);
    }
  }

  /** A session that was found is still found after a bump. */
  lemma StillFound(before: seq<Session>, after: seq<Session>, id: SessionId, stamp: nat)
    requires FindSession(before, id) >= 0 && after == Bumped(before, id, stamp)
    ensures FindSession(after, id) >= 0
  {
    BumpedKeepsIds(before, id, stamp, id);
  }

  /** A later stamp overrides an earlier one. */
  lemma BumpedTwice(ss: seq<Session>, id: SessionId, a: nat, b: nat)
    ensures Bumped(Bumped(ss, id, a), id, b) == Bumped(ss, id, b)
  {
    var once := Bumped(ss, id, a);
    forall i | 0 <= i < |ss| ensures Bumped(once, id, b)[i] == Bumped(ss, id, b)[i] {
      BumpedAt(ss, id, a, i);
      BumpedAt(once, id, b, i);
      BumpedAt(ss, id, b, i);
    }
  }

  /** Retitling after a bump is retitling alone. */
  lemma RetitledAfterBumped(ss: seq<Session>, id: SessionId, title: string, a: nat, b: nat)
    ensures Retitled(Bumped(ss, id, a), id, title, b) == Retitled(ss, id, title, b)
  {
    var once := Bumped(ss, id, a);
    forall i | 0 <= i < |ss| ensures Retitled(once, id, title, b)[i] == Retitled(ss, id, title, b)[i] {
      BumpedAt(ss, id, a, i);
      RetitledAt(once, id, title, b, i);
      RetitledAt(ss, id, title, b, i);
    }
  }

  class ChatManager {
    var sessions: seq<Session>
    var messages: seq<MessageRow>
    var schemas: seq<SchemaRow>
    var queries: seq<QueryRow>
    /** Stands for CURRENT_TIMESTAMP: every write advances it by one and
        stamps with the new value, so it is the stamp of the latest write. */
    var clock: nat

    ghost predicate Valid()
      reads this
    {
      WellFormedSessions(sessions, clock)
    }

    constructor ()
      ensures Valid()
      ensures sessions == [] && messages == [] && schemas == [] && queries == []
    {
      sessions, messages, schemas, queries := [], [], [], [];
      clock := 0;
    }

    // -------------------------------------------------------------------------
    // Chat session management
    // -------------------------------------------------------------------------

    /** `createNewChat`: inserts one active session for the user, titled
        "New Chat" when no title is given. `freshId` is the uuid the source
        draws; it is new and non-empty. */
    method CreateNewChat(userId: UserId, chatTitle: Option<string>, freshId: SessionId) returns (sessionId: SessionId)
      requires Valid()
      requires freshId != [] && FindSession(sessions, freshId) == -1
      modifies this
      ensures Valid()
      ensures sessionId == freshId
      ensures sessions == old(sessions)
        + [Session(freshId, userId, if chatTitle.Some? then chatTitle.value else DefaultChatTitle, true, clock)]
      ensures clock == old(clock) + 1
      ensures messages == old(messages) && schemas == old(schemas) && queries == old(queries)
      ensures GetChatSession(sessionId, userId).Some?
    {
      var title := if chatTitle.Some? then chatTitle.value else DefaultChatTitle;
      clock := clock + 1;
      sessions := sessions + [Session(freshId, userId, title, true, clock)];
      sessionId := freshId;
      assert Owned(sessions[|sessions| - 1], sessionId, userId);
    }

    /** `getAllChats`: the user's active chats, most recently updated first,
        each with its message and schema counts. */
    function GetAllChats(userId: UserId): (r: seq<ChatSummary>)
      reads this
      ensures forall k :: 0 <= k < |r| ==>
        r[k].session in sessions && r[k].session.userId == userId && r[k].session.isActive
      ensures multiset(Listed(r)) == multiset(ActiveOf(sessions, userId))
      ensures forall i, j :: 0 <= i < j < |r| ==> r[i].session.updatedAt >= r[j].session.updatedAt
      ensures forall k :: 0 <= k < |r| ==>
        r[k].messageCount == |MessagesOf(messages, r[k].session.sessionId)|
        && r[k].schemaCount == |SchemasOf(schemas, r[k].session.sessionId)|
    {
      SortedActiveFacts(sessions, userId);
      Summaries(SortByUpdatedAtDesc(ActiveOf(sessions, userId)), messages, schemas)
    }

    /** `getChatSession`: the session, only when the id and the owner match
        and the chat is active; `None` (null) otherwise. */
    function GetChatSession(sessionId: SessionId, userId: UserId): (r: Option<Session>)
      reads this
      ensures r.Some? <==> exists i :: 0 <= i < |sessions| && Owned(sessions[i], sessionId, userId)
      ensures r.Some? ==> r.value in sessions && Owned(r.value, sessionId, userId)
    {
      var i := FindOwned(sessions, sessionId, userId);
      if i >= 0 then Some(sessions[i]) else None
    }

    /** `updateChatTitle`: replaces the title and bumps the update stamp of
        the session with this id; nothing else changes. */
    method UpdateChatTitle(sessionId: SessionId, newTitle: string)
      requires Valid()
      modifies this
      ensures Valid()
      ensures sessions == Retitled(old(sessions), sessionId, newTitle, clock) && clock == old(clock) + 1
      ensures messages == old(messages) && schemas == old(schemas) && queries == old(queries)
    {
      RetitledWellFormed(sessions, sessionId, newTitle, clock);
      clock := clock + 1;
      sessions := Retitled(sessions, sessionId, newTitle, clock);
    }

    /** `deleteChat`: soft delete; clears the active flag of the session with
        this id and owner, and of no other, stamping it when the flag changes. */
    method DeleteChat(sessionId: SessionId, userId: UserId)
      requires Valid()
      modifies this
      ensures Valid()
      ensures sessions == Deactivated(old(sessions), sessionId, userId, clock) && clock == old(clock) + 1
      ensures messages == old(messages) && schemas == old(schemas) && queries == old(queries)
      ensures GetChatSession(sessionId, userId).None?
      ensures forall i :: 0 <= i < |sessions| ==>
        (sessions[i] == old(sessions)[i] || (old(sessions)[i].sessionId == sessionId && old(sessions)[i].userId == userId))
    {
      DeactivatedWellFormed(sessions, sessionId, userId, clock);
      clock := clock + 1;
      sessions := Deactivated(sessions, sessionId, userId, clock);
    }

    // -------------------------------------------------------------------------
    // Appending to a chat
    // -------------------------------------------------------------------------

    /** The stamp update every append performs. */
    method Touch(sessionId: SessionId)
      requires Valid()
      modifies this
      ensures Valid()
      ensures sessions == Bumped(old(sessions), sessionId, clock) && clock == old(clock) + 1
      ensures messages == old(messages) && schemas == old(schemas) && queries == old(queries)
    {
      BumpedWellFormed(sessions, sessionId, clock);
      clock := clock + 1;
      sessions := Bumped(sessions, sessionId, clock);
    }

    /** `addMessage`: appends one message to the session and bumps its stamp.
        A session id that names no session makes the insert fail (the foreign
        key), reported as `ok == false`, and then nothing changes. */
    method AddMessage(sessionId: SessionId, role: string, content: string) returns (ok: bool)
      requires Valid()
      modifies this
      ensures Valid()
      ensures ok <==> FindSession(old(sessions), sessionId) >= 0
      ensures messages == old(messages) + (if ok then [MessageRow(sessionId, role, content)] else [])
      ensures sessions == (if ok then Bumped(old(sessions), sessionId, clock) else old(sessions))
      ensures clock == old(clock) + (if ok then 1 else 0)
      ensures schemas == old(schemas) && queries == old(queries)
    {
      ok := FindSession(sessions, sessionId) >= 0;
      if ok {
        messages := messages + [MessageRow(sessionId, role, content)];
        Touch(sessionId);
      }
    }

    /** `addSchema`: appends one schema record to the session and bumps its stamp. */
    method AddSchema(sessionId: SessionId, tableName: string, sqlStatement: string, description: string) returns (ok: bool)
      requires Valid()
      modifies this
      ensures Valid()
      ensures ok <==> FindSession(old(sessions), sessionId) >= 0
      ensures schemas == old(schemas) + (if ok then [SchemaRow(sessionId, tableName, sqlStatement, description)] else [])
      ensures sessions == (if ok then Bumped(old(sessions), sessionId, clock) else old(sessions))
      ensures clock == old(clock) + (if ok then 1 else 0)
      ensures messages == old(messages) && queries == old(queries)
    {
      ok := FindSession(sessions, sessionId) >= 0;
      if ok {
        schemas := schemas + [SchemaRow(sessionId, tableName, sqlStatement, description)];
        Touch(sessionId);
      }
    }

    /** `addQuery`: appends one query record to the session and bumps its
        stamp; by default the query is recorded as not executed, with no result. */
    method AddQuery(sessionId: SessionId, naturalLanguage: string, generatedSql: string,
                    wasExecuted: bool := false, result: Option<string> := None) returns (ok: bool)
      requires Valid()
      modifies this
      ensures Valid()
      ensures ok <==> FindSession(old(sessions), sessionId) >= 0
      ensures queries == old(queries)
        + (if ok then [QueryRow(sessionId, naturalLanguage, generatedSql, wasExecuted, result)] else [])
      ensures sessions == (if ok then Bumped(old(sessions), sessionId, clock) else old(sessions))
      ensures clock == old(clock) + (if ok then 1 else 0)
      ensures messages == old(messages) && schemas == old(schemas)
    {
      ok := FindSession(sessions, sessionId) >= 0;
      if ok {
        queries := queries + [QueryRow(sessionId, naturalLanguage, generatedSql, wasExecuted, result)];
        Touch(sessionId);
      }
    }

    // -------------------------------------------------------------------------
    // Reading a chat's context
    // -------------------------------------------------------------------------

    /** `getSchemas`: every schema of the session, oldest first. */
    function GetSchemas(sessionId: SessionId): (r: seq<SchemaRecord>)
      reads this
      ensures forall rec :: rec in r <==>
        exists i :: 0 <= i < |schemas| && schemas[i].sessionId == sessionId
          && rec == SchemaRecord(schemas[i].tableName, schemas[i].sqlStatement, schemas[i].description)
    {
      SchemasOfMembers(schemas, sessionId);
      SchemasOf(schemas, sessionId)
    }

    /** `getRecentQueries`: at most `limit` queries, the most recent ones, oldest first. */
    function GetRecentQueries(sessionId: SessionId, limit: nat := RecentQueryLimit): (r: seq<QueryRecord>)
      reads this
      ensures |r| <= limit && |r| <= |QueriesOf(queries, sessionId)|
      ensures r == QueriesOf(queries, sessionId)[|QueriesOf(queries, sessionId)| - |r|..]
      ensures |r| == limit || r == QueriesOf(queries, sessionId)
    {
      RecentWindowIsSuffix(QueriesOf(queries, sessionId), limit);
      RecentWindow(QueriesOf(queries, sessionId), limit)
    }

    /** `getRecentMessages`: at most `limit` messages, the most recent ones, oldest first. */
    function GetRecentMessages(sessionId: SessionId, limit: nat := RecentMessageLimit): (r: seq<Message>)
      reads this
      ensures |r| <= limit && |r| <= |MessagesOf(messages, sessionId)|
      ensures r == MessagesOf(messages, sessionId)[|MessagesOf(messages, sessionId)| - |r|..]
      ensures |r| == limit || r == MessagesOf(messages, sessionId)
    {
      RecentWindowIsSuffix(MessagesOf(messages, sessionId), limit);
      RecentWindow(MessagesOf(messages, sessionId), limit)
    }

    /** `getAllMessages`: every message of the session, oldest first. */
    function GetAllMessages(sessionId: SessionId): (r: seq<Message>)
      reads this
      ensures forall m :: m in r <==>
        exists i :: 0 <= i < |messages| && messages[i].sessionId == sessionId
          && m == Message(messages[i].role, messages[i].content)
    {
      MessagesOfMembers(messages, sessionId);
      MessagesOf(messages, sessionId)
    }

    /** `getFullContext`: all schemas, the last 5 queries and the last 10 messages. */
    function GetFullContext(sessionId: SessionId): (ctx: ChatContext)
      reads this
      ensures ctx.schemas == GetSchemas(sessionId)
      ensures |ctx.queries| <= RecentQueryLimit && |ctx.messages| <= RecentMessageLimit
      ensures |ctx.queries| <= |QueriesOf(queries, sessionId)| && |ctx.messages| <= |MessagesOf(messages, sessionId)|
      ensures ctx.queries == QueriesOf(queries, sessionId)[|QueriesOf(queries, sessionId)| - |ctx.queries|..]
      ensures ctx.messages == MessagesOf(messages, sessionId)[|MessagesOf(messages, sessionId)| - |ctx.messages|..]
      ensures ctx.messages == [] <==> MessagesOf(messages, sessionId) == []
      ensures |ctx.queries| == Min(RecentQueryLimit, |QueriesOf(queries, sessionId)|)
      ensures |ctx.messages| == Min(RecentMessageLimit, |MessagesOf(messages, sessionId)|)
    {
      var recent := GetRecentMessages(sessionId, RecentMessageLimit);
      assert |recent| == RecentMessageLimit || recent == MessagesOf(messages, sessionId);
      ChatContext(GetSchemas(sessionId), GetRecentQueries(sessionId, RecentQueryLimit), recent)
    }

    /** `autoGenerateChatTitle`: titles the chat after its first message. */
    method AutoGenerateChatTitle(sessionId: SessionId, firstMessage: string)
      requires Valid()
      modifies this
      ensures Valid()
      ensures sessions == Retitled(old(sessions), sessionId, AutoTitle(firstMessage), clock) && clock == old(clock) + 1
      ensures messages == old(messages) && schemas == old(schemas) && queries == old(queries)
    {
      var title := Utf16Prefix(firstMessage, TitleLength);
      if Utf16Length(firstMessage) > TitleLength {
        title := title + TitleEllipsis;
      }
      assert title == AutoTitle(firstMessage);
      UpdateChatTitle(sessionId, title);
    }
  }
}
