/**
 * The chat-history store (src/database/chat_db.py) as two tables: `sessions`,
 * keyed by session id, and `messages`, an append-only table whose rows get
 * AUTOINCREMENT ids. JSON columns hold the dictionaries themselves (`None` is
 * SQL NULL), and every `datetime.now()` is one tick of a counter clock.
 */
module ChatDb {
  import opened Dicts

  /** The four counters as the caller's stats dict or the stored columns hold them. */
  datatype Stats = Stats(totalQueries: int, highConfidence: int, mediumConfidence: int, lowConfidence: int)

  /** A row of the `sessions` table. */
  datatype SessionRow = SessionRow(
    conditionId: string,
    conditionName: string,
    clinicalData: Option<Dict<string, string>>,
    educationalNote: Option<Dict<string, string>>,
    stats: Stats,
    createdAt: nat,
    updatedAt: nat)

  /** A row of the `messages` table. */
  datatype MessageRow = MessageRow(
    messageId: nat,
    sessionId: string,
    role: string,
    content: string,
    confidenceLevel: Option<string>,
    createdAt: nat)

  /** The dict `get_session` returns. */
  datatype SessionView = SessionView(
    sessionId: string,
    conditionId: string,
    conditionName: string,
    clinicalData: Dict<string, string>,
    educationalNote: Option<Dict<string, string>>,
    stats: Stats,
    createdAt: nat,
    updatedAt: nat)

  /** A message dict as `get_messages` returns it. */
  datatype MessageView = MessageView(role: string, content: string, confidenceLevel: Option<string>, createdAt: nat)

  /** An entry of `list_all_sessions`. */
  datatype SessionSummary = SessionSummary(
    sessionId: string,
    conditionId: string,
    conditionName: string,
    preview: string,
    messageCount: nat,
    createdAt: nat,
    lastUpdated: nat,
    stats: Stats)

  datatype FullSession = FullSession(session: SessionView, messages: seq<MessageView>)

  const PreviewLength: nat := 50
  const NewChatLabel: string := "چت جدید"

  // ------------------------------------------------------------ sessions

  /** What `create_session` writes to a JSON column: a falsy dict becomes NULL. */
  function Stored(d: Option<Dict<string, string>>): Option<Dict<string, string>>
  {
    if d.Some? && |d.value| > 0 then d else None
  }

  /** `stats.get(key, 0)`. */
  function StatOr0(stats: Dict<string, int>, key: string): int
  {
    match Get(stats, key)
    case Some(v) => v
    case None => 0
  }

  /** The counters `update_session_stats` writes. */
  function StatsFrom(stats: Dict<string, int>): Stats
  {
    Stats(StatOr0(stats, "total_queries"), StatOr0(stats, "high_confidence"),
          StatOr0(stats, "medium_confidence"), StatOr0(stats, "low_confidence"))
  }

  /** The row `create_session` inserts at time `now`. */
  function NewRow(conditionId: string, conditionName: string, clinicalData: Option<Dict<string, string>>,
                  educationalNote: Option<Dict<string, string>>, now: nat): SessionRow
  {
    SessionRow(conditionId, conditionName, Stored(clinicalData), Stored(educationalNote),
               Stats(0, 0, 0, 0), now, now)
  }

  /** `get_session`'s reshaping: NULL clinical data reads as `{}`, the counters are nested. */
  function View(sessionId: string, row: SessionRow): SessionView
  {
    SessionView(sessionId, row.conditionId, row.conditionName,
                if row.clinicalData.Some? then row.clinicalData.value else [],
                row.educationalNote, row.stats, row.createdAt, row.updatedAt)
  }

  /**
   * A freshly created session reads back with zero counters and equal
   * timestamps; its clinical data reads back as given (`{}` when none was
   * given), and its note reads back exactly when a non-empty one was given.
   */
  lemma CreateThenView(sessionId: string, conditionId: string, conditionName: string,
                       clinicalData: Option<Dict<string, string>>, educationalNote: Option<Dict<string, string>>, now: nat)
    ensures var v := View(sessionId, NewRow(conditionId, conditionName, clinicalData, educationalNote, now));
      && v.stats == Stats(0, 0, 0, 0)
      && v.createdAt == v.updatedAt == now
      && v.clinicalData == (if clinicalData.Some? then clinicalData.value else [])
      && (v.educationalNote.Some? <==> educationalNote.Some? && educationalNote.value != [])
      && (v.educationalNote.Some? ==> v.educationalNote == educationalNote)
  {
    if clinicalData.Some? && |clinicalData.value| == 0 {
      assert clinicalData.value == [];
    }
  }

  /**
   * The counters written by `update_session_stats` are the caller's values,
   * with 0 for every key the dict lacks.
   */
  lemma StatsFromDefaults(stats: Dict<string, int>)
    ensures var s := StatsFrom(stats);
      && ("total_queries" in Keys(stats) ==> (("total_queries", s.totalQueries) in stats))
      && ("total_queries" !in Keys(stats) ==> s.totalQueries == 0)
      && ("high_confidence" in Keys(stats) ==> (("high_confidence", s.highConfidence) in stats))
      && ("high_confidence" !in Keys(stats) ==> s.highConfidence == 0)
      && ("medium_confidence" in Keys(stats) ==> (("medium_confidence", s.mediumConfidence) in stats))
      && ("medium_confidence" !in Keys(stats) ==> s.mediumConfidence == 0)
      && ("low_confidence" in Keys(stats) ==> (("low_confidence", s.lowConfidence) in stats))
      && ("low_confidence" !in Keys(stats) ==> s.lowConfidence == 0)
    ensures StatsFrom([]) == Stats(0, 0, 0, 0)
  {
  }

  // ------------------------------------------------------------ messages

  /** A stored message as `get_messages` returns it: an empty confidence level is omitted. */
  function ViewMessage(m: MessageRow): MessageView
  {
    MessageView(m.role, m.content,
                if m.confidenceLevel.Some? && m.confidenceLevel.value != "" then m.confidenceLevel else None,
                m.createdAt)
  }

  /** The messages of one session, in table order. */
  function MessagesOf(rows: seq<MessageRow>, sessionId: string): (r: seq<MessageView>)
    ensures |r| <= |rows|
  {
    if |rows| == 0 then []
    else
      var m := rows[|rows| - 1];
      MessagesOf(rows[..|rows| - 1], sessionId) + (if m.sessionId == sessionId then [ViewMessage(m)] else [])
  }

  /** Creation times strictly increase along the table. */
  ghost predicate Chronological(rows: seq<MessageRow>)
  {
    forall i, j :: 0 <= i < j < |rows| ==> rows[i].createdAt < rows[j].createdAt
  }

  /**
   * `get_messages` returns exactly the session's rows: each result is the
   * view of a row of that session, and every row of that session appears.
   */
  lemma {:induction false} MessagesOfExact(rows: seq<MessageRow>, sessionId: string)
    ensures forall v :: v in MessagesOf(rows, sessionId) ==>
      exists i :: 0 <= i < |rows| && rows[i].sessionId == sessionId && v == ViewMessage(rows[i])
    ensures forall i :: 0 <= i < |rows| && rows[i].sessionId == sessionId ==>
      ViewMessage(rows[i]) in MessagesOf(rows, sessionId)
  {
    if |rows| > 0 {
      var n := |rows| - 1;
      MessagesOfExact(rows[..n], sessionId);
      forall v | v in MessagesOf(rows, sessionId)
        ensures exists i :: 0 <= i < |rows| && rows[i].sessionId == sessionId && v == ViewMessage(rows[i])
      {
        if v in MessagesOf(rows[..n], sessionId) {
          var i :| 0 <= i < n && rows[..n][i].sessionId == sessionId && v == ViewMessage(rows[..n][i]);
          assert rows[i] == rows[..n][i];
        }
      }
      forall i | 0 <= i < |rows| && rows[i].sessionId == sessionId
        ensures ViewMessage(rows[i]) in MessagesOf(rows, sessionId)
      {
        if i < n {
          assert rows[..n][i] == rows[i];
        }
      }
    }
  }

  /** The messages are listed in strictly increasing creation time. */
  ghost predicate Ascending(vs: seq<MessageView>)
  {
    forall i, j :: 0 <= i < j < |vs| ==> vs[i].createdAt < vs[j].createdAt
  }

  /** Over a chronological table, `ORDER BY created_at ASC` is table order. */
  lemma {:induction false} MessagesOfChronological(rows: seq<MessageRow>, sessionId: string)
    requires Chronological(rows)
    ensures Ascending(MessagesOf(rows, sessionId))
    ensures forall v :: v in MessagesOf(rows, sessionId) ==>
      exists i :: 0 <= i < |rows| && v.createdAt == rows[i].createdAt
  {
    if |rows| > 0 {
      var n := |rows| - 1;
      assert Chronological(rows[..n]);
      MessagesOfChronological(rows[..n], sessionId);
      var prefix := MessagesOf(rows[..n], sessionId);
      forall v | v in prefix ensures v.createdAt < rows[n].createdAt {
        var i :| 0 <= i < |rows[..n]| && v.createdAt == rows[..n][i].createdAt;
        assert rows[..n][i] == rows[i];
      }
      var r := MessagesOf(rows, sessionId);
      assert r == prefix + (if rows[n].sessionId == sessionId then [ViewMessage(rows[n])] else []);
      forall i, j | 0 <= i < j < |r| ensures r[i].createdAt < r[j].createdAt {
        if j >= |prefix| {
          assert r[i] == prefix[i] && prefix[i] in prefix;
          assert r[j].createdAt == rows[n].createdAt;
        } else {
          assert r[i] == prefix[i] && r[j] == prefix[j];
        }
      }
      forall v | v in MessagesOf(rows, sessionId)
        ensures exists i :: 0 <= i < |rows| && v.createdAt == rows[i].createdAt
      {
        if v in prefix {
          var i :| 0 <= i < |rows[..n]| && v.createdAt == rows[..n][i].createdAt;
          assert rows[..n][i] == rows[i];
        } else {
          assert v.createdAt == rows[n].createdAt;
        }
      }
    }
  }

  /** Appending a row adds it to its own session's messages and to no other's. */
  lemma MessagesOfAppend(rows: seq<MessageRow>, m: MessageRow, sessionId: string)
    ensures MessagesOf(rows + [m], sessionId) ==
      MessagesOf(rows, sessionId) + (if m.sessionId == sessionId then [ViewMessage(m)] else [])
  {
    assert (rows + [m])[..|rows|] == rows;
  }

  /** The first user message of the session in table order, if any. */
  function FirstUserMessage(rows: seq<MessageRow>, sessionId: string): Option<string>
  {
    if |rows| == 0 then None
    else if rows[0].sessionId == sessionId && rows[0].role == "user" then Some(rows[0].content)
    else FirstUserMessage(rows[1..], sessionId)
  }

  /** `content[:max_length] if len(content) > max_length else content`. */
  function Truncate(content: string, maxLength: nat): (r: string)
    ensures |r| <= maxLength && |r| <= |content|
    ensures r == content[..|r|]
    ensures |content| <= maxLength ==> r == content
    ensures |content| > maxLength ==> r == content[..maxLength]
  {
    if |content| > maxLength then content[..maxLength] else content
  }

  /** `_get_session_preview`. */
  function Preview(rows: seq<MessageRow>, sessionId: string, maxLength: nat): (r: Option<string>)
    ensures r.Some? <==> FirstUserMessage(rows, sessionId).Some?
    ensures r.Some? ==> |r.value| <= maxLength && |r.value| <= |FirstUserMessage(rows, sessionId).value| &&
                        r.value == FirstUserMessage(rows, sessionId).value[..|r.value|]
    ensures r.Some? ==> r.value == Truncate(FirstUserMessage(rows, sessionId).value, maxLength)
  {
    match FirstUserMessage(rows, sessionId)
    case None => None
    case Some(content) => Some(Truncate(content, maxLength))
  }

  /**
   * The preview is the first user message of the session, cut to at most
   * `maxLength` characters; there is none exactly when the session has no
   * user message.
   */
  lemma {:induction false} PreviewIsFirstUserMessage(rows: seq<MessageRow>, sessionId: string, maxLength: nat)
    ensures Preview(rows, sessionId, maxLength).None? <==>
      forall i :: 0 <= i < |rows| ==> !(rows[i].sessionId == sessionId && rows[i].role == "user")
    ensures Preview(rows, sessionId, maxLength).Some? ==>
      exists i :: 0 <= i < |rows| && rows[i].sessionId == sessionId && rows[i].role == "user"
        && (forall j :: 0 <= j < i ==> !(rows[j].sessionId == sessionId && rows[j].role == "user"))
        && Preview(rows, sessionId, maxLength).value == Truncate(rows[i].content, maxLength)
  {
    if |rows| > 0 && !(rows[0].sessionId == sessionId && rows[0].role == "user") {
      PreviewIsFirstUserMessage(rows[1..], sessionId, maxLength);
      assert forall i :: 1 <= i < |rows| ==> rows[i] == rows[1..][i - 1];
      if Preview(rows, sessionId, maxLength).Some? {
        var i :| 0 <= i < |rows[1..]| && rows[1..][i].sessionId == sessionId && rows[1..][i].role == "user"
          && (forall j :: 0 <= j < i ==> !(rows[1..][j].sessionId == sessionId && rows[1..][j].role == "user"))
          && Preview(rows[1..], sessionId, maxLength).value == Truncate(rows[1..][i].content, maxLength);
        assert forall j :: 1 <= j < i + 1 ==> rows[j] == rows[1..][j - 1];
        assert rows[i + 1] == rows[1..][i];
      }
    }
  }

  /** `preview or 'چت جدید'`: a missing or empty preview shows the new-chat label. */
  function PreviewLabel(preview: Option<string>): (shown: string)
    ensures shown != ""
    ensures shown == NewChatLabel <==> !(preview.Some? && preview.value != "") || preview.value == NewChatLabel
    ensures preview.Some? && preview.value != "" ==> shown == preview.value
  {
    if preview.Some? && preview.value != "" then preview.value else NewChatLabel
  }

  /** One entry of `list_all_sessions`. */
  function SummaryOf(sessionId: string, row: SessionRow, rows: seq<MessageRow>): SessionSummary
  {
    SessionSummary(sessionId, row.conditionId, row.conditionName,
                   PreviewLabel(Preview(rows, sessionId, PreviewLength)),
                   |MessagesOf(rows, sessionId)|, row.createdAt, row.updatedAt, row.stats)
  }

  /** `ORDER BY updated_at DESC`. */
  ghost predicate NewestFirst(s: seq<SessionSummary>)
  {
    forall i, j :: 0 <= i < j < |s| ==> s[i].lastUpdated >= s[j].lastUpdated
  }

  function Ids(s: seq<SessionSummary>): set<string>
  {
    set i | 0 <= i < |s| :: s[i].sessionId
  }

  ghost predicate DistinctIds(s: seq<SessionSummary>)
  {
    forall i, j :: 0 <= i < j < |s| ==> s[i].sessionId != s[j].sessionId
  }

  /** `p` is where `x` goes in a newest-first list: after every entry at least as recent. */
  ghost predicate InsertionPoint(s: seq<SessionSummary>, x: SessionSummary, p: int)
  {
    && 0 <= p <= |s|
    && (forall i :: 0 <= i < p ==> s[i].lastUpdated >= x.lastUpdated)
    && (p < |s| ==> s[p].lastUpdated < x.lastUpdated)
  }

  /** `s` with `x` inserted at position `p`. */
  function Inserted(s: seq<SessionSummary>, x: SessionSummary, p: int): (t: seq<SessionSummary>)
    requires 0 <= p <= |s|
    ensures |t| == |s| + 1 && t[p] == x
    ensures forall i :: 0 <= i < p ==> t[i] == s[i]
    ensures forall i :: p < i < |t| ==> t[i] == s[i - 1]
    ensures multiset(t) == multiset(s) + multiset{x}
  {
    assert s == s[..p] + s[p..];
    s[..p] + [x] + s[p..]
  }

  /** Inserting at the insertion point keeps the list newest first. */
  lemma InsertKeepsOrder(s: seq<SessionSummary>, x: SessionSummary, p: int)
    requires NewestFirst(s) && InsertionPoint(s, x, p)
    ensures NewestFirst(Inserted(s, x, p))
  {
    var t := Inserted(s, x, p);
    forall i, j | 0 <= i < j < |t| ensures t[i].lastUpdated >= t[j].lastUpdated {
      if j == p {
      } else if i == p {
        assert s[p].lastUpdated >= s[j - 1].lastUpdated || j - 1 == p;
      } else if i < p && j > p {
        assert s[i].lastUpdated >= x.lastUpdated;
      }
    }
  }

  /** Inserting adds exactly `x`'s id, and a new id keeps the ids distinct. */
  lemma InsertIds(s: seq<SessionSummary>, x: SessionSummary, p: int)
    requires 0 <= p <= |s|
    ensures Ids(Inserted(s, x, p)) == Ids(s) + {x.sessionId}
    ensures DistinctIds(s) && x.sessionId !in Ids(s) ==> DistinctIds(Inserted(s, x, p))
  {
    var t := Inserted(s, x, p);
    forall k | k in Ids(t) ensures k in Ids(s) + {x.sessionId} {
      var i :| 0 <= i < |t| && t[i].sessionId == k;
      if i < p { assert s[i].sessionId == k; } else if i > p { assert s[i - 1].sessionId == k; }
    }
    forall k | k in Ids(s) + {x.sessionId} ensures k in Ids(t) {
      if k == x.sessionId {
        assert t[p].sessionId == k;
      } else {
        var i :| 0 <= i < |s| && s[i].sessionId == k;
        if i < p { assert t[i].sessionId == k; } else { assert t[i + 1].sessionId == k; }
      }
    }
    if DistinctIds(s) && x.sessionId !in Ids(s) {
      forall i, j | 0 <= i < j < |t| ensures t[i].sessionId != t[j].sessionId {
        if i == p {
          assert t[j] == s[j - 1];
        } else if j == p {
          assert t[i] == s[i];
        } else {
          var i' := if i < p then i else i - 1;
          var j' := if j < p then j else j - 1;
          assert t[i] == s[i'] && t[j] == s[j'] && i' < j';
        }
      }
    }
  }

  /** Places `x` after every entry at least as recent, as `ORDER BY updated_at DESC` would. */
  method InsertNewestFirst(s: seq<SessionSummary>, x: SessionSummary) returns (t: seq<SessionSummary>)
    requires NewestFirst(s)
    ensures NewestFirst(t)
    ensures exists p :: InsertionPoint(s, x, p) && t == Inserted(s, x, p)
    ensures multiset(t) == multiset(s) + multiset{x}
    ensures Ids(t) == Ids(s) + {x.sessionId}
    ensures DistinctIds(s) && x.sessionId !in Ids(s) ==> DistinctIds(t)
  {
    var p := 0;
    while p < |s| && s[p].lastUpdated >= x.lastUpdated
      invariant 0 <= p <= |s|
      invariant forall i :: 0 <= i < p ==> s[i].lastUpdated >= x.lastUpdated
    {
      p := p + 1;
    }
    InsertKeepsOrder(s, x, p);
    InsertIds(s, x, p);
    t := Inserted(s, x, p);
  }


  // ----------------------------------------------------------- the store

  /** A `ChatDatabase` over its two tables. */
  class ChatDatabase {
    var sessions: map<string, SessionRow>
    var messages: seq<MessageRow>
    /** The AUTOINCREMENT counter: the id the next inserted message gets. */
    var nextMessageId: nat
    /** The last timestamp handed out. */
    var clock: nat

    /** Ids and creation times increase along the table and nothing lies in the future. */
    ghost predicate Valid()
      reads this
    {
      && (forall i, j :: 0 <= i < j < |messages| ==> messages[i].messageId < messages[j].messageId)
      && Chronological(messages)
      && (forall i :: 0 <= i < |messages| ==> messages[i].messageId < nextMessageId && messages[i].createdAt <= clock)
      && (forall k :: k in sessions ==> sessions[k].createdAt <= sessions[k].updatedAt <= clock)
    }

    /** `_init_database` on a new file: two empty tables. */
    constructor ()
      ensures Valid()
      ensures sessions == map[] && messages == [] && nextMessageId == 1 && clock == 0
    {
      sessions := map[];
      messages := [];
      nextMessageId := 1;
      clock := 0;
    }

    /** `datetime.now()`: a timestamp later than every earlier one. */
    method Now() returns (now: nat)
      modifies this`clock
      ensures clock == old(clock) + 1 && now == clock
    {
      clock := clock + 1;
      now := clock;
    }

    /**
     * `create_session`: refused, with nothing inserted, when the id is taken;
     * otherwise a row with zero counters and `created_at == updated_at`.
     */
    method CreateSession(sessionId: string, conditionId: string, conditionName: string,
                         clinicalData: Option<Dict<string, string>>, educationalNote: Option<Dict<string, string>>)
      returns (created: bool)
      requires Valid()
      modifies this`sessions, this`clock
      ensures Valid()
      ensures clock == old(clock) + 1
      ensures created <==> sessionId !in old(sessions)
      ensures !created ==> sessions == old(sessions)
      ensures created ==>
        sessions == old(sessions)[sessionId := NewRow(conditionId, conditionName, clinicalData, educationalNote, clock)]
    {
      var now := Now();
      if sessionId in sessions {
        return false;
      }
      sessions := sessions[sessionId := NewRow(conditionId, conditionName, clinicalData, educationalNote, now)];
      created := true;
    }

    /** `get_session`. */
    method GetSession(sessionId: string) returns (session: Option<SessionView>)
      ensures session.None? <==> sessionId !in sessions
      ensures session.Some? ==> session.value == View(sessionId, sessions[sessionId])
    {
      if sessionId !in sessions {
        return None;
      }
      session := Some(View(sessionId, sessions[sessionId]));
    }

    /** `update_session_stats`: overwrites the counters of that one row, if it exists. */
    method UpdateSessionStats(sessionId: string, stats: Dict<string, int>)
      requires Valid()
      modifies this`sessions, this`clock
      ensures Valid()
      ensures clock == old(clock) + 1
      ensures sessionId !in old(sessions) ==> sessions == old(sessions)
      ensures sessionId in old(sessions) ==>
        sessions == old(sessions)[sessionId := old(sessions)[sessionId].(stats := StatsFrom(stats), updatedAt := clock)]
    {
      var now := Now();
      if sessionId in sessions {
        sessions := sessions[sessionId := sessions[sessionId].(stats := StatsFrom(stats), updatedAt := now)];
      }
    }

    /** `update_session_educational_note`: the note is stored as given, even when empty. */
    method UpdateSessionEducationalNote(sessionId: string, educationalNote: Dict<string, string>)
      requires Valid()
      modifies this`sessions, this`clock
      ensures Valid()
      ensures clock == old(clock) + 1
      ensures sessionId !in old(sessions) ==> sessions == old(sessions)
      ensures sessionId in old(sessions) ==>
        sessions == old(sessions)[sessionId := old(sessions)[sessionId].(educationalNote := Some(educationalNote), updatedAt := clock)]
    {
      var now := Now();
      if sessionId in sessions {
        sessions := sessions[sessionId := sessions[sessionId].(educationalNote := Some(educationalNote), updatedAt := now)];
      }
    }

    /** `update_session_updated_at`. */
    method UpdateSessionUpdatedAt(sessionId: string)
      requires Valid()
      modifies this`sessions, this`clock
      ensures Valid()
      ensures clock == old(clock) + 1
      ensures sessionId !in old(sessions) ==> sessions == old(sessions)
      ensures sessionId in old(sessions) ==>
        sessions == old(sessions)[sessionId := old(sessions)[sessionId].(updatedAt := clock)]
    {
      var now := Now();
      if sessionId in sessions {
        sessions := sessions[sessionId := sessions[sessionId].(updatedAt := now)];
      }
    }

    /** `update_session_clinical_data`. */
    method UpdateSessionClinicalData(sessionId: string, clinicalData: Dict<string, string>)
      requires Valid()
      modifies this`sessions, this`clock
      ensures Valid()
      ensures clock == old(clock) + 1
      ensures sessionId !in old(sessions) ==> sessions == old(sessions)
      ensures sessionId in old(sessions) ==>
        sessions == old(sessions)[sessionId := old(sessions)[sessionId].(clinicalData := Some(clinicalData), updatedAt := clock)]
    {
      var now := Now();
      if sessionId in sessions {
        sessions := sessions[sessionId := sessions[sessionId].(clinicalData := Some(clinicalData), updatedAt := now)];
      }
    }

    /**
     * `add_message`: appends a row with a fresh id larger than every stored
     * id, then moves the session's `updated_at` past the message's time. The
     * session is not required to exist.
     */
    method AddMessage(sessionId: string, role: string, content: string, confidenceLevel: Option<string>)
      returns (messageId: nat)
      requires Valid()
      modifies this
      ensures Valid()
      ensures messageId == old(nextMessageId) && nextMessageId == messageId + 1
      ensures forall i :: 0 <= i < |old(messages)| ==> old(messages)[i].messageId < messageId
      ensures messages == old(messages) + [MessageRow(messageId, sessionId, role, content, confidenceLevel, old(clock) + 1)]
      ensures clock == old(clock) + 2
      ensures sessionId !in old(sessions) ==> sessions == old(sessions)
      ensures sessionId in old(sessions) ==>
        sessions == old(sessions)[sessionId := old(sessions)[sessionId].(updatedAt := clock)]
    {
      var now := Now();
      messageId := nextMessageId;
      messages := messages + [MessageRow(messageId, sessionId, role, content, confidenceLevel, now)];
      nextMessageId := nextMessageId + 1;
      UpdateSessionUpdatedAt(sessionId);
    }

    /** `get_messages`: the session's messages in creation order. */
    method GetMessages(sessionId: string) returns (result: seq<MessageView>)
      ensures result == MessagesOf(messages, sessionId)
      ensures Valid() ==> Ascending(result)
    {
      result := [];
      var i := 0;
      while i < |messages|
        invariant 0 <= i <= |messages|
        invariant result == MessagesOf(messages[..i], sessionId)
      {
        var row := messages[i];
        if row.sessionId == sessionId {
          var message := MessageView(row.role, row.content, None, row.createdAt);
          if row.confidenceLevel.Some? && row.confidenceLevel.value != "" {
            message := message.(confidenceLevel := row.confidenceLevel);
          }
          result := result + [message];
        }
        assert messages[..i + 1][..i] == messages[..i];
        i := i + 1;
      }
      assert messages[..i] == messages;
      if Valid() {
        MessagesOfChronological(messages, sessionId);
      }
    }

    /** `_get_session_preview`: the first user message of the session, cut to `maxLength`. */
    method GetSessionPreview(sessionId: string, maxLength: nat) returns (preview: Option<string>)
      ensures preview == Preview(messages, sessionId, maxLength)
    {
      var i := 0;
      while i < |messages|
        invariant 0 <= i <= |messages|
        invariant FirstUserMessage(messages[i..], sessionId) == FirstUserMessage(messages, sessionId)
      {
        if messages[i].sessionId == sessionId && messages[i].role == "user" {
          var content := messages[i].content;
          return Some(if |content| > maxLength then content[..maxLength] else content);
        }
        assert messages[i..][1..] == messages[i + 1..];
        i := i + 1;
      }
      preview := None;
    }

    /** One entry of `list_all_sessions`: the row's columns, the message count and the preview. */
    method Summarise(sessionId: string) returns (summary: SessionSummary)
      requires sessionId in sessions
      ensures summary == SummaryOf(sessionId, sessions[sessionId], messages)
    {
      var row := sessions[sessionId];
      var preview := GetSessionPreview(sessionId, PreviewLength);
      var shown := if preview.Some? && preview.value != "" then preview.value else NewChatLabel;
      var rows := GetMessages(sessionId);
      summary := SessionSummary(sessionId, row.conditionId, row.conditionName, shown, |rows|,
                                row.createdAt, row.updatedAt, row.stats);
    }

    /**
     * `list_all_sessions`: one summary per stored session, newest first. The
     * rows come out of the map in no fixed order and each is placed after
     * every summary at least as recent.
     */
    method ListAllSessions() returns (result: seq<SessionSummary>)
      ensures NewestFirst(result)
      ensures Ids(result) == sessions.Keys
      ensures DistinctIds(result)
      ensures forall i :: 0 <= i < |result| ==>
        result[i].sessionId in sessions
        && result[i] == SummaryOf(result[i].sessionId, sessions[result[i].sessionId], messages)
    {
      result := [];
      var remaining := sessions.Keys;
      while remaining != {}
        invariant remaining <= sessions.Keys
        invariant NewestFirst(result)
        invariant Ids(result) == sessions.Keys - remaining
        invariant DistinctIds(result)
        invariant forall i :: 0 <= i < |result| ==>
          result[i].sessionId in sessions
          && result[i] == SummaryOf(result[i].sessionId, sessions[result[i].sessionId], messages)
        decreases remaining
      {
        var k :| k in remaining;
        var summary := Summarise(k);
        assert k !in Ids(result);
        result := InsertNewestFirst(result, summary);
        remaining := remaining - {k};
      }
    }

    /**
     * `delete_session`: reports whether the row existed and removes it; the
     * session's messages stay in the table.
     */
    method DeleteSession(sessionId: string) returns (deleted: bool)
      requires Valid()
      modifies this`sessions
      ensures Valid()
      ensures deleted <==> sessionId in old(sessions)
      ensures sessions == old(sessions) - {sessionId}
    {
      deleted := sessionId in sessions;
      sessions := sessions - {sessionId};
    }

    /** `get_full_session`: the session and its messages, or `None` for an unknown id. */
    method GetFullSession(sessionId: string) returns (full: Option<FullSession>)
      ensures full.None? <==> sessionId !in sessions
      ensures full.Some? ==>
        full.value == FullSession(View(sessionId, sessions[sessionId]), MessagesOf(messages, sessionId))
    {
      var session := GetSession(sessionId);
      if session.None? {
        return None;
      }
      var rows := GetMessages(sessionId);
      full := Some(FullSession(session.value, rows));
    }
  }
}
