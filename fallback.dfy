/**
 * The generative fallback (`call_llm_fallback`, src/models/fallback.py):
 * guard on the client library and the API key, window and filter the chat
 * history, assemble the chat-completion request and return the stripped
 * answer, or `None` on any failure. The completion service is a function
 * parameter; the environment is a value.
 */
module Fallback {
  import opened Dicts

  /** Roles in a chat-completion request. */
  datatype Role = System | User | Assistant

  datatype RequestMessage = RequestMessage(role: Role, content: string)

  /** One chat-history entry as the caller passes it; `None` when a key is absent. */
  datatype HistoryEntry = HistoryEntry(role: Option<string>, content: Option<string>)

  /** Whether the client library imported, and the `OPENAI_API_KEY` variable. */
  datatype Environment = Environment(clientImported: bool, apiKey: Option<string>)

  /** What the completion call did: raised, or returned a message whose content may be null. */
  datatype CompletionReply = CompletionFailed | Completed(content: Option<string>)

  /** How many trailing history entries are considered. */
  const HistoryWindow: nat := 6

  const SystemPrompt: string :=
    "You are a cautious medical information assistant. Answer briefly and clearly in Persian (fa-IR). Include general educational information only. Always add a short disclaimer that this is not medical advice."

  /** Prefix of the topic message ("conversation topic: "). */
  const TopicPrefix: string := "موضوع گفتگو: "

  /** First line of the clinical message ("patient clinical information:"). */
  const ClinicalHeader: string := "اطلاعات بالینی بیمار:\n"

  // ---------------------------------------------------------------- history

  /** `chat_history[-6:]`. */
  function Window(history: seq<HistoryEntry>): (w: seq<HistoryEntry>)
    ensures |w| == if |history| < HistoryWindow then |history| else HistoryWindow
    ensures w == history[|history| - |w|..]
  {
    if |history| <= HistoryWindow then history else history[|history| - HistoryWindow..]
  }

  /** `m.get("role", "user")`. */
  function RoleOf(e: HistoryEntry): string
  {
    match e.role
    case None => "user"
    case Some(r) => r
  }

  /** Entries with any role other than "user" or "bot" are dropped. */
  predicate Kept(e: HistoryEntry)
  {
    RoleOf(e) == "user" || RoleOf(e) == "bot"
  }

  /** A kept entry as a request message: "bot" speaks as the assistant, missing content is "". */
  function Converted(e: HistoryEntry): RequestMessage
  {
    RequestMessage(if RoleOf(e) == "user" then User else Assistant,
                   match e.content case None => "" case Some(c) => c)
  }

  /** `recent_messages` after the loop has seen every entry of `entries`. */
  function Recent(entries: seq<HistoryEntry>): (r: seq<RequestMessage>)
    ensures |r| <= |entries|
    ensures forall i :: 0 <= i < |r| ==> r[i].role != System
  {
    if |entries| == 0 then []
    else
      var last := entries[|entries| - 1];
      Recent(entries[..|entries| - 1]) + (if Kept(last) then [Converted(last)] else [])
  }

  /** Filtering commutes with concatenation, so kept entries keep their order. */
  lemma {:induction false} RecentAppend(a: seq<HistoryEntry>, b: seq<HistoryEntry>)
    ensures Recent(a + b) == Recent(a) + Recent(b)
  {
    if |b| > 0 {
      var n := |b| - 1;
      assert (a + b)[..|a + b| - 1] == a + b[..n];
      assert (a + b)[|a + b| - 1] == b[n];
      RecentAppend(a, b[..n]);
    } else {
      assert a + b == a;
    }
  }

  /** An entry with any other role ("system" included) adds nothing to the request. */
  lemma RecentDrops(a: seq<HistoryEntry>, e: HistoryEntry)
    requires !Kept(e)
    ensures Recent(a + [e]) == Recent(a)
  {
    assert (a + [e])[..|a|] == a;
  }

  /** A "user" or "bot" entry adds exactly its converted message, at the end. */
  lemma RecentKeeps(a: seq<HistoryEntry>, e: HistoryEntry)
    requires Kept(e)
    ensures Recent(a + [e]) == Recent(a) + [Converted(e)]
  {
    assert (a + [e])[..|a|] == a;
  }

  /** When every entry has role "user" or "bot", each is converted in place. */
  lemma {:induction false} RecentAllKept(entries: seq<HistoryEntry>)
    requires forall i :: 0 <= i < |entries| ==> Kept(entries[i])
    ensures |Recent(entries)| == |entries|
    ensures forall i :: 0 <= i < |entries| ==> Recent(entries)[i] == Converted(entries[i])
  {
    if |entries| > 0 {
      RecentAllKept(entries[..|entries| - 1]);
    }
  }

  /** The request-history loop. */
  method RecentMessages(history: seq<HistoryEntry>) returns (recent: seq<RequestMessage>)
    ensures recent == Recent(Window(history))
  {
    var window := Window(history);
    recent := [];
    var i := 0;
    while i < |window|
      invariant 0 <= i <= |window|
      invariant recent == Recent(window[..i])
    {
      if Kept(window[i]) {
        recent := recent + [Converted(window[i])];
      }
      assert window[..i + 1][..i] == window[..i];
      i := i + 1;
    }
    assert window[..i] == window;
  }

  // -------------------------------------------------------------- clinical

  /** One line of the clinical block. */
  function Bullet(key: string, value: string): string
  {
    "- " + key + ": " + value + "\n"
  }

  /** The bullet lines for the entries of `data`, in dict order. */
  function Bullets(data: Dict<string, string>): string
  {
    if |data| == 0 then ""
    else
      var n := |data| - 1;
      Bullets(data[..n]) + Bullet(data[n].0, data[n].1)
  }

  /** The block for `a` followed by `b` is the block for `a` followed by the bullets of `b`. */
  lemma {:induction false} BulletsAppend(a: Dict<string, string>, b: Dict<string, string>)
    ensures Bullets(a + b) == Bullets(a) + Bullets(b)
  {
    if |b| > 0 {
      var n := |b| - 1;
      assert (a + b)[..|a + b| - 1] == a + b[..n];
      assert (a + b)[|a + b| - 1] == b[n];
      BulletsAppend(a, b[..n]);
    } else {
      assert a + b == a;
    }
  }

  /** A single entry becomes the one line `- key: value`. */
  lemma BulletsSingle(key: string, value: string)
    ensures Bullets([(key, value)]) == "- " + key + ": " + value + "\n"
  {
    assert [(key, value)][..0] == [];
  }

  /** `clinical_info`: the header line, then one bullet per entry. */
  function ClinicalInfo(data: Dict<string, string>): string
  {
    ClinicalHeader + Bullets(data)
  }

  /** The loop that accumulates `clinical_info`. */
  method ClinicalBlock(data: Dict<string, string>) returns (info: string)
    ensures info == ClinicalInfo(data)
    ensures info[..|ClinicalHeader|] == ClinicalHeader
  {
    info := ClinicalHeader;
    var i := 0;
    while i < |data|
      invariant 0 <= i <= |data|
      invariant info == ClinicalHeader + Bullets(data[..i])
    {
      var (key, value) := data[i];
      info := info + "- " + key + ": " + value + "\n";
      assert data[..i + 1][..i] == data[..i];
      i := i + 1;
    }
    assert data[..i] == data;
  }

  // ----------------------------------------------------------- the request

  /** The system messages that open the request. */
  function Preamble(conditionName: string, clinicalData: Option<Dict<string, string>>): seq<RequestMessage>
  {
    [RequestMessage(System, SystemPrompt)]
    + (if conditionName != "" then [RequestMessage(System, TopicPrefix + conditionName)] else [])
    + (if clinicalData.Some? && |clinicalData.value| > 0
       then [RequestMessage(System, ClinicalInfo(clinicalData.value))] else [])
  }

  /** The three kinds of system message start with different characters. */
  lemma OpeningsDiffer()
    ensures TopicPrefix[0] != ClinicalHeader[0] && TopicPrefix != SystemPrompt
  {
    assert TopicPrefix[0] == 'م' && ClinicalHeader[0] == 'ا';
    assert |TopicPrefix| < |SystemPrompt|;
  }

  /** The `messages` list sent to the completion service. */
  function BuildMessages(query: string, conditionName: string, history: seq<HistoryEntry>,
                         clinicalData: Option<Dict<string, string>>): seq<RequestMessage>
  {
    Preamble(conditionName, clinicalData) + Recent(Window(history)) + [RequestMessage(User, query)]
  }

  /** The system messages: the prompt, then the topic and the clinical message when present. */
  lemma PreambleShape(conditionName: string, clinicalData: Option<Dict<string, string>>)
    ensures var pre := Preamble(conditionName, clinicalData);
      && |pre| == 1 + (if conditionName != "" then 1 else 0)
                    + (if clinicalData.Some? && |clinicalData.value| > 0 then 1 else 0)
      && (forall i :: 0 <= i < |pre| ==> pre[i].role == System)
      && pre[0] == RequestMessage(System, SystemPrompt)
      && (RequestMessage(System, TopicPrefix + conditionName) in pre <==> conditionName != "")
      && (clinicalData.Some? && |clinicalData.value| > 0 ==>
            pre[|pre| - 1] == RequestMessage(System, ClinicalInfo(clinicalData.value)))
  {
    var topic := RequestMessage(System, TopicPrefix + conditionName);
    var pre := Preamble(conditionName, clinicalData);
    if conditionName == "" {
      OpeningsDiffer();
      assert topic.content == TopicPrefix;
      assert topic != pre[0];
      if clinicalData.Some? && |clinicalData.value| > 0 {
        assert ClinicalInfo(clinicalData.value)[0] == ClinicalHeader[0];
        assert topic != pre[1];
      }
    } else {
      assert pre[1] == topic;
    }
  }

  /**
   * The request is the system messages (see `PreambleShape`), then at most
   * six history messages, none of them a system message, then the query as a
   * user message; so the system messages are exactly the leading ones, and a
   * topic message is present exactly when the condition name is non-empty.
   */
  lemma MessageListShape(query: string, conditionName: string, history: seq<HistoryEntry>,
                         clinicalData: Option<Dict<string, string>>)
    ensures var r := BuildMessages(query, conditionName, history, clinicalData);
      var p := |Preamble(conditionName, clinicalData)|;
      var k := |Recent(Window(history))|;
      && |r| == p + k + 1
      && k <= HistoryWindow
      && r[..p] == Preamble(conditionName, clinicalData)
      && r[p..p + k] == Recent(Window(history))
      && r[|r| - 1] == RequestMessage(User, query)
    ensures var r := BuildMessages(query, conditionName, history, clinicalData);
      forall i :: 0 <= i < |r| ==> (r[i].role == System <==> i < |Preamble(conditionName, clinicalData)|)
    ensures RequestMessage(System, TopicPrefix + conditionName) in BuildMessages(query, conditionName, history, clinicalData)
      <==> conditionName != ""
  {
    var pre := Preamble(conditionName, clinicalData);
    var recent := Recent(Window(history));
    var tail := recent + [RequestMessage(User, query)];
    var r := BuildMessages(query, conditionName, history, clinicalData);
    PreambleShape(conditionName, clinicalData);
    assert r == pre + tail;
    assert r[..|pre|] == pre;
    assert r[|pre|..|pre| + |recent|] == recent;
    assert forall i :: 0 <= i < |tail| ==> tail[i].role != System;
    forall i | 0 <= i < |r| ensures r[i].role == System <==> i < |pre| {
      if i >= |pre| {
        assert r[i] == tail[i - |pre|];
      }
    }
    var topic := RequestMessage(System, TopicPrefix + conditionName);
    if topic in r {
      var i :| 0 <= i < |r| && r[i] == topic;
      assert i < |pre| && pre[i] == topic;
    }
  }

  // ---------------------------------------------------------------- answer

  /** Python's `str.isspace` for a single character. */
  predicate IsSpace(c: char)
  {
    || '\U{0009}' <= c <= '\U{000D}' || '\U{001C}' <= c <= '\U{0020}'
    || c == '\U{0085}' || c == '\U{00A0}' || c == '\U{1680}'
    || '\U{2000}' <= c <= '\U{200A}' || c == '\U{2028}' || c == '\U{2029}'
    || c == '\U{202F}' || c == '\U{205F}' || c == '\U{3000}'
  }

  /** `s` without its leading whitespace. */
  function TrimStart(s: string): (r: string)
    ensures |r| <= |s| && r == s[|s| - |r|..]
    ensures forall k :: 0 <= k < |s| - |r| ==> IsSpace(s[k])
    ensures |r| > 0 ==> !IsSpace(r[0])
  {
    if |s| > 0 && IsSpace(s[0]) then TrimStart(s[1..]) else s
  }

  /** `s` without its trailing whitespace. */
  function TrimEnd(s: string): (r: string)
    ensures |r| <= |s| && r == s[..|r|]
    ensures forall k :: |r| <= k < |s| ==> IsSpace(s[k])
    ensures |r| > 0 ==> !IsSpace(r[|r| - 1])
  {
    if |s| > 0 && IsSpace(s[|s| - 1]) then TrimEnd(s[..|s| - 1]) else s
  }

  /** `str.strip()`: what neither starts nor ends with whitespace once both ends are cut. */
  function Strip(s: string): (r: string)
    ensures |r| <= |s|
    ensures |r| == 0 || (!IsSpace(r[0]) && !IsSpace(r[|r| - 1]))
  {
    var u := TrimStart(s);
    var r := TrimEnd(u);
    assert |r| > 0 ==> r[0] == u[0];
    r
  }

  /** The stripped text is a slice of the input with only whitespace cut away on either side. */
  lemma StripSlice(s: string)
    ensures exists i, j :: 0 <= i <= j <= |s| && Strip(s) == s[i..j] &&
                           (forall k :: 0 <= k < i || j <= k < |s| ==> IsSpace(s[k]))
  {
    var u := TrimStart(s);
    var r := TrimEnd(u);
    var i := |s| - |u|;
    var j := i + |r|;
    assert r == s[i..j];
    forall k | j <= k < |s|
      ensures IsSpace(s[k])
    {
      assert s[k] == u[k - i];
    }
    assert Strip(s) == s[i..j];
  }

  /** Whitespace alone, the empty string included. */
  predicate Blank(s: string)
  {
    forall k :: 0 <= k < |s| ==> IsSpace(s[k])
  }

  /** Exactly the blank strings strip to the empty string. */
  lemma StripBlank(s: string)
    ensures Strip(s) == "" <==> Blank(s)
  {
    StripSlice(s);
  }

  /** The client library is there and the key is set and non-empty. */
  predicate HasCredentials(env: Environment)
  {
    env.clientImported && env.apiKey.Some? && env.apiKey.value != ""
  }

  /**
   * The result of `call_llm_fallback`. Without credentials no request is made;
   * a failed call or a null content yields `None`; nothing escapes as an error.
   */
  function FallbackAnswer(query: string, conditionName: string, history: seq<HistoryEntry>,
                          clinicalData: Option<Dict<string, string>>, env: Environment,
                          complete: seq<RequestMessage> -> CompletionReply): (r: Option<string>)
    ensures !HasCredentials(env) ==> r == None
    ensures var reply := complete(BuildMessages(query, conditionName, history, clinicalData));
      r.Some? <==> HasCredentials(env) && reply.Completed? && reply.content.Some?
    ensures var reply := complete(BuildMessages(query, conditionName, history, clinicalData));
      r.Some? ==> r.value == Strip(reply.content.value)
    ensures r.Some? ==> |r.value| == 0 || (!IsSpace(r.value[0]) && !IsSpace(r.value[|r.value| - 1]))
  {
    if !HasCredentials(env) then None
    else
      match complete(BuildMessages(query, conditionName, history, clinicalData))
      case CompletionFailed => None
      case Completed(None) => None
      case Completed(Some(text)) =>
        Some(Strip(text))
  }

  /**
   * The caller treats `None` and the empty string alike as no answer; that
   * happens exactly without credentials, on a failed or empty completion,
   * or when the reply is whitespace alone.
   */
  lemma NoAnswer(query: string, conditionName: string, history: seq<HistoryEntry>,
                 clinicalData: Option<Dict<string, string>>, env: Environment,
                 complete: seq<RequestMessage> -> CompletionReply)
    ensures var reply := complete(BuildMessages(query, conditionName, history, clinicalData));
            var r := FallbackAnswer(query, conditionName, history, clinicalData, env, complete);
            (r.None? || r.value == "") <==>
            (!HasCredentials(env) || !reply.Completed? || reply.content.None? || Blank(reply.content.value))
  {
    var reply := complete(BuildMessages(query, conditionName, history, clinicalData));
    if HasCredentials(env) && reply.Completed? && reply.content.Some? {
      StripBlank(reply.content.value);
    }
  }

  /** The request-building part of `call_llm_fallback`. */
  method AssembleRequest(query: string, conditionName: string, history: seq<HistoryEntry>,
                         clinicalData: Option<Dict<string, string>>)
    returns (messages: seq<RequestMessage>)
    ensures messages == BuildMessages(query, conditionName, history, clinicalData)
  {
    var recent := RecentMessages(history);
    messages := [RequestMessage(System, SystemPrompt)];
    if conditionName != "" {
      messages := messages + [RequestMessage(System, TopicPrefix + conditionName)];
    }
    if clinicalData.Some? && |clinicalData.value| > 0 {
      var info := ClinicalBlock(clinicalData.value);
      messages := messages + [RequestMessage(System, info)];
    }
    assert messages == Preamble(conditionName, clinicalData);
    messages := messages + recent + [RequestMessage(User, query)];
  }

  /** `call_llm_fallback`. */
  method CallLlmFallback(query: string, conditionName: string, history: seq<HistoryEntry>,
                         clinicalData: Option<Dict<string, string>>, env: Environment,
                         complete: seq<RequestMessage> -> CompletionReply)
    returns (answer: Option<string>)
    ensures answer == FallbackAnswer(query, conditionName, history, clinicalData, env, complete)
  {
    if !env.clientImported {
      return None;
    }
    if env.apiKey.None? || env.apiKey.value == "" {
      return None;
    }
    var messages := AssembleRequest(query, conditionName, history, clinicalData);
    var reply := complete(messages);
    match reply {
      case CompletionFailed => answer := None;
      case Completed(content) =>
        if content.None? {
          answer := None;
        } else {
          answer := Some(Strip(content.value));
        }
    }
  }

  /**
   * When the history already ends with the user's query (as the chat turn
   * passes it), the request carries that query twice: as the last history
   * message and as the final user message.
   */
  lemma QueryTwiceWhenHistoryEndsWithIt(query: string, conditionName: string, history: seq<HistoryEntry>,
                                        clinicalData: Option<Dict<string, string>>)
    requires |history| > 0 && history[|history| - 1] == HistoryEntry(Some("user"), Some(query))
    ensures var r := BuildMessages(query, conditionName, history, clinicalData);
      |r| >= 3 && r[|r| - 2] == r[|r| - 1] == RequestMessage(User, query)
  {
    var recent := Recent(Window(history));
    RecentEndsWithQuery(Window(history), query);
    var pre := Preamble(conditionName, clinicalData);
    var r := BuildMessages(query, conditionName, history, clinicalData);
    assert r == pre + recent + [RequestMessage(User, query)];
    assert r[|r| - 2] == recent[|recent| - 1];
  }

  /** A window ending with the user's query is filtered to messages ending with it. */
  lemma RecentEndsWithQuery(w: seq<HistoryEntry>, query: string)
    requires |w| > 0 && w[|w| - 1] == HistoryEntry(Some("user"), Some(query))
    ensures |Recent(w)| > 0 && Recent(w)[|Recent(w)| - 1] == RequestMessage(User, query)
  {
    var last := w[|w| - 1];
    assert Kept(last) && Converted(last) == RequestMessage(User, query);
    assert Recent(w) == Recent(w[..|w| - 1]) + [Converted(last)];
  }
}
