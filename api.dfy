/**
 * The REST layer's session logic (api.py): the in-memory `sessions` store,
 * starting a chat, one query turn, replacing clinical data, reading the
 * statistics, deleting a session and the stand-alone educational-note
 * endpoint. The retrieval handler, the vector store read, the note generator
 * and the completion service are inputs.
 */
module Api {
  import opened Dicts
  import Registry
  import ClinicalKeys
  import Fallback

  // ------------------------------------------------------------------ data

  datatype Confidence = HighConfidence | MediumConfidence | LowConfidence

  /** The label stored on bot messages and returned to the client. */
  function Label(c: Confidence): string
  {
    match c
    case HighConfidence => "high-confidence"
    case MediumConfidence => "medium-confidence"
    case LowConfidence => "low-confidence"
  }

  /** A message in a session's log; bot messages carry a confidence label. */
  datatype ChatMessage = ChatMessage(role: string, content: string, confidenceLevel: Option<string>)

  datatype Stats = Stats(totalQueries: nat, highConfidence: nat, mediumConfidence: nat, lowConfidence: nat)

  const ZeroStats: Stats := Stats(0, 0, 0, 0)

  /** Every query was counted under exactly one confidence level. */
  predicate Balanced(s: Stats)
  {
    s.totalQueries == s.highConfidence + s.mediumConfidence + s.lowConfidence
  }

  datatype EducationalNote = EducationalNote(condition: string, conditionName: string, note: string)

  datatype Session = Session(
    sessionId: string,
    currentCondition: string,
    conditionName: string,
    messages: seq<ChatMessage>,
    stats: Stats,
    clinicalData: Dict<string, string>,
    educationalNote: Option<EducationalNote>,
    createdAt: string)

  /** The HTTP errors the endpoints raise; `InternalError` is the catch-all 500. */
  datatype HttpError = BadRequest(detail: string) | NotFound(detail: string) | InternalError

  datatype Result<T> = Success(value: T) | Failure(error: HttpError)

  const SessionNotFound: HttpError := NotFound("Session not found")

  function InvalidCondition(conditionId: string): HttpError
  {
    BadRequest("Invalid condition_id: " + conditionId)
  }

  /** What the retrieval handler returned; fields a response type does not use are ignored. */
  datatype HandlerResponse = HandlerResponse(
    responseType: string,
    answer: string,
    followUp: Option<string>,
    message: string,
    detectedConditionName: string,
    suggestion: string)

  /** `handler.handle_user_query` either raises or returns a response. */
  datatype HandlerOutcome = HandlerRaised | Responded(response: HandlerResponse)

  datatype StartChatRequest = StartChatRequest(
    conditionId: string,
    clinicalData: Option<Dict<string, string>>,
    generateEducationalNote: bool)

  datatype StartReply = StartReply(
    sessionId: string,
    conditionId: string,
    conditionName: string,
    educationalNote: Option<EducationalNote>)

  datatype NoteReply = NoteReply(conditionId: string, conditionName: string, note: string)

  datatype QueryReply = QueryReply(message: string, confidenceLevel: string, responseType: string, stats: Stats)

  datatype History = History(
    currentCondition: string,
    conditionName: string,
    messages: seq<ChatMessage>,
    stats: Stats,
    educationalNote: Option<EducationalNote>)

  /** `DEFAULT_CLINICAL_DATA`. */
  const DefaultClinicalData: Dict<string, string> := [
    ("سن", "45 سال"),
    ("جنسیت", "مرد"),
    ("وزن", "78 کیلوگرم"),
    ("قد", "175 سانتی\U{200C}متر"),
    ("فشار خون", "140/90 mmHg"),
    ("قند خون ناشتا", "95 mg/dL"),
    ("کلسترول", "220 mg/dL"),
    ("داروهای فعلی", "متفورمین 500mg"),
    ("سابقه بیماری", "فشار خون بالا")
  ]

  const FollowUpSeparator: string := "\n\n\U{1F914} "
  const MismatchPrefix: string := "\U{26A0}\U{FE0F} "
  const DetectedConditionPrefix: string := "بیماری تشخیص داده شده: **"
  const FallbackApology: string :=
    "\U{274C} متأسفم، جواب دقیقی در اطلاعات موجود پیدا نکردم.\n\n"
    + "\U{1F4A1} می\U{200C}توانید سوال خود را واضح\U{200C}تر بپرسید یا از کلمات دیگری استفاده کنید."
  const ProcessingError: string := "\U{274C} خطا در پردازش سوال"

  /** Python truthiness of an optional string. */
  predicate Truthy(s: Option<string>)
  {
    s.Some? && s.value != ""
  }

  // ------------------------------------------------------------ start chat

  /** `request.clinical_data or DEFAULT_CLINICAL_DATA`, then the key conversion. */
  function InitialClinicalData(requested: Option<Dict<string, string>>): Dict<string, string>
  {
    var data := if requested.Some? && |requested.value| > 0 then requested.value else DefaultClinicalData;
    ClinicalKeys.Normalise(data)
  }

  /** The default data is already keyed in Persian, so it is stored exactly as written. */
  lemma DefaultDataUnchanged()
    ensures InitialClinicalData(None) == DefaultClinicalData
    ensures InitialClinicalData(Some([])) == DefaultClinicalData
  {
    assert DefaultClinicalData[0].0 == ClinicalKeys.AgeKey;
  }

  /** The note stored on a new session: only when requested and the generator returned text. */
  function NoteFor(request: StartChatRequest, conditionName: string, generated: Option<string>): Option<EducationalNote>
  {
    if request.generateEducationalNote && Truthy(generated)
    then Some(EducationalNote(request.conditionId, conditionName, generated.value))
    else None
  }

  // ------------------------------------------------------------- one turn

  /** Response types that bump one of the three confidence counters. */
  predicate KnownType(responseType: string)
  {
    responseType in {"direct_answer", "clarification", "condition_mismatch", "llm_fallback"}
  }

  datatype BotReply = BotReply(message: string, confidence: Confidence)

  /** The bot message and its confidence for a handler response and the fallback's text. */
  function ReplyFor(response: HandlerResponse, llmText: Option<string>): (reply: BotReply)
    ensures reply.confidence == HighConfidence <==> response.responseType == "direct_answer"
    ensures reply.confidence == LowConfidence <==>
      !KnownType(response.responseType) || (response.responseType == "llm_fallback" && !Truthy(llmText))
    ensures response.responseType == "direct_answer" ==>
      && |response.answer| <= |reply.message|
      && reply.message[..|response.answer|] == response.answer
      && (Truthy(response.followUp) <==> |reply.message| > |response.answer|)
      && (Truthy(response.followUp) ==>
            |response.followUp.value| <= |reply.message|
            && reply.message[|reply.message| - |response.followUp.value|..] == response.followUp.value)
    ensures response.responseType == "direct_answer" ==>
      reply.message == response.answer +
        (if Truthy(response.followUp) then FollowUpSeparator + response.followUp.value else "")
    ensures response.responseType == "clarification" ==> reply.message == response.message
    ensures response.responseType == "condition_mismatch" ==>
      reply.message == MismatchPrefix + response.message + "\n\n"
                       + DetectedConditionPrefix + response.detectedConditionName + "**\n\n"
                       + response.suggestion
    ensures response.responseType == "llm_fallback" ==>
      reply.message == if Truthy(llmText) then llmText.value else FallbackApology
    ensures !KnownType(response.responseType) ==> reply.message == ProcessingError
  {
    match response.responseType
    case "direct_answer" =>
      var m := if Truthy(response.followUp)
               then response.answer + FollowUpSeparator + response.followUp.value
               else response.answer;
      assert m[..|response.answer|] == response.answer;
      BotReply(m, HighConfidence)
    case "clarification" =>
      BotReply(response.message, MediumConfidence)
    case "condition_mismatch" =>
      BotReply(MismatchPrefix + response.message + "\n\n"
               + DetectedConditionPrefix + response.detectedConditionName + "**\n\n"
               + response.suggestion, MediumConfidence)
    case "llm_fallback" =>
      if Truthy(llmText) then BotReply(llmText.value, MediumConfidence)
      else BotReply(FallbackApology, LowConfidence)
    case _ =>
      BotReply(ProcessingError, LowConfidence)
  }

  /** The statistics after one answered query. */
  function StatsAfter(stats: Stats, responseType: string, llmText: Option<string>): Stats
  {
    var counted := stats.(totalQueries := stats.totalQueries + 1);
    match responseType
    case "direct_answer" => counted.(highConfidence := counted.highConfidence + 1)
    case "clarification" => counted.(mediumConfidence := counted.mediumConfidence + 1)
    case "condition_mismatch" => counted.(mediumConfidence := counted.mediumConfidence + 1)
    case "llm_fallback" =>
      if Truthy(llmText) then counted.(mediumConfidence := counted.mediumConfidence + 1)
      else counted.(lowConfidence := counted.lowConfidence + 1)
    case _ => counted
  }

  function UserMessage(query: string): ChatMessage
  {
    ChatMessage("user", query, None)
  }

  function BotMessage(reply: BotReply): ChatMessage
  {
    ChatMessage("bot", reply.message, Some(Label(reply.confidence)))
  }

  /** The session log as the fallback sees it: every message has a role and a content. */
  function AsHistory(messages: seq<ChatMessage>): (h: seq<Fallback.HistoryEntry>)
    ensures |h| == |messages|
    ensures forall i :: 0 <= i < |h| ==>
      h[i] == Fallback.HistoryEntry(Some(messages[i].role), Some(messages[i].content))
  {
    seq(|messages|, i requires 0 <= i < |messages| =>
      Fallback.HistoryEntry(Some(messages[i].role), Some(messages[i].content)))
  }

  /**
   * `call_llm_fallback` as `query_chat` sees it: from the query, the condition
   * name, the session log and the clinical data to the answer text, if any.
   */
  type LlmFallback = (string, string, seq<Fallback.HistoryEntry>, Option<Dict<string, string>>) -> Option<string>

  /** The fallback of the deployed system: `call_llm_fallback` with its environment and completion client. */
  function DeployedFallback(env: Fallback.Environment,
                            complete: seq<Fallback.RequestMessage> -> Fallback.CompletionReply): LlmFallback
  {
    (query, conditionName, history, clinicalData) =>
      Fallback.FallbackAnswer(query, conditionName, history, clinicalData, env, complete)
  }

  /** The fallback's text for a turn: the log it is given already holds the query. */
  function FallbackText(s: Session, query: string, fallback: LlmFallback): Option<string>
  {
    fallback(query, s.conditionName, AsHistory(s.messages + [UserMessage(query)]), Some(s.clinicalData))
  }

  /** The session after a turn the handler answered. */
  function AfterTurn(s: Session, query: string, response: HandlerResponse, llmText: Option<string>): Session
  {
    var reply := ReplyFor(response, llmText);
    s.(messages := s.messages + [UserMessage(query), BotMessage(reply)],
       stats := StatsAfter(s.stats, response.responseType, llmText))
  }

  /**
   * A turn appends exactly the user's query and then one labelled bot message,
   * and changes nothing but the log and the statistics.
   */
  lemma TurnAppendsTwoMessages(s: Session, query: string, response: HandlerResponse, llmText: Option<string>)
    ensures var t := AfterTurn(s, query, response, llmText);
      && |t.messages| == |s.messages| + 2
      && t.messages[..|s.messages|] == s.messages
      && t.messages[|s.messages|] == ChatMessage("user", query, None)
      && t.messages[|s.messages| + 1] == BotMessage(ReplyFor(response, llmText))
      && t.messages[|s.messages| + 1].role == "bot"
      && t.messages[|s.messages| + 1].confidenceLevel
         == Some(Label(ReplyFor(response, llmText).confidence))
      && t.(messages := s.messages, stats := s.stats) == s
  {
  }

  /**
   * A turn counts one more query; a recognised response type bumps exactly one
   * confidence counter, the one matching the bot message's label; any other
   * type bumps none.
   */
  lemma TurnCounts(stats: Stats, response: HandlerResponse, llmText: Option<string>)
    ensures var n := StatsAfter(stats, response.responseType, llmText);
      var c := ReplyFor(response, llmText).confidence;
      && n.totalQueries == stats.totalQueries + 1
      && (KnownType(response.responseType) ==>
          && n.highConfidence == stats.highConfidence + (if c == HighConfidence then 1 else 0)
          && n.mediumConfidence == stats.mediumConfidence + (if c == MediumConfidence then 1 else 0)
          && n.lowConfidence == stats.lowConfidence + (if c == LowConfidence then 1 else 0))
      && (!KnownType(response.responseType) ==>
          n.(totalQueries := stats.totalQueries) == stats)
  {
  }

  /** Starting balanced, a turn stays balanced exactly when its response type is recognised. */
  lemma TurnKeepsBalance(stats: Stats, response: HandlerResponse, llmText: Option<string>)
    requires Balanced(stats)
    ensures Balanced(StatsAfter(stats, response.responseType, llmText)) <==> KnownType(response.responseType)
  {
    TurnCounts(stats, response, llmText);
  }

  /** One answered turn: the query, the handler's response and the fallback's text. */
  datatype Turn = Turn(query: string, response: HandlerResponse, llmText: Option<string>)

  function AfterTurns(s: Session, turns: seq<Turn>): Session
  {
    if |turns| == 0 then s
    else
      var last := turns[|turns| - 1];
      AfterTurn(AfterTurns(s, turns[..|turns| - 1]), last.query, last.response, last.llmText)
  }

  /**
   * Over any sequence of turns from a fresh session, the statistics stay
   * balanced when every response type is recognised, the query count equals
   * the number of turns, and the log holds two messages per turn.
   */
  lemma {:induction false} TurnsKeepBalance(s: Session, turns: seq<Turn>)
    requires Balanced(s.stats)
    requires forall i :: 0 <= i < |turns| ==> KnownType(turns[i].response.responseType)
    ensures Balanced(AfterTurns(s, turns).stats)
    ensures AfterTurns(s, turns).stats.totalQueries == s.stats.totalQueries + |turns|
    ensures |AfterTurns(s, turns).messages| == |s.messages| + 2 * |turns|
  {
    if |turns| > 0 {
      var last := turns[|turns| - 1];
      TurnsKeepBalance(s, turns[..|turns| - 1]);
      TurnKeepsBalance(AfterTurns(s, turns[..|turns| - 1]).stats, last.response, last.llmText);
    }
  }

  /**
   * On the fallback path the history handed to the completion request already
   * ends with the current query, so the request carries it twice.
   */
  lemma FallbackSeesQueryTwice(s: Session, query: string)
    ensures var r := Fallback.BuildMessages(query, s.conditionName,
                                            AsHistory(s.messages + [UserMessage(query)]), Some(s.clinicalData));
      |r| >= 3 && r[|r| - 2] == r[|r| - 1] == Fallback.RequestMessage(Fallback.User, query)
  {
    var h := AsHistory(s.messages + [UserMessage(query)]);
    assert h[|h| - 1] == Fallback.HistoryEntry(Some("user"), Some(query));
    Fallback.QueryTwiceWhenHistoryEndsWithIt(query, s.conditionName, h, Some(s.clinicalData));
  }

  /**
   * With the deployed fallback, an "llm_fallback" turn answers with the fixed
   * apology at low confidence exactly when there are no credentials, the
   * completion fails or has no content, or its content is whitespace alone.
   */
  lemma DeployedFallbackApology(s: Session, query: string, response: HandlerResponse,
                                env: Fallback.Environment,
                                complete: seq<Fallback.RequestMessage> -> Fallback.CompletionReply)
    requires response.responseType == "llm_fallback"
    ensures var reply := complete(Fallback.BuildMessages(query, s.conditionName,
                                                         AsHistory(s.messages + [UserMessage(query)]),
                                                         Some(s.clinicalData)));
            (!Fallback.HasCredentials(env) || !reply.Completed? || reply.content.None? ||
             Fallback.Blank(reply.content.value))
            <==> ReplyFor(response, FallbackText(s, query, DeployedFallback(env, complete)))
                 == BotReply(FallbackApology, LowConfidence)
  {
    var h := AsHistory(s.messages + [UserMessage(query)]);
    var text := FallbackText(s, query, DeployedFallback(env, complete));
    assert text == Fallback.FallbackAnswer(query, s.conditionName, h, Some(s.clinicalData), env, complete);
    Fallback.NoAnswer(query, s.conditionName, h, Some(s.clinicalData), env, complete);
  }

  /**
   * The response-type dispatch of `query_chat`: the bot message, its
   * confidence and the statistics, which count the query and then the
   * confidence level of a recognised response type.
   */
  method AnswerQuery(stats0: Stats, response: HandlerResponse, llmText: Option<string>)
    returns (botMessage: string, confidence: Confidence, stats: Stats)
    ensures BotReply(botMessage, confidence) == ReplyFor(response, llmText)
    ensures stats == StatsAfter(stats0, response.responseType, llmText)
  {
    stats := stats0.(totalQueries := stats0.totalQueries + 1);
    confidence := MediumConfidence;
    if response.responseType == "direct_answer" {
      botMessage := response.answer;
      confidence := HighConfidence;
      stats := stats.(highConfidence := stats.highConfidence + 1);
      if response.followUp.Some? && response.followUp.value != "" {
        botMessage := botMessage + FollowUpSeparator + response.followUp.value;
      }
    } else if response.responseType == "clarification" {
      botMessage := response.message;
      confidence := MediumConfidence;
      stats := stats.(mediumConfidence := stats.mediumConfidence + 1);
    } else if response.responseType == "condition_mismatch" {
      botMessage := MismatchPrefix + response.message + "\n\n";
      botMessage := botMessage + DetectedConditionPrefix + response.detectedConditionName + "**\n\n";
      botMessage := botMessage + response.suggestion;
      confidence := MediumConfidence;
      stats := stats.(mediumConfidence := stats.mediumConfidence + 1);
    } else if response.responseType == "llm_fallback" {
      if llmText.Some? && llmText.value != "" {
        botMessage := llmText.value;
        confidence := MediumConfidence;
        stats := stats.(mediumConfidence := stats.mediumConfidence + 1);
      } else {
        botMessage := FallbackApology;
        confidence := LowConfidence;
        stats := stats.(lowConfidence := stats.lowConfidence + 1);
      }
    } else {
      botMessage := ProcessingError;
      confidence := LowConfidence;
    }
  }
  /**
   * The rest of `query_chat` once the handler has answered: on the fallback
   * path the fallback sees the log that already holds the query; the bot
   * message and the new statistics are stored on the session.
   */
  method CompleteTurn(s: Session, query: string, response: HandlerResponse, fallback: LlmFallback)
    returns (t: Session, reply: QueryReply)
    ensures var llmText := if response.responseType == "llm_fallback" then FallbackText(s, query, fallback) else None;
      var bot := ReplyFor(response, llmText);
      && t == AfterTurn(s, query, response, llmText)
      && reply == QueryReply(bot.message, Label(bot.confidence), response.responseType, t.stats)
  {
    var logged := s.(messages := s.messages + [UserMessage(query)]);
    var llmText := None;
    if response.responseType == "llm_fallback" {
      llmText := fallback(query, logged.conditionName, AsHistory(logged.messages), Some(logged.clinicalData));
    }
    var botMessage, confidence, stats := AnswerQuery(logged.stats, response, llmText);
    t := logged.(messages := logged.messages + [ChatMessage("bot", botMessage, Some(Label(confidence)))],
                 stats := stats);
    ghost var expected := AfterTurn(s, query, response, llmText);
    assert expected.messages == t.messages;
    assert expected.stats == t.stats;
    reply := QueryReply(botMessage, Label(confidence), response.responseType, stats);
  }



  // --------------------------------------------------------- the endpoints

  /** `request.clinical_data or DEFAULT_CLINICAL_DATA`, then the conversion block. */
  method ResolveClinicalData(requested: Option<Dict<string, string>>) returns (data: Dict<string, string>)
    ensures data == InitialClinicalData(requested)
  {
    data := if requested.Some? && |requested.value| > 0 then requested.value else DefaultClinicalData;
    data := ClinicalKeys.NormaliseClinicalData(data);
  }

  /** The note block of `start_chat`: the generator runs only when a note was requested. */
  method RequestNote(request: StartChatRequest, conditionName: string, clinicalData: Dict<string, string>,
                     generateNote: (string, Dict<string, string>) -> Option<string>)
    returns (educationalNote: Option<EducationalNote>)
    ensures educationalNote == NoteFor(request, conditionName, generateNote(conditionName, clinicalData))
    ensures educationalNote.Some? ==> request.generateEducationalNote && educationalNote.value.note != ""
  {
    educationalNote := None;
    if request.generateEducationalNote {
      var note := generateNote(conditionName, clinicalData);
      if note.Some? && note.value != "" {
        educationalNote := Some(EducationalNote(request.conditionId, conditionName, note.value));
      }
    }
  }

  /** The name `conditions[condition_id]` looks up, `None` when the id is not registered. */
  function LookUp(read: Option<seq<Registry.Metadata>>, conditionId: string): Option<string>
  {
    Get(Registry.AvailableConditions(read), conditionId)
  }

  /** `get_available_conditions()` and the membership test both endpoints open with. */
  method CheckCondition(read: Option<seq<Registry.Metadata>>, conditionId: string) returns (name: Option<string>)
    ensures name == LookUp(read, conditionId)
  {
    var conditions := Registry.GetAvailableConditions(read);
    if conditionId !in Keys(conditions) {
      return None;
    }
    name := Some(Get(conditions, conditionId).value);
  }

  /** `generate_educational_note`: a 400 for an unregistered id, a 500 when the generator yields no text. */
  method GenerateEducationalNote(request: StartChatRequest, read: Option<seq<Registry.Metadata>>,
                                 generateNote: (string, Dict<string, string>) -> Option<string>)
    returns (r: Result<NoteReply>)
    ensures LookUp(read, request.conditionId).None? ==> r == Failure(InvalidCondition(request.conditionId))
    ensures LookUp(read, request.conditionId).Some? ==>
      var name := LookUp(read, request.conditionId).value;
      var note := generateNote(name, InitialClinicalData(request.clinicalData));
      r == if Truthy(note) then Success(NoteReply(request.conditionId, name, note.value))
           else Failure(InternalError)
  {
    var found := CheckCondition(read, request.conditionId);
    if found.None? {
      return Failure(InvalidCondition(request.conditionId));
    }
    var conditionName := found.value;
    var clinicalData := ResolveClinicalData(request.clinicalData);
    var note := generateNote(conditionName, clinicalData);
    if note.None? || note.value == "" {
      return Failure(InternalError);
    }
    r := Success(NoteReply(request.conditionId, conditionName, note.value));
  }

  /** The process-wide state of api.py: the session store and the handler singleton. */
  class ChatApi {
    var sessions: map<string, Session>
    var handlerLoaded: bool

    constructor ()
      ensures sessions == map[] && !handlerLoaded
    {
      sessions := map[];
      handlerLoaded := false;
    }

    /**
     * `start_chat`: an unknown condition id is rejected before anything is
     * stored; otherwise a fresh zeroed session is stored under `sessionId`
     * (a new UUID) and no other session changes.
     */
    method StartChat(request: StartChatRequest, read: Option<seq<Registry.Metadata>>,
                     sessionId: string, now: string,
                     generateNote: (string, Dict<string, string>) -> Option<string>)
      returns (r: Result<StartReply>)
      modifies this
      ensures handlerLoaded == old(handlerLoaded)
      ensures LookUp(read, request.conditionId).None? ==>
        r == Failure(InvalidCondition(request.conditionId)) && sessions == old(sessions)
      ensures LookUp(read, request.conditionId).Some? ==>
        var name := LookUp(read, request.conditionId).value;
        var data := InitialClinicalData(request.clinicalData);
        var note := NoteFor(request, name, generateNote(name, data));
        && sessions == old(sessions)[sessionId := Session(sessionId, request.conditionId, name, [], ZeroStats, data, note, now)]
        && r == Success(StartReply(sessionId, request.conditionId, name, note))
    {
      var found := CheckCondition(read, request.conditionId);
      if found.None? {
        return Failure(InvalidCondition(request.conditionId));
      }
      var conditionName := found.value;
      assert LookUp(read, request.conditionId) == Some(conditionName);
      var clinicalData := ResolveClinicalData(request.clinicalData);
      var session := Session(sessionId, request.conditionId, conditionName, [], ZeroStats, clinicalData, None, now);
      sessions := sessions[sessionId := session];
      var educationalNote := RequestNote(request, conditionName, clinicalData, generateNote);
      if educationalNote.Some? {
        session := session.(educationalNote := educationalNote);
        sessions := sessions[sessionId := session];
      }
      assert session == Session(sessionId, request.conditionId, conditionName, [], ZeroStats, clinicalData, educationalNote, now);
      r := Success(StartReply(sessionId, request.conditionId, conditionName, educationalNote));
    }

    /**
     * `query_chat`. An unknown session fails with 404 and changes nothing; a
     * handler that cannot be loaded fails before the query is logged; a
     * handler that raises leaves the query logged but uncounted; otherwise the
     * session becomes `AfterTurn` of itself and no other session changes.
     */
    method QueryChat(sessionId: string, query: string, loadSucceeds: bool,
                     handle: (string, string) -> HandlerOutcome,
                     fallback: LlmFallback)
      returns (r: Result<QueryReply>)
      modifies this
      ensures sessionId !in old(sessions) ==>
        r == Failure(SessionNotFound) && sessions == old(sessions) && handlerLoaded == old(handlerLoaded)
      ensures sessionId in old(sessions) && !old(handlerLoaded) && !loadSucceeds ==>
        r == Failure(InternalError) && sessions == old(sessions) && !handlerLoaded
      ensures sessionId in old(sessions) && (old(handlerLoaded) || loadSucceeds) ==> handlerLoaded
      ensures sessionId in old(sessions) && (old(handlerLoaded) || loadSucceeds) ==>
        var s := old(sessions)[sessionId];
        handle(query, s.currentCondition).HandlerRaised? ==>
          && r == Failure(InternalError)
          && sessions == old(sessions)[sessionId := s.(messages := s.messages + [UserMessage(query)])]
      ensures sessionId in old(sessions) && (old(handlerLoaded) || loadSucceeds) ==>
        var s := old(sessions)[sessionId];
        handle(query, s.currentCondition).Responded? ==>
          var response := handle(query, s.currentCondition).response;
          var llmText := if response.responseType == "llm_fallback"
                         then FallbackText(s, query, fallback) else None;
          var t := AfterTurn(s, query, response, llmText);
          var reply := ReplyFor(response, llmText);
          && sessions == old(sessions)[sessionId := t]
          && r == Success(QueryReply(reply.message, Label(reply.confidence), response.responseType, t.stats))
    {
      if sessionId !in sessions {
        return Failure(SessionNotFound);
      }
      if !handlerLoaded {
        if !loadSucceeds {
          return Failure(InternalError);
        }
        handlerLoaded := true;
      }
      var session := sessions[sessionId];
      assert session == old(sessions)[sessionId];
      sessions := sessions[sessionId := session.(messages := session.messages + [UserMessage(query)])];
      var outcome := handle(query, session.currentCondition);
      if outcome.HandlerRaised? {
        return Failure(InternalError);
      }
      var response := outcome.response;
      assert outcome == Responded(response);
      var reply;
      session, reply := CompleteTurn(session, query, response, fallback);
      sessions := sessions[sessionId := session];
      r := Success(reply);
    }

    /** `get_handler` as `health_check` uses it: healthy exactly when the handler is or can be loaded. */
    method HealthCheck(loadSucceeds: bool) returns (healthy: bool)
      modifies this`handlerLoaded
      ensures healthy == (old(handlerLoaded) || loadSucceeds)
      ensures handlerLoaded == healthy
    {
      if !handlerLoaded && loadSucceeds {
        handlerLoaded := true;
      }
      healthy := handlerLoaded;
    }

    /** `get_chat_history`: reads one session, changes nothing. */
    method GetChatHistory(sessionId: string) returns (r: Result<History>)
      ensures sessionId !in sessions ==> r == Failure(SessionNotFound)
      ensures sessionId in sessions ==>
        var s := sessions[sessionId];
        r == Success(History(s.currentCondition, s.conditionName, s.messages, s.stats, s.educationalNote))
    {
      if sessionId !in sessions {
        return Failure(SessionNotFound);
      }
      var s := sessions[sessionId];
      r := Success(History(s.currentCondition, s.conditionName, s.messages, s.stats, s.educationalNote));
    }

    /**
     * `update_clinical_data`: replaces the converted clinical data of one
     * session; every other field and every other session is unchanged.
     */
    method UpdateClinicalData(sessionId: string, clinicalData: Dict<string, string>)
      returns (r: Result<Dict<string, string>>)
      modifies this`sessions
      ensures sessionId !in old(sessions) ==> r == Failure(SessionNotFound) && sessions == old(sessions)
      ensures sessionId in old(sessions) ==>
        && sessions == old(sessions)[sessionId := old(sessions)[sessionId].(clinicalData := ClinicalKeys.Normalise(clinicalData))]
        && r == Success(ClinicalKeys.Normalise(clinicalData))
    {
      if sessionId !in sessions {
        return Failure(SessionNotFound);
      }
      var converted := ClinicalKeys.NormaliseClinicalData(clinicalData);
      sessions := sessions[sessionId := sessions[sessionId].(clinicalData := converted)];
      r := Success(converted);
    }

    /** `get_stats`: the statistics of one session. */
    method GetStats(sessionId: string) returns (r: Result<Stats>)
      ensures sessionId !in sessions ==> r == Failure(SessionNotFound)
      ensures sessionId in sessions ==> r == Success(sessions[sessionId].stats)
    {
      if sessionId !in sessions {
        return Failure(SessionNotFound);
      }
      r := Success(sessions[sessionId].stats);
    }

    /** `delete_session`: removes exactly one key. */
    method DeleteSession(sessionId: string) returns (r: Result<()>)
      modifies this`sessions
      ensures sessionId !in old(sessions) ==> r == Failure(SessionNotFound) && sessions == old(sessions)
      ensures sessionId in old(sessions) ==> r == Success(()) && sessions == old(sessions) - {sessionId}
    {
      if sessionId !in sessions {
        return Failure(SessionNotFound);
      }
      sessions := sessions - {sessionId};
      r := Success(());
    }
  }
}
