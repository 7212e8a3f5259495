/** The C# API's `ChatService`: every request is recorded in the
    `UserQueries` table, answered through the Python backend and its reply
    recorded in `ChatbotResponses`; the history query reads both tables back.
    The two tables are sequences in insertion order, identity columns are
    counters, database timestamps are parameters, and the backend call is its
    outcome. */
module ChatBookkeeping {
  import opened Wrappers
  import opened SourcesJson
  import opened RequestValidation

  const ProcessingStatus := "Processing"
  const CompletedStatus := "Completed"
  const FailedStatus := "Failed"
  const PendingStatus := "Pending"
  const SuccessStatus := "Success"
  const ErrorStatus := "Error"
  const ErrorReply := "Sorry, I encountered an error while processing your request. Please try again."
  /** Stand-in for the message of the database error on a null question. */
  const NullQuestionMessage := "NOT NULL constraint failed: UserQueries.Question"
  const DefaultHistoryLimit := 50

  /** A `UserQueries` row; `timestamp` is the insertion time the database set. */
  datatype UserQuery = UserQuery(queryId: int, question: string, timestamp: int, sessionId: Option<string>,
                                 status: string)

  /** A `ChatbotResponses` row; `sources` is the stored JSON text. */
  datatype ChatbotResponse = ChatbotResponse(responseId: int, queryId: int, response: string, timestamp: int,
                                             sources: Option<string>, status: string, errorMessage: Option<string>)

  /** What the Python backend replied. */
  datatype PythonChatResponse = PythonChatResponse(response: string, sources: Option<seq<string>>)

  datatype ChatResponseDto = ChatResponseDto(queryId: int, question: string, response: string,
                                             questionTimestamp: int, responseTimestamp: int,
                                             sources: Option<seq<string>>, status: string,
                                             errorMessage: Option<string>)

  /** Both tables, and the identity values the database hands out next. */
  datatype Tables = Tables(queries: seq<UserQuery>, responses: seq<ChatbotResponse>,
                           nextQueryId: int, nextResponseId: int)

  // ---------------------------------------------------------------------------
  // The tables' invariant

  /** Some row with id `queryId` has left the "Processing" state. */
  predicate Answered(queries: seq<UserQuery>, queryId: int) {
    exists k :: 0 <= k < |queries| && queries[k].queryId == queryId && queries[k].status != ProcessingStatus
  }

  /** Identities are increasing and below the next ones handed out; a query
      has at most one response, and only a query that has left "Processing"
      has one; every stored sources text can be read back. */
  predicate Valid(t: Tables) {
    && (forall i, j :: 0 <= i < j < |t.queries| ==> t.queries[i].queryId < t.queries[j].queryId)
    && (forall i :: 0 <= i < |t.queries| ==> t.queries[i].queryId < t.nextQueryId)
    && (forall i, j :: 0 <= i < j < |t.responses| ==> t.responses[i].responseId < t.responses[j].responseId)
    && (forall i :: 0 <= i < |t.responses| ==> t.responses[i].responseId < t.nextResponseId)
    && (forall i, j :: 0 <= i < j < |t.responses| ==> t.responses[i].queryId != t.responses[j].queryId)
    && (forall i :: 0 <= i < |t.responses| ==> Answered(t.queries, t.responses[i].queryId))
    && (forall i :: 0 <= i < |t.responses| ==> ReadSources(t.responses[i].sources).Success?)
  }

  // ---------------------------------------------------------------------------
  // ProcessChatRequestAsync

  /** The `FirstOrDefaultAsync` lookup of the failure path: the first row, in
      table order, with this question that is still "Processing". */
  function FirstProcessing(queries: seq<UserQuery>, question: string): (k: Option<nat>)
    ensures k.Some? ==> k.value < |queries| && queries[k.value].question == question
                        && queries[k.value].status == ProcessingStatus
    ensures forall i :: 0 <= i < (if k.Some? then k.value else |queries|) ==>
      !(queries[i].question == question && queries[i].status == ProcessingStatus)
  {
    if queries == [] then None
    else if queries[0].question == question && queries[0].status == ProcessingStatus then Some(0)
    else match FirstProcessing(queries[1..], question)
      case None => None
      case Some(k) => Some(k + 1)
  }

  /** The row inserted for `request`. */
  function NewQuery(t: Tables, question: string, request: ChatRequestDto, newSessionId: string, queryTime: int)
    : UserQuery
  {
    UserQuery(t.nextQueryId, question, queryTime, Some(request.sessionId.GetOr(newSessionId)), ProcessingStatus)
  }

  /** `ProcessChatRequestAsync` as a function of the tables: the new tables
      and the returned DTO, or the exception that escapes. */
  function ProcessOutcome(t: Tables, request: ChatRequestDto, newSessionId: string,
                          backend: Result<PythonChatResponse>, queryTime: int, responseTime: int)
    : (r: (Tables, Result<ChatResponseDto>))
    // A null question is refused by the database and nothing is stored.
    ensures request.question.None? ==> r.0 == t && r.1.Failure?
    // Otherwise the request is first recorded as a new "Processing" query.
    ensures request.question.Some? ==>
      var q := NewQuery(t, request.question.value, request, newSessionId, queryTime);
      && |r.0.queries| == |t.queries| + 1 && r.0.nextQueryId == t.nextQueryId + 1
      && r.0.queries[|t.queries|] == q.(status := r.0.queries[|t.queries|].status)
    // A reply: that query is "Completed", one "Success" response is linked to
    // it, and the DTO echoes the question and the backend's answer.
    ensures request.question.Some? && backend.Success? ==>
      var q := NewQuery(t, request.question.value, request, newSessionId, queryTime);
      var reply := backend.value;
      && r.0.queries == t.queries + [q.(status := CompletedStatus)]
      && r.0.responses == t.responses + [ChatbotResponse(t.nextResponseId, q.queryId, reply.response, responseTime,
                                                         StoreSources(reply.sources), SuccessStatus, None)]
      && r.1 == Success(ChatResponseDto(q.queryId, q.question, reply.response, q.timestamp, responseTime,
                                        reply.sources, SuccessStatus, None))
    // A raise: the first "Processing" row with the same question, which need
    // not be the new one, becomes "Failed" and gets the "Error" response.
    ensures request.question.Some? && backend.Failure? ==>
      var queries := t.queries + [NewQuery(t, request.question.value, request, newSessionId, queryTime)];
      var k := FirstProcessing(queries, request.question.value);
      && k.Some? && r.1.Success?
      && r.0.queries == queries[k.value := queries[k.value].(status := FailedStatus)]
      && r.0.responses == t.responses + [ChatbotResponse(t.nextResponseId, queries[k.value].queryId, ErrorReply,
                                                         responseTime, None, ErrorStatus, Some(backend.error))]
      && r.1.value == ChatResponseDto(queries[k.value].queryId, queries[k.value].question, ErrorReply,
                                      queries[k.value].timestamp, responseTime, None, ErrorStatus,
                                      Some(backend.error))
  {
    if request.question.None? then (t, Failure(NullQuestionMessage))
    else
      var question := request.question.value;
      var inserted := NewQuery(t, question, request, newSessionId, queryTime);
      var queries := t.queries + [inserted];
      match backend
      case Success(reply) =>
        var response := ChatbotResponse(t.nextResponseId, inserted.queryId, reply.response, responseTime,
                                        StoreSources(reply.sources), SuccessStatus, None);
        (Tables(queries[|t.queries| := inserted.(status := CompletedStatus)], t.responses + [response],
                t.nextQueryId + 1, t.nextResponseId + 1),
         Success(ChatResponseDto(inserted.queryId, question, reply.response, queryTime, responseTime,
                                 reply.sources, SuccessStatus, None)))
      case Failure(message) =>
        match FirstProcessing(queries, question)
        case None => (Tables(queries, t.responses, t.nextQueryId + 1, t.nextResponseId), Failure(message))
        case Some(k) =>
          var failed := queries[k];
          var response := ChatbotResponse(t.nextResponseId, failed.queryId, ErrorReply, responseTime, None,
                                          ErrorStatus, Some(message));
          (Tables(queries[k := failed.(status := FailedStatus)], t.responses + [response],
                  t.nextQueryId + 1, t.nextResponseId + 1),
           Success(ChatResponseDto(failed.queryId, failed.question, ErrorReply, failed.timestamp, responseTime,
                                   None, ErrorStatus, Some(message))))
  }

  /** An older query with the same question still in "Processing" takes the
      failure, and the query just recorded stays "Processing". Such an older
      query exists only when requests overlap or one was cut short between
      its two saves: requests handled one at a time never leave one behind
      (`SequentialRequestsSettle`). */
  lemma FailureMayHitOlderQuery(t: Tables, request: ChatRequestDto, newSessionId: string, error: string,
                                queryTime: int, responseTime: int, i: nat)
    requires Valid(t) && request.question.Some? && i < |t.queries|
    requires t.queries[i].question == request.question.value && t.queries[i].status == ProcessingStatus
    ensures var r := ProcessOutcome(t, request, newSessionId, Failure(error), queryTime, responseTime);
      && r.0.queries[|t.queries|].status == ProcessingStatus
      && r.1.value.queryId != t.nextQueryId
  {
    var queries := t.queries + [NewQuery(t, request.question.value, request, newSessionId, queryTime)];
    assert queries[i] == t.queries[i];
    var k := FirstProcessing(queries, request.question.value).value;
    assert k <= i && queries[k] == t.queries[k];
  }

  predicate NoneProcessing(queries: seq<UserQuery>) {
    forall i :: 0 <= i < |queries| ==> queries[i].status != ProcessingStatus
  }

  /** A request handled while no query is "Processing" leaves none behind,
      and a backend failure then marks the query just recorded. */
  lemma SequentialRequestsSettle(t: Tables, request: ChatRequestDto, newSessionId: string,
                                 backend: Result<PythonChatResponse>, queryTime: int, responseTime: int)
    requires NoneProcessing(t.queries)
    ensures var r := ProcessOutcome(t, request, newSessionId, backend, queryTime, responseTime);
      NoneProcessing(r.0.queries)
    ensures var r := ProcessOutcome(t, request, newSessionId, backend, queryTime, responseTime);
      request.question.Some? && backend.Failure? ==> r.1.value.queryId == t.nextQueryId
  {
    if request.question.Some? && backend.Failure? {
      var r := ProcessOutcome(t, request, newSessionId, backend, queryTime, responseTime);
      var q := NewQuery(t, request.question.value, request, newSessionId, queryTime);
      var queries := t.queries + [q];
      var k := FirstProcessing(queries, q.question).value;
      assert queries[|t.queries|] == q;
      assert forall i :: 0 <= i < |t.queries| ==> queries[i] == t.queries[i];
      assert k == |t.queries|;
    }
  }

  /** Recording a request keeps the tables' invariant. */
  lemma ProcessKeepsValid(t: Tables, request: ChatRequestDto, newSessionId: string,
                          backend: Result<PythonChatResponse>, queryTime: int, responseTime: int)
    requires Valid(t)
    ensures Valid(ProcessOutcome(t, request, newSessionId, backend, queryTime, responseTime).0)
  {
    if request.question.Some? {
      var r := ProcessOutcome(t, request, newSessionId, backend, queryTime, responseTime).0;
      var q := NewQuery(t, request.question.value, request, newSessionId, queryTime);
      var queries := t.queries + [q];
      var k := if backend.Success? then |t.queries| else FirstProcessing(queries, q.question).value;
      if backend.Success? {
        ReadStoredSources(backend.value.sources);
      }
      RecordKeepsValid(t, q, k, r.queries[k].status, r.responses[|t.responses|]);
      assert r == Record(t, q, k, r.queries[k].status, r.responses[|t.responses|]);
    }
  }

  /** The tables after inserting `q` in "Processing", moving row `k` to
      `status` and linking the new response `response` to it. */
  function Record(t: Tables, q: UserQuery, k: nat, status: string, response: ChatbotResponse): Tables
    requires k <= |t.queries|
  {
    var queries := t.queries + [q];
    Tables(queries[k := queries[k].(status := status)], t.responses + [response],
           t.nextQueryId + 1, t.nextResponseId + 1)
  }

  /** The shape every successful `ProcessChatRequestAsync` has: the new query
      takes the next id; the row that changes was "Processing" (or is the new
      one) and leaves that state; the new response takes the next id. */
  predicate RecordAllowed(t: Tables, q: UserQuery, k: nat, status: string, response: ChatbotResponse) {
    && q.queryId == t.nextQueryId && q.status == ProcessingStatus
    && k <= |t.queries| && (k < |t.queries| ==> t.queries[k].status == ProcessingStatus)
    && status != ProcessingStatus
    && response.responseId == t.nextResponseId
    && response.queryId == (t.queries + [q])[k].queryId
    && ReadSources(response.sources).Success?
  }

  lemma RecordKeepsValid(t: Tables, q: UserQuery, k: nat, status: string, response: ChatbotResponse)
    requires Valid(t) && RecordAllowed(t, q, k, status, response)
    ensures Valid(Record(t, q, k, status, response))
  {
    var r := Record(t, q, k, status, response);
    RecordKeepsIds(t, q, k, status, response);
    RecordKeepsAnswered(t, q, k, status, response);
    RecordKeepsSingleResponse(t, q, k, status, response);
    assert forall i :: 0 <= i < |t.responses| ==> r.responses[i] == t.responses[i];
  }

  lemma RecordKeepsIds(t: Tables, q: UserQuery, k: nat, status: string, response: ChatbotResponse)
    requires Valid(t) && RecordAllowed(t, q, k, status, response)
    ensures var r := Record(t, q, k, status, response);
      && (forall i, j :: 0 <= i < j < |r.queries| ==> r.queries[i].queryId < r.queries[j].queryId)
      && (forall i :: 0 <= i < |r.queries| ==> r.queries[i].queryId < r.nextQueryId)
      && (forall i, j :: 0 <= i < j < |r.responses| ==> r.responses[i].responseId < r.responses[j].responseId)
      && (forall i :: 0 <= i < |r.responses| ==> r.responses[i].responseId < r.nextResponseId)
  {
    var r := Record(t, q, k, status, response);
    assert forall i :: 0 <= i < |r.queries| ==> r.queries[i].queryId == (t.queries + [q])[i].queryId;
  }

  lemma RecordKeepsAnswered(t: Tables, q: UserQuery, k: nat, status: string, response: ChatbotResponse)
    requires Valid(t) && RecordAllowed(t, q, k, status, response)
    ensures var r := Record(t, q, k, status, response);
      forall i :: 0 <= i < |r.responses| ==> Answered(r.queries, r.responses[i].queryId)
  {
    var r := Record(t, q, k, status, response);
    var n := |t.queries|;
    forall i | 0 <= i < |r.responses|
      ensures Answered(r.queries, r.responses[i].queryId)
    {
      if i < |t.responses| {
        var j :| 0 <= j < n && t.queries[j].queryId == t.responses[i].queryId
                 && t.queries[j].status != ProcessingStatus;
        assert j != k;
        assert r.queries[j] == t.queries[j];
      } else {
        assert r.queries[k].queryId == r.responses[i].queryId && r.queries[k].status == status;
      }
    }
  }

  lemma RecordKeepsSingleResponse(t: Tables, q: UserQuery, k: nat, status: string, response: ChatbotResponse)
    requires Valid(t) && RecordAllowed(t, q, k, status, response)
    ensures var r := Record(t, q, k, status, response);
      forall i, j :: 0 <= i < j < |r.responses| ==> r.responses[i].queryId != r.responses[j].queryId
  {
    var n := |t.queries|;
    // No older response points at the changed row: it was "Processing", or
    // it is the row just inserted.
    forall i | 0 <= i < |t.responses|
      ensures t.responses[i].queryId != response.queryId
    {
      var j :| 0 <= j < n && t.queries[j].queryId == t.responses[i].queryId
               && t.queries[j].status != ProcessingStatus;
      if k < n {
        assert j != k;
        assert j < k ==> t.queries[j].queryId < t.queries[k].queryId;
        assert k < j ==> t.queries[k].queryId < t.queries[j].queryId;
      }
    }
  }

  // ---------------------------------------------------------------------------
  // GetConversationHistoryAsync

  predicate InSession(q: UserQuery, sessionId: Option<string>) {
    sessionId.None? || q.sessionId == sessionId
  }

  /** The `Where` on the session id, when one is given. */
  function FilterSession(queries: seq<UserQuery>, sessionId: Option<string>): (r: seq<UserQuery>)
    ensures |r| <= |queries|
    ensures forall q :: q in r <==> q in queries && InSession(q, sessionId)
  {
    if queries == [] then []
    else (if InSession(queries[0], sessionId) then [queries[0]] else []) + FilterSession(queries[1..], sessionId)
  }

  predicate SortedDesc(s: seq<UserQuery>) {
    forall i, j :: 0 <= i < j < |s| ==> s[i].timestamp >= s[j].timestamp
  }

  /** Inserts `x` after every row at least as recent, so that rows with equal
      timestamps keep their table order. */
  function InsertDesc(x: UserQuery, s: seq<UserQuery>): (r: seq<UserQuery>)
    ensures multiset(r) == multiset(s) + multiset{x}
    ensures forall k :: 0 <= k < |r| ==> r[k] == x || r[k] in s
  {
    if s == [] then [x]
    else if s[0].timestamp >= x.timestamp then
      assert s == [s[0]] + s[1..];
      [s[0]] + InsertDesc(x, s[1..])
    else [x] + s
  }

  lemma {:induction false} InsertDescSorted(x: UserQuery, s: seq<UserQuery>)
    requires SortedDesc(s)
    ensures SortedDesc(InsertDesc(x, s))
  {
    if s != [] && s[0].timestamp >= x.timestamp {
      var rest := InsertDesc(x, s[1..]);
      InsertDescSorted(x, s[1..]);
      forall k | 0 <= k < |rest| ensures s[0].timestamp >= rest[k].timestamp {
        if rest[k] != x {
          var j :| 0 <= j < |s[1..]| && s[1..][j] == rest[k];
          assert s[j + 1] == rest[k];
        }
      }
      var r := InsertDesc(x, s);
      assert r == [s[0]] + rest;
      forall i, j | 0 <= i < j < |r| ensures r[i].timestamp >= r[j].timestamp {
        assert r[j] == rest[j - 1];
        if i > 0 {
          assert r[i] == rest[i - 1];
        }
      }
    }
  }

  /** The `OrderByDescending` on the question timestamp. */
  function SortDesc(s: seq<UserQuery>): (r: seq<UserQuery>)
    ensures SortedDesc(r) && multiset(r) == multiset(s)
  {
    if s == [] then []
    else
      var sortedPrefix := SortDesc(s[..|s| - 1]);
      assert s == s[..|s| - 1] + [s[|s| - 1]];
      InsertDescSorted(s[|s| - 1], sortedPrefix);
      InsertDesc(s[|s| - 1], sortedPrefix)
  }

  /** `Take(limit)` as the SQLite provider runs it, as `LIMIT limit`: the
      first `limit` rows, where a negative limit sets no bound. */
  function Take(s: seq<UserQuery>, limit: int): (r: seq<UserQuery>)
    ensures |r| == if 0 <= limit < |s| then limit else |s|
    ensures r == s[..|r|]
  {
    if 0 <= limit < |s| then s[..limit] else s
  }

  /** The response the `Include` joins to a query. */
  function ResponseFor(responses: seq<ChatbotResponse>, queryId: int): (r: Option<ChatbotResponse>)
    ensures r.Some? ==> r.value in responses && r.value.queryId == queryId
    ensures r.None? ==> forall i :: 0 <= i < |responses| ==> responses[i].queryId != queryId
  {
    if responses == [] then None
    else if responses[0].queryId == queryId then Some(responses[0])
    else ResponseFor(responses[1..], queryId)
  }

  /** The `Select` for one query: its response's fields when it has one, and
      the defaults otherwise; an unreadable sources text raises. */
  function HistoryEntry(q: UserQuery, responses: seq<ChatbotResponse>): (r: Result<ChatResponseDto>)
    ensures r.Success? ==> r.value.queryId == q.queryId && r.value.question == q.question
                           && r.value.questionTimestamp == q.timestamp
    ensures ResponseFor(responses, q.queryId).None? ==>
      r == Success(ChatResponseDto(q.queryId, q.question, "", q.timestamp, q.timestamp, None, PendingStatus, None))
  {
    match ResponseFor(responses, q.queryId)
    case None => Success(ChatResponseDto(q.queryId, q.question, "", q.timestamp, q.timestamp, None, PendingStatus, None))
    case Some(resp) =>
      match ReadSources(resp.sources)
      case Failure(e) => Failure(e)
      case Success(sources) =>
        Success(ChatResponseDto(q.queryId, q.question, resp.response, q.timestamp, resp.timestamp, sources,
                                resp.status, resp.errorMessage))
  }

  function HistoryEntries(rows: seq<UserQuery>, responses: seq<ChatbotResponse>): (r: Result<seq<ChatResponseDto>>)
    ensures r.Success? <==> forall i :: 0 <= i < |rows| ==> HistoryEntry(rows[i], responses).Success?
    ensures r.Success? ==>
      && |r.value| == |rows|
      && forall i :: 0 <= i < |rows| ==> r.value[i] == HistoryEntry(rows[i], responses).value
  {
    if rows == [] then Success([])
    else match HistoryEntry(rows[0], responses)
      case Failure(e) => Failure(e)
      case Success(entry) =>
        match HistoryEntries(rows[1..], responses)
        case Failure(e) => Failure(e)
        case Success(more) => Success([entry] + more)
  }

  /** The queries the history query selects. */
  function HistoryRows(t: Tables, sessionId: Option<string>, limit: int): seq<UserQuery> {
    Take(SortDesc(FilterSession(t.queries, sessionId)), limit)
  }

  function History(t: Tables, sessionId: Option<string> := None, limit: int := DefaultHistoryLimit)
    : Result<seq<ChatResponseDto>>
  {
    HistoryEntries(HistoryRows(t, sessionId, limit), t.responses)
  }

  /** At most `limit` queries (all of them for a negative limit), each of
      the requested session, newest question first. */
  lemma HistoryRowsSelection(t: Tables, sessionId: Option<string>, limit: int)
    ensures var rows := HistoryRows(t, sessionId, limit);
      var available := |FilterSession(t.queries, sessionId)|;
      && |rows| == (if 0 <= limit < available then limit else available)
      && (forall q :: q in rows ==> q in t.queries && InSession(q, sessionId))
      && SortedDesc(rows)
  {
    var filtered := FilterSession(t.queries, sessionId);
    var sorted := SortDesc(filtered);
    var rows := Take(sorted, limit);
    assert |sorted| == |filtered| by {
      assert |multiset(sorted)| == |multiset(filtered)|;
    }
    forall q | q in rows ensures q in t.queries && InSession(q, sessionId) {
      var i :| 0 <= i < |rows| && rows[i] == q;
      assert sorted[i] == q;
      assert q in multiset(sorted);
      assert q in filtered;
    }
    assert SortedDesc(rows) by {
      assert rows == sorted[..|rows|];
    }
  }

  /** No query of the session that is left out is newer than one taken. */
  lemma HistoryRowsAreNewest(t: Tables, sessionId: Option<string>, limit: int)
    ensures var rows := HistoryRows(t, sessionId, limit);
      forall q, p :: q in t.queries && InSession(q, sessionId) && q !in rows && p in rows ==>
        p.timestamp >= q.timestamp
  {
    var filtered := FilterSession(t.queries, sessionId);
    var sorted := SortDesc(filtered);
    var rows := Take(sorted, limit);
    forall q, p | q in t.queries && InSession(q, sessionId) && q !in rows && p in rows
      ensures p.timestamp >= q.timestamp
    {
      assert q in multiset(filtered);
      assert q in multiset(sorted);
      var j :| 0 <= j < |sorted| && sorted[j] == q;
      var i :| 0 <= i < |rows| && rows[i] == p;
      assert sorted[i] == p;
      assert rows == sorted[..|rows|];
      assert j >= |rows|;
    }
  }

  /** One entry per selected query, in the same order, carrying its id and
      its question's timestamp. */
  lemma HistoryEntriesFollowRows(t: Tables, sessionId: Option<string>, limit: int)
    requires History(t, sessionId, limit).Success?
    ensures var rows := HistoryRows(t, sessionId, limit);
      var entries := History(t, sessionId, limit).value;
      |entries| == |rows| && forall i :: 0 <= i < |rows| ==>
        entries[i].queryId == rows[i].queryId && entries[i].questionTimestamp == rows[i].timestamp
  {
  }

  /** On tables kept valid the history query never raises. */
  lemma HistoryOfValidSucceeds(t: Tables, sessionId: Option<string>, limit: int)
    requires Valid(t)
    ensures History(t, sessionId, limit).Success?
  {
    var rows := HistoryRows(t, sessionId, limit);
    forall i | 0 <= i < |rows| ensures HistoryEntry(rows[i], t.responses).Success? {
      var resp := ResponseFor(t.responses, rows[i].queryId);
      if resp.Some? {
        var j :| 0 <= j < |t.responses| && t.responses[j] == resp.value;
      }
    }
  }

  /** What `ProcessChatRequestAsync` returns is what the history query later
      reports for the query it answered, sources included. */
  lemma HistoryEchoesReply(t: Tables, request: ChatRequestDto, newSessionId: string,
                           backend: Result<PythonChatResponse>, queryTime: int, responseTime: int)
    requires Valid(t) && request.question.Some?
    ensures var (t', reply) := ProcessOutcome(t, request, newSessionId, backend, queryTime, responseTime);
      reply.Success? && exists q :: q in t'.queries && HistoryEntry(q, t'.responses) == reply
  {
    var (t', reply) := ProcessOutcome(t, request, newSessionId, backend, queryTime, responseTime);
    var queries := t.queries + [NewQuery(t, request.question.value, request, newSessionId, queryTime)];
    var n := |t.queries|;
    var k := if backend.Success? then n else FirstProcessing(queries, request.question.value).value;
    var q := t'.queries[k];
    // No older response links to the answered row.
    forall i | 0 <= i < |t.responses| ensures t.responses[i].queryId != q.queryId {
      var j :| 0 <= j < n && t.queries[j].queryId == t.responses[i].queryId
               && t.queries[j].status != ProcessingStatus;
      if k < n && j != k {
        assert j < k ==> t.queries[j].queryId < t.queries[k].queryId;
        assert k < j ==> t.queries[k].queryId < t.queries[j].queryId;
      }
    }
    assert ResponseFor(t.responses, q.queryId).None?;
    assert t'.responses == t.responses + [t'.responses[|t.responses|]];
    ResponseForAppend(t.responses, t'.responses[|t.responses|], q.queryId);
    if backend.Success? {
      ReadStoredSources(backend.value.sources);
    }
    assert q in t'.queries;
  }

  lemma {:induction false} ResponseForAppend(responses: seq<ChatbotResponse>, last: ChatbotResponse, queryId: int)
    requires ResponseFor(responses, queryId).None? && last.queryId == queryId
    ensures ResponseFor(responses + [last], queryId) == Some(last)
  {
    if responses != [] {
      assert (responses + [last])[1..] == responses[1..] + [last];
      ResponseForAppend(responses[1..], last, queryId);
    }
  }

  // ---------------------------------------------------------------------------
  // The service over its two tables

  class ChatService {
    var queries: seq<UserQuery>
    var responses: seq<ChatbotResponse>
    var nextQueryId: int
    var nextResponseId: int

    function State(): Tables
      reads this
    {
      Tables(queries, responses, nextQueryId, nextResponseId)
    }

    /** A new, empty database; SQLite identities start at 1. */
    constructor ()
      ensures State() == Tables([], [], 1, 1) && Valid(State())
    {
      queries, responses := [], [];
      nextQueryId, nextResponseId := 1, 1;
    }

    /** `ProcessChatRequestAsync`. `newSessionId` is the fresh id used when
        the request carries none, `backend` the outcome of the call to the
        Python backend, `queryTime`/`responseTime` the insertion times. */
    method ProcessChatRequest(request: ChatRequestDto, newSessionId: string, backend: Result<PythonChatResponse>,
                              queryTime: int, responseTime: int)
      returns (r: Result<ChatResponseDto>)
      requires Valid(State())
      modifies this
      ensures (State(), r) == ProcessOutcome(old(State()), request, newSessionId, backend, queryTime, responseTime)
      ensures Valid(State())
    {
      ProcessKeepsValid(State(), request, newSessionId, backend, queryTime, responseTime);
      if request.question.None? {
        return Failure(NullQuestionMessage);
      }
      var question := request.question.value;
      var userQuery := UserQuery(nextQueryId, question, queryTime, Some(request.sessionId.GetOr(newSessionId)),
                                 ProcessingStatus);
      queries := queries + [userQuery];
      nextQueryId := nextQueryId + 1;
      match backend {
        case Success(reply) =>
          var chatbotResponse := ChatbotResponse(nextResponseId, userQuery.queryId, reply.response, responseTime,
                                                 StoreSources(reply.sources), SuccessStatus, None);
          responses := responses + [chatbotResponse];
          nextResponseId := nextResponseId + 1;
          queries := queries[|queries| - 1 := userQuery.(status := CompletedStatus)];
          r := Success(ChatResponseDto(userQuery.queryId, userQuery.question, chatbotResponse.response,
                                       userQuery.timestamp, chatbotResponse.timestamp, reply.sources,
                                       chatbotResponse.status, None));
        case Failure(message) =>
          var found := FirstProcessing(queries, question);
          if found.None? {
            return Failure(message);
          }
          var failed := queries[found.value];
          queries := queries[found.value := failed.(status := FailedStatus)];
          var errorResponse := ChatbotResponse(nextResponseId, failed.queryId, ErrorReply, responseTime, None,
                                               ErrorStatus, Some(message));
          responses := responses + [errorResponse];
          nextResponseId := nextResponseId + 1;
          r := Success(ChatResponseDto(failed.queryId, failed.question, errorResponse.response, failed.timestamp,
                                       errorResponse.timestamp, None, errorResponse.status,
                                       errorResponse.errorMessage));
      }
    }

    /** `GetConversationHistoryAsync`. */
    function GetConversationHistory(sessionId: Option<string> := None, limit: int := DefaultHistoryLimit)
      : (r: Result<seq<ChatResponseDto>>)
      reads this
      ensures Valid(State()) ==> r.Success?
    {
      if Valid(State()) then HistoryOfValidSucceeds(State(), sessionId, limit); History(State(), sessionId, limit)
      else History(State(), sessionId, limit)
    }
  }
}
