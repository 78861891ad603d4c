/**
 * `execute_git_operation` and the `POST /git/execute` handler: each detected
 * operation becomes one request to the terminal service, and each response
 * (or transport exception) becomes one result record. The terminal service is
 * an input: `remote(i, request)` is what the `i`-th request the handler sends
 * yields.
 */
module GitExecutor {
  import opened Wrappers
  import opened Json
  import opened Text
  import opened Http
  import opened GitIntent
  import opened Chat

  const GitService: string := "http://terminal-service:3004/git/"

  /** A payload value for an optional list of strings. */
  function OptStrs(o: Option<seq<string>>): Json {
    match o
    case Some(files) => Strs(files)
    case None => JNull
  }

  /** The request `execute_git_operation` sends for `op`; `None` for an operation it does not know. */
  function BuildRequest(op: GitOperationRequest, userId: string): (r: Option<HttpRequest>)
    ensures r.Some? <==> op.operation in KnownOperations
    ensures r.Some? ==> StartsWith(r.value.url, GitService + op.operation)
    ensures r.Some? ==> (r.value.verb == HttpGet <==> op.operation == "status")
    ensures r.Some? ==> (r.value.payload.None? <==> op.operation == "status")
  {
    if op.operation == "clone" then
      Some(HttpRequest(HttpPost, GitService + "clone", Some(JObj([
        ("repoUrl", OptStr(op.repoUrl)), ("branch", OptStr(op.branch)),
        ("userId", JStr(userId)), ("projectName", OptStr(op.projectName))]))))
    else if op.operation == "checkout" then
      Some(HttpRequest(HttpPost, GitService + "checkout", Some(JObj([
        ("branch", OptStr(op.branch)), ("userId", JStr(userId)), ("create", JBool(op.create))]))))
    else if op.operation == "status" then
      Some(HttpRequest(HttpGet, GitService + "status/" + userId, None))
    else if op.operation == "commit" then
      Some(HttpRequest(HttpPost, GitService + "commit", Some(JObj([
        ("userId", JStr(userId)), ("message", OptStr(op.message)), ("files", OptStrs(op.files))]))))
    else if op.operation == "push" then
      Some(HttpRequest(HttpPost, GitService + "push", Some(JObj([
        ("userId", JStr(userId)), ("branch", OptStr(op.branch))]))))
    else
      None
  }

  /** The user a request is sent on behalf of, as the terminal service reads it back. */
  function RequestUser(request: HttpRequest): Option<string> {
    match request.payload
    case Some(JObj(fields)) =>
      (match Get(fields, "userId") case Some(JStr(u)) => Some(u) case _ => None)
    case _ =>
      var prefix := GitService + "status/";
      if request.verb == HttpGet && StartsWith(request.url, prefix) then Some(request.url[|prefix|..]) else None
  }

  /** Every request names the user the handler acts for. */
  lemma RequestNamesUser(op: GitOperationRequest, userId: string)
    requires op.operation in KnownOperations
    ensures RequestUser(BuildRequest(op, userId).value) == Some(userId)
  {
    var request := BuildRequest(op, userId).value;
    if request.payload.Some? {
      var fields := request.payload.value.fields;
      GetUnique(fields, if op.operation == "clone" then 2 else if op.operation == "checkout" then 1 else 0, "userId");
    } else {
      var prefix := GitService + "status/";
      assert request.url == prefix + userId;
      assert request.url[..|prefix|] == prefix;
      assert request.url[|prefix|..] == userId;
    }
  }

  /** The fields of a commit payload carry the operation's message and files. */
  lemma CommitPayload(op: GitOperationRequest, userId: string)
    requires op.operation == "commit"
    ensures var fields := BuildRequest(op, userId).value.payload.value.fields;
      Get(fields, "message") == Some(OptStr(op.message)) && Get(fields, "files") == Some(OptStrs(op.files))
  {
    var fields := BuildRequest(op, userId).value.payload.value.fields;
    GetUnique(fields, 1, "message");
    GetUnique(fields, 2, "files");
  }

  /** The fields of a clone payload carry the operation's URL, branch and project name. */
  lemma ClonePayload(op: GitOperationRequest, userId: string)
    requires op.operation == "clone"
    ensures var fields := BuildRequest(op, userId).value.payload.value.fields;
      Get(fields, "repoUrl") == Some(OptStr(op.repoUrl)) && Get(fields, "branch") == Some(OptStr(op.branch)) &&
      Get(fields, "projectName") == Some(OptStr(op.projectName))
  {
    var fields := BuildRequest(op, userId).value.payload.value.fields;
    GetUnique(fields, 0, "repoUrl");
    GetUnique(fields, 1, "branch");
    GetUnique(fields, 3, "projectName");
  }

  /** The fields of a checkout payload carry the operation's branch and `create` flag. */
  lemma CheckoutPayload(op: GitOperationRequest, userId: string)
    requires op.operation == "checkout"
    ensures var fields := BuildRequest(op, userId).value.payload.value.fields;
      Get(fields, "branch") == Some(OptStr(op.branch)) && Get(fields, "create") == Some(JBool(op.create))
  {
    var fields := BuildRequest(op, userId).value.payload.value.fields;
    GetUnique(fields, 0, "branch");
    GetUnique(fields, 2, "create");
  }

  /** The fields of a push payload carry the operation's branch (never set by the extractor, so null). */
  lemma PushPayload(op: GitOperationRequest, userId: string)
    requires op.operation == "push"
    ensures var fields := BuildRequest(op, userId).value.payload.value.fields;
      Get(fields, "branch") == Some(OptStr(op.branch))
  {
    var fields := BuildRequest(op, userId).value.payload.value.fields;
    GetUnique(fields, 1, "branch");
  }

  /** `{'success': False, 'error': error}` */
  function Failure(error: Json): Json {
    JObj([("success", JBool(false)), ("error", error)])
  }

  /** A failure record: `success` false and an `error`. */
  predicate IsFailure(result: Json) {
    result.JObj? && |result.fields| == 2 && result.fields[0] == ("success", JBool(false)) &&
    result.fields[1].0 == "error"
  }

  /** The response was a 200 whose body decodes. */
  predicate Succeeded(outcome: HttpOutcome) {
    outcome.Received? && outcome.response.status == 200 && outcome.response.body.Decoded?
  }

  /**
   * The result record of one response: a decodable 200 body is passed through
   * as it is; anything else becomes a failure record whose error is the JSON
   * body's `error` (or "Git operation failed") when the response claims JSON,
   * the raw text otherwise, or the message of the exception raised on the way
   * (transport, decoding, or `.get` on a JSON body that is not an object).
   */
  function Classify(outcome: HttpOutcome): (result: Json)
    ensures Succeeded(outcome) ==> result == outcome.response.body.value
    ensures !Succeeded(outcome) ==> IsFailure(result)
    ensures outcome.Raised? ==> result == Failure(JStr(outcome.reason))
    ensures (outcome.Received? && outcome.response.status != 200 &&
             !StartsWith(outcome.response.contentType, "application/json")) ==>
      result == Failure(JStr(outcome.response.text))
    ensures (outcome.Received? && outcome.response.status != 200 &&
             StartsWith(outcome.response.contentType, "application/json") && outcome.response.body.Decoded? &&
             outcome.response.body.value.JObj?) ==>
      result == Failure(GetOr(outcome.response.body.value.fields, "error", JStr("Git operation failed")))
    ensures (outcome.Received? && outcome.response.body.Undecodable? &&
             (outcome.response.status == 200 || StartsWith(outcome.response.contentType, "application/json"))) ==>
      result == Failure(JStr(outcome.response.body.reason))
    ensures (outcome.Received? && outcome.response.status != 200 &&
             StartsWith(outcome.response.contentType, "application/json") && outcome.response.body.Decoded? &&
             !outcome.response.body.value.JObj?) ==>
      result == Failure(JStr("'" + TypeName(outcome.response.body.value) + "' object has no attribute 'get'"))
  {
    match outcome
    case Raised(reason) => Failure(JStr(reason))
    case Received(response) =>
      if response.status == 200 then
        match response.body
        case Decoded(value) => value
        case Undecodable(reason) => Failure(JStr(reason))
      else if StartsWith(response.contentType, "application/json") then
        match response.body
        case Undecodable(reason) => Failure(JStr(reason))
        case Decoded(JObj(fields)) => Failure(GetOr(fields, "error", JStr("Git operation failed")))
        case Decoded(other) => Failure(JStr("'" + TypeName(other) + "' object has no attribute 'get'"))
      else
        Failure(JStr(response.text))
  }

  /** `execute_git_operation(op, user_id)` as the `i`-th operation of the handler. */
  function Attempt(op: GitOperationRequest, userId: string, i: nat, remote: (nat, HttpRequest) -> HttpOutcome)
    : (result: Json)
    ensures op.operation !in KnownOperations ==>
      result == Failure(JStr("Unknown git operation: " + op.operation))
    ensures op.operation in KnownOperations ==> result == Classify(remote(i, BuildRequest(op, userId).value))
  {
    match BuildRequest(op, userId)
    case None => Failure(JStr("Unknown git operation: " + op.operation))
    case Some(request) => Classify(remote(i, request))
  }

  /** `{'operation': tag, 'result': result}` */
  function Report(op: GitOperationRequest, result: Json): Json {
    JObj([("operation", JStr(op.operation)), ("result", result)])
  }

  /**
   * The aggregation loop: every operation is attempted, in order, whatever
   * became of the earlier ones, and each yields one record labelled with its tag.
   */
  method RunOperations(operations: seq<GitOperationRequest>, userId: string, remote: (nat, HttpRequest) -> HttpOutcome)
    returns (results: seq<Json>)
    ensures |results| == |operations|
    ensures forall i :: 0 <= i < |operations| ==>
      results[i] == Report(operations[i], Attempt(operations[i], userId, i, remote))
  {
    results := [];
    for i := 0 to |operations|
      invariant |results| == i
      invariant forall k :: 0 <= k < i ==> results[k] == Report(operations[k], Attempt(operations[k], userId, k, remote))
    {
      var result := Attempt(operations[i], userId, i, remote);
      results := results + [Report(operations[i], result)];
    }
  }

  /** The content of the latest message whose role is "user". */
  function LatestUserContent(messages: seq<ChatMessage>): Option<string> {
    if messages == [] then None
    else if messages[|messages| - 1].role == "user" then Some(messages[|messages| - 1].content)
    else LatestUserContent(messages[..|messages| - 1])
  }

  /** There is no user message exactly when nothing is found; otherwise the found one is the latest. */
  lemma {:induction false} LatestUserContentIsLatest(messages: seq<ChatMessage>)
    ensures LatestUserContent(messages).None? <==> forall i :: 0 <= i < |messages| ==> messages[i].role != "user"
    ensures LatestUserContent(messages).Some? ==> exists i :: (0 <= i < |messages| && messages[i].role == "user" &&
      messages[i].content == LatestUserContent(messages).value &&
      forall j :: i < j < |messages| ==> messages[j].role != "user")
  {
    if messages != [] && messages[|messages| - 1].role != "user" {
      var init := messages[..|messages| - 1];
      LatestUserContentIsLatest(init);
      assert forall i :: 0 <= i < |init| ==> init[i] == messages[i];
    }
  }

  /** The backwards scan with `break` that finds the latest user message. */
  method LastUserMessage(messages: seq<ChatMessage>) returns (content: Option<string>)
    ensures content == LatestUserContent(messages)
  {
    content := None;
    var i := |messages|;
    assert messages[..i] == messages;
    while i > 0
      invariant 0 <= i <= |messages|
      invariant LatestUserContent(messages) == LatestUserContent(messages[..i])
      decreases i
    {
      assert messages[..i][..i - 1] == messages[..i - 1];
      if messages[i - 1].role == "user" {
        content := Some(messages[i - 1].content);
        return;
      }
      i := i - 1;
    }
  }

  const NoUserMessage: Reply := Rejected(400, "No user message found")

  /** `{'operations': [], 'message': 'No git operations detected'}` */
  const NothingDetected: Json := JObj([("operations", JArr([])), ("message", JStr("No git operations detected"))])

  /** `{'operations': len(operations), 'results': results}` */
  function Executed(count: nat, results: seq<Json>): Json {
    JObj([("operations", JNum(count)), ("results", JArr(results))])
  }

  /** The records the loop produces for `operations`. */
  function Reports(operations: seq<GitOperationRequest>, userId: string, remote: (nat, HttpRequest) -> HttpOutcome)
    : (results: seq<Json>)
    ensures |results| == |operations|
    ensures forall i :: 0 <= i < |operations| ==>
      results[i] == Report(operations[i], Attempt(operations[i], userId, i, remote))
  {
    seq(|operations|, i requires 0 <= i < |operations| => Report(operations[i], Attempt(operations[i], userId, i, remote)))
  }

  /** `POST /git/execute`. */
  method ExecuteGitOperations(userId: Option<string>, request: ChatRequest, remote: (nat, HttpRequest) -> HttpOutcome)
    returns (reply: Reply)
    ensures !Authenticated(userId) ==> reply == NotAuthenticated
    ensures Authenticated(userId) && (LatestUserContent(request.messages) in {None, Some("")}) ==>
      reply == NoUserMessage
    ensures (Authenticated(userId) && LatestUserContent(request.messages).Some? &&
             LatestUserContent(request.messages).value != "") ==>
      var operations := Detect(LatestUserContent(request.messages).value);
      reply == Replied(if operations == [] then NothingDetected
                       else Executed(|operations|, Reports(operations, userId.value, remote)))
  {
    if !Authenticated(userId) {
      return NotAuthenticated;
    }
    var message := LastUserMessage(request.messages);
    if message.None? || message.value == "" {
      return NoUserMessage;
    }
    var operations := DetectGitOperations(message.value);
    if operations == [] {
      return Replied(NothingDetected);
    }
    var results := RunOperations(operations, userId.value, remote);
    assert results == Reports(operations, userId.value, remote);
    reply := Replied(Executed(|operations|, results));
  }

  /** Every operation the handler detects is one `execute_git_operation` knows, so none is "Unknown". */
  lemma DetectedOperationsAreSent(message: string, userId: string)
    ensures forall i :: 0 <= i < |Detect(message)| ==> BuildRequest(Detect(message)[i], userId).Some?
  {
    DetectIsCategoryOrdered(message);
  }

  /** Each record of a run is labelled with the tag of its operation and is a failure when the request did not succeed. */
  lemma ReportsLabelled(operations: seq<GitOperationRequest>, userId: string, remote: (nat, HttpRequest) -> HttpOutcome)
    ensures forall i :: 0 <= i < |operations| ==>
      var fields := Reports(operations, userId, remote)[i].fields;
      Get(fields, "operation") == Some(JStr(operations[i].operation)) &&
      (operations[i].operation in KnownOperations && !Succeeded(remote(i, BuildRequest(operations[i], userId).value)) ==>
         IsFailure(Get(fields, "result").value))
  {
    forall i | 0 <= i < |operations|
      ensures var fields := Reports(operations, userId, remote)[i].fields;
        Get(fields, "operation") == Some(JStr(operations[i].operation))
    {
      var fields := Reports(operations, userId, remote)[i].fields;
      GetUnique(fields, 0, "operation");
    }
  }
}
