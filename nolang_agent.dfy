/** The framework-free agent: a fixed registry of three tools and a loop that asks the
    completion endpoint for the next step, runs the tool the reply names, and appends the
    tool's result to the conversation until the reply is a final answer. */
module NolangAgent {
  import opened Text
  import opened Chat
  import opened Collaborators
  import opened Protocol
  import opened QueryEscape
  import opened PyRepr
  import SchemaInfo

  // ---------------------------------------------------------------------------
  // Tool registry

  /** Which of the agent's bound methods a tool runs. */
  datatype ToolKind = TableInfo | QueryChecker | QueryExecutor

  /** A registered tool: the name the model calls it by and the method it runs. */
  datatype Tool = Tool(name: string, kind: ToolKind)

  predicate DistinctNames(tools: seq<Tool>)
  {
    forall i, j :: 0 <= i < j < |tools| ==> tools[i].name != tools[j].name
  }

  /** `_get_tools`. */
  function Registry(): seq<Tool>
  {
    [ Tool("snowflake_table_info", TableInfo),
      Tool("query_checker", QueryChecker),
      Tool("query_executor", QueryExecutor) ]
  }

  /** The description each tool is registered with. The loop never reads it. */
  function Description(kind: ToolKind): string
  {
    match kind
    case TableInfo =>
      "Input: comma-separated list of tables. Output: schema and sample rows for those tables."
    case QueryChecker =>
      "Use this to check your query before executing it with query_executor."
    case QueryExecutor =>
      "Input: correct SQL query. Output: result and query_id. If error, rewrite and try again."
  }

  /** The checker's description names the executor by its registered name. */
  lemma CheckerNamesExecutor()
    ensures var d := Description(QueryChecker);
      |d| >= 15 && d[|d| - 15..|d| - 1] == Registry()[2].name
  {
  }

  /** The registry holds the three tools under three different names. */
  lemma RegistryNamesDistinct()
    ensures |Registry()| == 3 && DistinctNames(Registry())
    ensures Registry()[0].name == "snowflake_table_info" && Registry()[0].kind == TableInfo
    ensures Registry()[1].name == "query_checker" && Registry()[1].kind == QueryChecker
    ensures Registry()[2].name == "query_executor" && Registry()[2].kind == QueryExecutor
  {
    var r := Registry();
    assert r[0].name[0] == 's' && r[1].name[0] == 'q' && r[2].name[0] == 'q';
    assert r[1].name[6] == 'c' && r[2].name[6] == 'e';
  }

  /** Index of the first tool called `name`, as `next(t for t in tools if t.name == name)`. */
  function Lookup(tools: seq<Tool>, name: string): (r: Option<nat>)
    ensures r.Some? ==> r.value < |tools| && tools[r.value].name == name
    ensures forall j :: 0 <= j < |tools| && (r.None? || j < r.value) ==> tools[j].name != name
  {
    if tools == [] then None
    else if tools[0].name == name then Some(0)
    else match Lookup(tools[1..], name)
      case None => None
      case Some(i) => Some(i + 1)
  }

  function FindTool(tools: seq<Tool>, name: string): Option<Tool>
  {
    match Lookup(tools, name)
    case None => None
    case Some(i) => Some(tools[i])
  }

  /** With distinct names, lookup finds a tool exactly when one has that name, and then
      finds that one. */
  lemma FindToolExact(tools: seq<Tool>, name: string, k: nat)
    requires DistinctNames(tools) && k < |tools|
    ensures FindTool(tools, name) == Some(tools[k]) <==> tools[k].name == name
  {
    var r := Lookup(tools, name);
    if tools[k].name == name {
      assert r.Some?;
    }
  }

  // ---------------------------------------------------------------------------
  // Parsing a reply

  datatype Step = Final(answer: string) | Call(name: string, input: string)

  /** Reply parsing inside `run`: final only when the stripped reply STARTS with the marker. */
  function ParseReply(reply: string): Step
  {
    if StartsWith(Strip(reply), FinalMarker) then Final(FinalAnswer(reply))
    else Call(ToolName(reply), ToolInput(reply))
  }

  /** A reply that opens (after whitespace) with the marker is final, and its answer is the
      trimmed text after the last marker, wherever that is. */
  lemma ParseReplyFinal(lead: string, tail: string, before: string, after: string)
    requires AllSpace(lead)
    requires lead + FinalMarker + tail == before + FinalMarker + after
    requires !Contains(after, FinalMarker)
    ensures ParseReply(lead + FinalMarker + tail) == Final(Strip(after))
  {
    StartsAfterSpaces(lead, tail);
    FinalAnswerAfterLastMarker(lead + FinalMarker + tail, before, after);
  }

  lemma StartsAfterSpaces(lead: string, tail: string)
    requires AllSpace(lead)
    ensures StartsWith(Strip(lead + FinalMarker + tail), FinalMarker)
  {
    assert FinalMarker[0] == 'F' && FinalMarker[|FinalMarker| - 1] == ':';
    StripKeepsPrefix(lead, FinalMarker, tail);
  }

  /** Any other reply is a tool call, split at its first colon. */
  lemma ParseReplyCall(reply: string, name: string, rest: string)
    requires !StartsWith(Strip(reply), FinalMarker)
    requires reply == name + ":" + rest && ':' !in name
    ensures ParseReply(reply) == Call(Strip(name), Strip(rest))
  {
    ToolCallAtFirstColon(reply, name, rest);
  }

  // ---------------------------------------------------------------------------
  // Tools

  /** The agent's construction-time state; `run` never changes it. `checker` is the fixed
      checker template and `systemMessage` the fixed instructions. */
  datatype Agent = Agent(complete: Completion, connection: Connection,
                         systemMessage: string, checker: CheckerTemplate)

  /** `_query_executor`'s dictionary: `{results, query_id}` or `{error}`. */
  datatype ExecutorResult = Results(rows: string, queryId: string) | Error(message: string)

  /** `_query_executor`: runs the query and never raises; a failure becomes data. */
  function QueryExecutorRun(connection: Connection, query: string): (r: ExecutorResult)
    ensures r.Error? <==> connection(query).Failed?
    ensures r.Results? ==> r.rows == connection(query).rows && r.queryId == connection(query).queryId
    ensures r.Error? ==> r.message == connection(query).message
  {
    match connection(query)
    case Fetched(rows, id) => Results(rows, id)
    case Failed(message) => Error(message)
  }

  /** `str()` of the executor's dictionary, as the f-string in `run` renders it. */
  function RenderExecutorResult(r: ExecutorResult): string
  {
    match r
    case Results(rows, id) => "{'results': " + rows + ", 'query_id': " + StrRepr(id) + "}"
    case Error(message) => "{'error': " + StrRepr(message) + "}"
  }

  /** The rendering tells success from failure, and a failure's message can be read back
      from the text, so the model sees exactly what went wrong. */
  lemma RenderedErrorCarriesMessage(connection: Connection, query: string)
    ensures var text := RenderExecutorResult(QueryExecutorRun(connection, query));
      var head := "{'error': ";
      connection(query).Failed? <==> StartsWith(text, head)
    ensures connection(query).Failed? ==>
      var text := RenderExecutorResult(QueryExecutorRun(connection, query));
      |text| >= 11 && ReadLiteral(text[10..|text| - 1]) == Some(connection(query).message)
  {
    var r := QueryExecutorRun(connection, query);
    var text := RenderExecutorResult(r);
    if r.Error? {
      ReadStrRepr(r.message);
      assert text[10..|text| - 1] == StrRepr(r.message);
    } else {
      assert text[2] == 'r';
    }
  }

  /** How the cursor describes a table: the fetched rows' text, or the exception. */
  function DescribeWith(connection: Connection): SchemaInfo.Describe
  {
    t => match connection("DESCRIBE TABLE " + t)
         case Fetched(rows, _) => Returned(rows)
         case Failed(message) => Raised(message)
  }

  /** What `tool.run(tool_input)` returns, or the exception it lets through. */
  function Invoke(agent: Agent, kind: ToolKind, input: string): Outcome<string>
  {
    match kind
    case TableInfo => SchemaInfo.Report(Split(input, ","), DescribeWith(agent.connection))
    case QueryChecker => agent.complete(CheckerRequest(agent.checker, input))
    case QueryExecutor => Returned(RenderExecutorResult(QueryExecutorRun(agent.connection, input)))
  }

  /** Only the executor is guaranteed not to raise. */
  lemma ExecutorNeverRaises(agent: Agent, input: string)
    ensures Invoke(agent, QueryExecutor, input).Returned?
  {
  }

  method InvokeTool(agent: Agent, kind: ToolKind, input: string) returns (r: Outcome<string>)
    ensures r == Invoke(agent, kind, input)
  {
    match kind
    case TableInfo =>
      r := SchemaInfo.TableInfo(input, DescribeWith(agent.connection));
    case QueryChecker =>
      r := agent.complete(CheckerRequest(agent.checker, input));
    case QueryExecutor =>
      r := Returned(RenderExecutorResult(QueryExecutorRun(agent.connection, input)));
  }

  // ---------------------------------------------------------------------------
  // The loop

  function ToolReturnedMessage(name: string, output: string): Message
  {
    Message(User, "Tool " + name + " returned: " + output)
  }

  function ToolNotFoundMessage(name: string): Message
  {
    Message(User, "Error: Tool " + name + " not found.")
  }

  /** One pass of the loop body. */
  datatype TurnResult = Finished(answer: string) | Continued(message: Message) | Crashed(error: string)

  function Turn(agent: Agent, transcript: seq<Message>): TurnResult
  {
    match agent.complete(transcript)
    case Raised(e) => Crashed(e)
    case Returned(reply) =>
      match ParseReply(reply)
      case Final(answer) => Finished(answer)
      case Call(name, input) =>
        match FindTool(Registry(), name)
        case None => Continued(ToolNotFoundMessage(name))
        case Some(tool) =>
          match Invoke(agent, tool.kind, input)
          case Raised(e) => Crashed(e)
          case Returned(output) => Continued(ToolReturnedMessage(name, output))
  }

  /** How a run ends: the final answer, an exception that escaped the loop, or (in the
      model only) the turn budget running out. */
  datatype RunOutcome = Answered(answer: string) | Aborted(error: string) | TurnsExhausted

  /** The end state of a run: its outcome, the conversation, and how many passes of the
      loop were made (the loop's own completion call each; the nested completion call of
      `query_checker` is not counted). */
  datatype Session = Session(outcome: RunOutcome, transcript: seq<Message>, passes: nat)

  /** What one pass of the loop does with the conversation so far. */
  type Pass = seq<Message> -> TurnResult

  /** The agent's pass: `Turn` with the agent fixed. */
  function PassOf(agent: Agent): Pass
  {
    transcript => Turn(agent, transcript)
  }

  /** The loop from `transcript`, allowed at most `fuel` passes (each makes the loop's own
      completion call; a `query_checker` tool makes one more inside it, not counted). */
  function Drive(pass: Pass, transcript: seq<Message>, fuel: nat): Session
    decreases fuel
  {
    if fuel == 0 then Session(TurnsExhausted, transcript, 0)
    else match pass(transcript)
      case Finished(answer) => Session(Answered(answer), transcript, 1)
      case Crashed(e) => Session(Aborted(e), transcript, 1)
      case Continued(message) =>
        var s := Drive(pass, transcript + [message], fuel - 1);
        Session(s.outcome, s.transcript, s.passes + 1)
  }

  /** Every pass that continues adds one user-role message. */
  lemma TurnAppendsUserMessage(agent: Agent)
    ensures forall t :: PassOf(agent)(t).Continued? ==> PassOf(agent)(t).message.role == User
  {
  }

  /** A pass finishes exactly on a reply that the parser reads as final, with the answer
      the parser extracted. */
  lemma TurnFinishesOnFinal(agent: Agent, transcript: seq<Message>, answer: string)
    ensures Turn(agent, transcript) == Finished(answer)
        <==> agent.complete(transcript).Returned?
             && ParseReply(agent.complete(transcript).value) == Final(answer)
  {
  }

  /** A parsed call of a name that no registered tool has never stops the loop and never
      raises: the pass appends "Error: Tool {name} not found." */
  lemma UnknownNameContinues(agent: Agent, transcript: seq<Message>, reply: string,
                             name: string, input: string)
    requires agent.complete(transcript) == Returned(reply)
    requires ParseReply(reply) == Call(name, input)
    requires forall t :: t in Registry() ==> t.name != name
    ensures Turn(agent, transcript) == Continued(ToolNotFoundMessage(name))
  {
  }

  /** The same for a reply split at its first colon. */
  lemma UnknownToolContinues(agent: Agent, transcript: seq<Message>, name: string, rest: string)
    requires agent.complete(transcript) == Returned(name + ":" + rest)
    requires ':' !in name && !StartsWith(Strip(name + ":" + rest), FinalMarker)
    requires forall t :: t in Registry() ==> t.name != Strip(name)
    ensures Turn(agent, transcript) == Continued(ToolNotFoundMessage(Strip(name)))
  {
    ParseReplyCall(name + ":" + rest, name, rest);
    UnknownNameContinues(agent, transcript, name + ":" + rest, Strip(name), Strip(rest));
  }

  /** A reply without a colon is never final (the marker ends in one), so its whole trimmed
      text names the tool; when no tool has that name the loop goes on with the error. */
  lemma UnknownBareNameContinues(agent: Agent, transcript: seq<Message>, reply: string)
    requires agent.complete(transcript) == Returned(reply)
    requires ':' !in reply
    requires forall t :: t in Registry() ==> t.name != Strip(reply)
    ensures Turn(agent, transcript) == Continued(ToolNotFoundMessage(Strip(reply)))
  {
    WithoutColonNotFinal(reply);
    ToolCallWithoutColon(reply);
    UnknownNameContinues(agent, transcript, reply, Strip(reply), "");
  }

  lemma WithoutColonNotFinal(reply: string)
    requires ':' !in reply
    ensures !StartsWith(Strip(reply), FinalMarker)
  {
    assert FinalMarker[|FinalMarker| - 1] == ':';
    forall k | 0 <= k <= |reply| ensures !OccursAt(reply, FinalMarker, k) {
      if k + |FinalMarker| <= |reply| {
        assert reply[k..k + |FinalMarker|][|FinalMarker| - 1] == reply[k + |FinalMarker| - 1];
      }
    }
    StripStartContainsIf(reply, FinalMarker);
  }

  /** A reply naming a registered tool runs that tool on the text after the first colon,
      and the pass appends "Tool {name} returned: {output}" unless the tool raised. */
  lemma KnownToolRuns(agent: Agent, transcript: seq<Message>, name: string, rest: string, k: nat)
    requires agent.complete(transcript) == Returned(name + ":" + rest)
    requires ':' !in name && !StartsWith(Strip(name + ":" + rest), FinalMarker)
    requires k < |Registry()| && Registry()[k].name == Strip(name)
    ensures var output := Invoke(agent, Registry()[k].kind, Strip(rest));
      Turn(agent, transcript) == match output
        case Returned(text) => Continued(ToolReturnedMessage(Strip(name), text))
        case Raised(e) => Crashed(e)
  {
    ParseReplyCall(name + ":" + rest, name, rest);
    RegistryNamesDistinct();
    FindToolExact(Registry(), Strip(name), k);
    TurnOnCall(agent, transcript, name + ":" + rest, Strip(name), Strip(rest), Registry()[k]);
  }

  lemma TurnOnCall(agent: Agent, transcript: seq<Message>, reply: string, name: string, input: string, tool: Tool)
    requires agent.complete(transcript) == Returned(reply)
    requires ParseReply(reply) == Call(name, input)
    requires FindTool(Registry(), name) == Some(tool)
    ensures Turn(agent, transcript) == match Invoke(agent, tool.kind, input)
      case Returned(text) => Continued(ToolReturnedMessage(name, text))
      case Raised(e) => Crashed(e)
  {
  }

  /** The run only ever appends: the conversation it starts from stays its prefix. One
      message is appended per pass that did not end the run, and no more passes are made
      than the budget allows. */
  lemma {:induction false} DriveExtends(pass: Pass, transcript: seq<Message>, fuel: nat)
    ensures var s := Drive(pass, transcript, fuel);
      |transcript| <= |s.transcript| && s.transcript[..|transcript|] == transcript
      && s.passes <= fuel
      && (s.outcome.TurnsExhausted? ==> s.passes == fuel && |s.transcript| == |transcript| + fuel)
      && (!s.outcome.TurnsExhausted? ==> |s.transcript| == |transcript| + s.passes - 1)
    decreases fuel
  {
    if fuel > 0 && pass(transcript).Continued? {
      var next := transcript + [pass(transcript).message];
      DriveExtends(pass, next, fuel - 1);
      var s := Drive(pass, next, fuel - 1);
      assert s.transcript[..|next|] == next;
      assert s.transcript[..|transcript|] == next[..|transcript|];
    }
  }

  /** Each appended message is the one the pass produced from the conversation before it. */
  lemma {:induction false} DriveAppendsPassMessages(pass: Pass, transcript: seq<Message>, fuel: nat)
    ensures forall k :: |transcript| <= k < |Drive(pass, transcript, fuel).transcript| ==>
      pass(Drive(pass, transcript, fuel).transcript[..k])
        == Continued(Drive(pass, transcript, fuel).transcript[k])
    decreases fuel
  {
    if fuel > 0 && pass(transcript).Continued? {
      var next := transcript + [pass(transcript).message];
      DriveAppendsPassMessages(pass, next, fuel - 1);
      DriveExtends(pass, next, fuel - 1);
      var s := Drive(pass, next, fuel - 1);
      assert s.transcript[..|next|] == next;
      assert s.transcript[..|transcript|] == transcript;
      assert s.transcript[|transcript|] == next[|transcript|];
    }
  }

  /** When every continuing pass yields a user-role message, everything the run appends
      has the user role. */
  lemma DriveAppendsUserRole(pass: Pass, transcript: seq<Message>, fuel: nat)
    requires forall t :: pass(t).Continued? ==> pass(t).message.role == User
    ensures var s := Drive(pass, transcript, fuel);
      forall k :: |transcript| <= k < |s.transcript| ==> s.transcript[k].role == User
  {
    DriveAppendsPassMessages(pass, transcript, fuel);
    var s := Drive(pass, transcript, fuel);
    assert forall k :: |transcript| <= k < |s.transcript| ==>
      pass(s.transcript[..k]) == Continued(s.transcript[k]);
    forall k | |transcript| <= k < |s.transcript| ensures s.transcript[k].role == User {
      assert pass(s.transcript[..k]).Continued?;
      assert pass(s.transcript[..k]).message == s.transcript[k];
    }
  }

  /** The instructions open every conversation the agent's loop produces and are never
      changed, removed or repeated; the user's request stays second, and every later
      message is a user-role message. */
  lemma SystemMessageStaysFirst(agent: Agent, input: string, fuel: nat)
    ensures var s := Drive(PassOf(agent), Opening(agent.systemMessage, input), fuel);
      |s.transcript| >= 2 && s.transcript[..2] == Opening(agent.systemMessage, input)
      && (forall k :: 0 <= k < |s.transcript| ==> (s.transcript[k].role == System <==> k == 0))
  {
    var opening := Opening(agent.systemMessage, input);
    var s := Drive(PassOf(agent), opening, fuel);
    DriveExtends(PassOf(agent), opening, fuel);
    TurnAppendsUserMessage(agent);
    DriveAppendsUserRole(PassOf(agent), opening, fuel);
    assert s.transcript[0] == opening[0] && s.transcript[1] == opening[1];
  }

  /** The run ends with an answer only on a pass that finished with that answer, at the
      conversation it ended with: nothing is appended for a final reply. */
  lemma {:induction false} DriveAnswersOnlyOnFinal(pass: Pass, transcript: seq<Message>, fuel: nat)
    requires Drive(pass, transcript, fuel).outcome.Answered?
    ensures var s := Drive(pass, transcript, fuel);
      pass(s.transcript) == Finished(s.outcome.answer)
    decreases fuel
  {
    if pass(transcript).Continued? {
      DriveAnswersOnlyOnFinal(pass, transcript + [pass(transcript).message], fuel - 1);
    }
  }

  /** The budget only truncates: a run that ended within its budget ends the same way,
      with the same conversation, under any larger budget. */
  lemma {:induction false} DriveBudgetIrrelevant(pass: Pass, transcript: seq<Message>, fuel: nat, more: nat)
    requires !Drive(pass, transcript, fuel).outcome.TurnsExhausted?
    ensures Drive(pass, transcript, fuel + more) == Drive(pass, transcript, fuel)
    decreases fuel
  {
    if pass(transcript).Continued? {
      DriveBudgetIrrelevant(pass, transcript + [pass(transcript).message], fuel - 1, more);
    }
  }

  /** A run that used up its budget is the first part of any longer run: the longer run
      carries on from the conversation the shorter one reached. */
  lemma {:induction false} DriveResumes(pass: Pass, transcript: seq<Message>, fuel: nat, more: nat)
    requires Drive(pass, transcript, fuel).outcome.TurnsExhausted?
    ensures var s := Drive(pass, transcript, fuel);
      var t := Drive(pass, s.transcript, more);
      Drive(pass, transcript, fuel + more) == Session(t.outcome, t.transcript, t.passes + fuel)
    decreases fuel
  {
    if fuel > 0 {
      DriveResumes(pass, transcript + [pass(transcript).message], fuel - 1, more);
    }
  }

  // ---------------------------------------------------------------------------
  // A worked session

  /** A reply "query_executor: {query}" runs the query and reports its result. */
  lemma ExecutorCallRuns(agent: Agent, transcript: seq<Message>, query: string)
    requires query != [] && Trimmed(query)
    requires agent.complete(transcript) == Returned("query_executor" + ": " + query)
    ensures Turn(agent, transcript)
      == Continued(ToolReturnedMessage("query_executor",
                     RenderExecutorResult(QueryExecutorRun(agent.connection, query))))
  {
    var reply := "query_executor" + ": " + query;
    assert Trimmed("query_executor") && ':' !in "query_executor";
    CallParses("query_executor", query);
    ExecutorFound();
    TurnOnCall(agent, transcript, reply, "query_executor", query, Registry()[2]);
  }

  /** "{name}: {input}", with a trimmed name free of colons other than "Final Answer",
      is a call of that tool on that input. */
  lemma CallParses(name: string, input: string)
    requires name != [] && Trimmed(name) && ':' !in name && name != "Final Answer"
    requires input != [] && Trimmed(input)
    ensures ParseReply(name + ": " + input) == Call(name, input)
  {
    var reply := name + ": " + input;
    var rest := " " + input;
    assert reply == name + ":" + rest;
    assert ParseReply(reply) == Call(Strip(name), Strip(rest)) by {
      assert reply[0] == name[0] && reply[|reply| - 1] == input[|input| - 1];
      TrimmedStrips(reply);
      ColonNameNotFinal(name, rest);
      ParseReplyCall(reply, name, rest);
    }
    TrimmedStrips(name);
    SpacedStrips(input);
  }

  /** `query_executor` is found in the registry, as its third tool. */
  lemma ExecutorFound()
    ensures FindTool(Registry(), "query_executor") == Some(Registry()[2])
  {
    RegistryNamesDistinct();
    FindToolExact(Registry(), "query_executor", 2);
  }

  /** "{name}:{rest}" starts with the marker only when the name is "Final Answer": the
      marker's only colon is its last character. */
  lemma ColonNameNotFinal(name: string, rest: string)
    requires ':' !in name && name != "Final Answer"
    ensures !StartsWith(name + ":" + rest, FinalMarker)
  {
    var s := name + ":" + rest;
    var m := |FinalMarker|;
    assert FinalMarker[..m - 1] == "Final Answer" && FinalMarker[m - 1] == ':';
    if m <= |s| {
      if |name| < m - 1 {
        assert ':' !in FinalMarker[..m - 1];
        assert s[..m][|name|] == ':' && FinalMarker[..m - 1][|name|] != ':';
      } else if |name| == m - 1 {
        assert s[..m][..m - 1] == name;
      } else {
        assert s[..m][m - 1] == name[m - 1];
      }
    }
  }

  /** A reply "Final Answer: {answer}" ends the run with that answer. */
  lemma FinalReplyAnswers(agent: Agent, transcript: seq<Message>, answer: string)
    requires Trimmed(answer) && !Contains(answer, FinalMarker)
    requires agent.complete(transcript) == Returned(FinalMarker + " " + answer)
    ensures Turn(agent, transcript) == Finished(answer)
  {
    FinalReplyParses(answer);
    TurnFinishesOnFinal(agent, transcript, answer);
  }

  /** "Final Answer: {answer}" parses as that final answer. */
  lemma FinalReplyParses(answer: string)
    requires Trimmed(answer) && !Contains(answer, FinalMarker)
    ensures ParseReply(FinalMarker + " " + answer) == Final(answer)
  {
    var none: string := [];
    var tail := " " + answer;
    assert FinalMarker + " " + answer == none + FinalMarker + tail;
    SpacedTail(answer);
    ParseReplyFinal(none, tail, none, tail);
  }

  /** The text after "Final Answer:" in such a reply holds no marker and strips to the
      answer. */
  lemma SpacedTail(answer: string)
    requires Trimmed(answer) && !Contains(answer, FinalMarker)
    ensures !Contains(" " + answer, FinalMarker) && Strip(" " + answer) == answer
  {
    assert FinalMarker[0] == 'F';
    NotContainsAfter(' ', answer, FinalMarker);
    assert [' '] + answer == " " + answer;
    SpacedStrips(answer);
  }

  /** A two-call session: the model first calls `query_executor`, whose cursor returns
      rows and a query id; then it gives a final answer. The loop makes exactly two
      passes (one completion call each, as `query_executor` makes none), appends exactly the executor's rendered result, and returns the
      answer. */
  lemma TwoCallSession(agent: Agent, request: string, query: string, rows: string, id: string,
                       answer: string, fuel: nat)
    requires fuel >= 2 && query != [] && Trimmed(query) && Trimmed(answer)
             && !Contains(answer, FinalMarker)
    requires agent.complete(Opening(agent.systemMessage, request)) == Returned("query_executor" + ": " + query)
    requires agent.connection(query) == Fetched(rows, id)
    requires agent.complete(Opening(agent.systemMessage, request)
               + [ToolReturnedMessage("query_executor", RenderExecutorResult(Results(rows, id)))])
             == Returned(FinalMarker + " " + answer)
    ensures Drive(PassOf(agent), Opening(agent.systemMessage, request), fuel)
      == Session(Answered(answer),
                 Opening(agent.systemMessage, request)
                 + [ToolReturnedMessage("query_executor", RenderExecutorResult(Results(rows, id)))], 2)
  {
    var t0 := Opening(agent.systemMessage, request);
    var m := ToolReturnedMessage("query_executor", RenderExecutorResult(Results(rows, id)));
    var pass := PassOf(agent);
    ExecutorCallRuns(agent, t0, query);
    assert QueryExecutorRun(agent.connection, query) == Results(rows, id);
    assert pass(t0) == Continued(m);
    FinalReplyAnswers(agent, t0 + [m], answer);
    assert pass(t0 + [m]) == Finished(answer);
    DriveTwoPasses(pass, t0, m, answer, fuel);
  }

  /** A pass that continues once and then finishes ends the run after two passes. */
  lemma DriveTwoPasses(pass: Pass, t0: seq<Message>, m: Message, answer: string, fuel: nat)
    requires fuel >= 2 && pass(t0) == Continued(m) && pass(t0 + [m]) == Finished(answer)
    ensures Drive(pass, t0, fuel) == Session(Answered(answer), t0 + [m], 2)
  {
  }

  /** One pass of the loop body: ask for a reply, parse it, and either stop or run the
      named tool (or report it missing). */
  method TakeTurn(agent: Agent, transcript: seq<Message>) returns (t: TurnResult)
    ensures t == Turn(agent, transcript)
  {
    var reply := agent.complete(transcript);
    if reply.Raised? {
      return Crashed(reply.message);
    }
    var step := ParseReply(reply.value);
    if step.Final? {
      return Finished(step.answer);
    }
    var tool := FindTool(Registry(), step.name);
    if tool.None? {
      return Continued(ToolNotFoundMessage(step.name));
    }
    var output := InvokeTool(agent, tool.value.kind, step.input);
    if output.Raised? {
      return Crashed(output.message);
    }
    t := Continued(ToolReturnedMessage(step.name, output.value));
  }

  /** `run`: start from the instructions and the user's input, and loop. The source loops
      without bound; here at most `maxTurns` passes of the loop are made (the loop's own
      completion call each; the nested call of `query_checker` is not counted). */
  method Run(agent: Agent, input: string, maxTurns: nat)
    returns (outcome: RunOutcome, messages: seq<Message>, passes: nat)
    ensures Drive(PassOf(agent), Opening(agent.systemMessage, input), maxTurns)
            == Session(outcome, messages, passes)
    ensures |messages| >= 2 && messages[0] == Message(System, agent.systemMessage)
    ensures messages[1] == Message(User, input)
  {
    messages := [Message(System, agent.systemMessage), Message(User, input)];
    ghost var goal := Drive(PassOf(agent), messages, maxTurns);
    passes := 0;
    ghost var pass := PassOf(agent);
    while passes < maxTurns
      invariant passes <= maxTurns
      invariant |messages| >= 2 && messages[0] == Message(System, agent.systemMessage)
      invariant messages[1] == Message(User, input)
      invariant var s := Drive(pass, messages, maxTurns - passes);
        s.outcome == goal.outcome && s.transcript == goal.transcript && s.passes + passes == goal.passes
    {
      var turn := TakeTurn(agent, messages);
      assert pass(messages) == turn;
      ghost var before := messages;
      passes := passes + 1;
      match turn
      case Finished(answer) =>
        return Answered(answer), messages, passes;
      case Crashed(e) =>
        return Aborted(e), messages, passes;
      case Continued(message) =>
        messages := messages + [message];
    }
    outcome := TurnsExhausted;
  }
}
