# Query-optimisation agent: control loop and tool protocol

This project models the core of a Snowflake query-optimisation assistant. A language model
talks to the agent in plain text. Each reply either gives a final answer after the marker
`Final Answer:`, or names a tool before its first colon and passes the rest of the reply to
that tool. The agent runs the tool and appends its result to the conversation, then asks
again.

There are two variants of the agent:

- `NolangAgent` (Nolangagent.py) has its own loop and three tools: table info, query
  checker and query executor.
- `CortexAgent` (Agent.py) parses one completion into a LangChain `AgentFinish` or
  `AgentAction`. Its tools come from `Toolkit` (toolkit.py).

The modules are:

- `Text`: the Python `str` operations the core uses. These are `strip` over the full
  `str.isspace` set, `find`, `in`, `startswith`, `split` on a separator, `join`, and
  single-character `replace`.
- `Chat`: chat messages and the two-message opening of a conversation.
- `Collaborators`: the completion endpoint and the warehouse. Each is a function whose
  result is either a returned value or a raised exception.
- `Protocol`: how a final answer, a tool name and a tool input are taken out of a reply.
- `QueryEscape`: the quote escaping applied to a query before it goes into the checker
  prompt, with a reader that undoes it.
- `PyRepr`: Python's `repr` of a `str`. This is what `str(dict)` writes for the
  executor's result.
- `SchemaInfo`: the table-description loop shared by both variants.
- `NolangAgent`, `CortexAgent` and `Toolkit`: the three source files.

`NolangAgent.Run` is the imperative loop. It is proved equal to the fuel-bounded
specification `Drive`, and the properties of the loop are lemmas about `Drive`.

The two variants decide differently whether a reply is final:

- Agent.py:45 calls a reply final when it contains the marker anywhere.
- Nolangagent.py:136 calls it final only when the stripped reply starts with the marker.

The model follows each file as written. `CortexAgent.DisagreeExactly` characterises the
replies on which the two variants disagree. `CortexAgent.MarkerAfterText` states the
disagreement for every reply "{lead}Final Answer: {answer}" whose lead is not empty, does not
start with whitespace and holds no colon, and whose answer is not empty, is trimmed and
holds no marker. `CortexAgent.FooMarkerX` is one such reply,
"foo\nFinal Answer: x". Agent.py finishes on it with "x". Nolangagent.py calls a
tool named "foo\nFinal Answer" with input "x", which is not found, so the loop goes on.

## Model

| member | source | states |
|---|---|---|
| Chat.OpeningShape | Agent.py:21-31 | the prompt's messages are exactly two: the only system message comes first with the instructions, then the user's request; distinct inputs give distinct openings |
| CortexAgent.CortexRun | Agent.py:16-19 | `run` raises exactly when the completion raises; otherwise it is a finish exactly when the response holds the marker |
| CortexAgent.ParseResponse | Agent.py:44-50 | a finish exactly when the marker occurs in the response; a finish has an empty log, an action logs the unmodified response |
| CortexAgent.ParseResponseFinal | Agent.py:45-46 | a response holding the marker finishes with the trimmed text after its last occurrence |
| CortexAgent.ParseResponseAction | Agent.py:48-50 | without the marker: tool = trimmed text before the first colon, input = trimmed text after it with later colons kept, log = response |
| CortexAgent.ParseResponseNoColon | Agent.py:48-49 | without marker and colon: tool = whole trimmed response, input = "" |
| CortexAgent.NolangFinalIsFinish | Agent.py:45-46 | every reply the Nolang loop treats as final is a finish here, with the same answer |
| CortexAgent.ActionIsNolangCall | Agent.py:48-49 | every action here is a call of the same tool on the same input in the Nolang loop |
| CortexAgent.DisagreeExactly | Agent.py:45 | the two variants disagree exactly on replies that contain the marker but do not start with it after stripping |
| CortexAgent.MarkerAfterText | Agent.py:45-50 | for "{lead}Final Answer: {answer}" with a non-empty lead that does not start with whitespace and holds no colon, and a trimmed non-empty answer without the marker: a finish on the answer here, a call of "{lead}Final Answer" on the answer in the Nolang loop |
| CortexAgent.MarkedFinishes | Agent.py:45-46 | "{lead}Final Answer: {answer}" finishes with the answer whatever the lead, for every trimmed answer that does not itself hold the marker |
| CortexAgent.MarkedCalls | Nolangagent.py:136-140 | the same reply is a call of "{lead}Final Answer" on the answer in the Nolang loop when the lead is not empty, does not start with whitespace and holds no colon, and the answer is trimmed and not empty |
| CortexAgent.FooMarkerX | Agent.py:45-50 | the reply "foo\nFinal Answer: x" finishes with "x" here and calls "foo\nFinal Answer" on "x" in the Nolang loop |
| Protocol.FinalAnswerAfterLastMarker | Nolangagent.py:137 | the answer is the trimmed text after the last marker; earlier markers are dropped |
| Protocol.MarkerOccurrencesApart | Nolangagent.py:137 | two occurrences of the marker never overlap |
| Protocol.ToolCallAtFirstColon | Nolangagent.py:139-140 | tool name = trimmed text before the first colon; input = trimmed rest, later colons kept |
| Protocol.ToolCallWithoutColon | Nolangagent.py:139-140 | without a colon the name is the whole trimmed reply and the input is "" |
| NolangAgent.RegistryNamesDistinct | Nolangagent.py:52-69 | three tools, named snowflake_table_info, query_checker, query_executor, pairwise distinct |
| NolangAgent.CheckerNamesExecutor | Nolangagent.py:59-67 | the checker's description names the executor by its registered name |
| NolangAgent.Lookup | Nolangagent.py:142 | the index found is the first tool with exactly that name; none is found only when no tool has it |
| NolangAgent.FindToolExact | Nolangagent.py:142 | with distinct names, lookup returns a tool exactly when its name equals the requested one |
| NolangAgent.ParseReplyFinal | Nolangagent.py:136-137 | a reply starting (after whitespace) with the marker is final, with the trimmed text after the last marker |
| NolangAgent.StartsAfterSpaces | Nolangagent.py:136 | leading whitespace before the marker does not stop a reply from being final |
| NolangAgent.ParseReplyCall | Nolangagent.py:139-140 | any other reply is a call split at its first colon |
| NolangAgent.CallParses | Nolangagent.py:136-140 | "{name}: {input}" is a call of that name on that input for every trimmed non-empty name without a colon other than "Final Answer", and every trimmed non-empty input |
| NolangAgent.QueryExecutorRun | Nolangagent.py:111-119 | the result is an error exactly when the statement fails, carrying its message; otherwise the rows and the query id |
| NolangAgent.RenderedErrorCarriesMessage | Nolangagent.py:119 | the rendered dict starts with `{'error': ` exactly on failure, and the message reads back from it |
| PyRepr.ReadStrRepr | Nolangagent.py:119 | `repr` of a message reads back as that message |
| NolangAgent.ExecutorNeverRaises | Nolangagent.py:114-119 | the executor tool always returns |
| NolangAgent.InvokeTool | Nolangagent.py:144 | running a tool gives what the tool's function gives |
| NolangAgent.TurnAppendsUserMessage | Nolangagent.py:145-147 | every pass that does not end the loop appends one user-role message |
| NolangAgent.TurnFinishesOnFinal | Nolangagent.py:136-137 | a pass finishes exactly on a reply parsed as final, with that answer |
| NolangAgent.UnknownNameContinues | Nolangagent.py:139-147 | any reply parsed as a call of a name no registered tool has appends "Error: Tool {name} not found." and the loop goes on |
| NolangAgent.UnknownToolContinues | Nolangagent.py:139-147 | the same for a reply "{name}:{rest}" that is not final, with the trimmed name |
| NolangAgent.UnknownBareNameContinues | Nolangagent.py:136-147 | a reply without a colon is never final; its whole trimmed text is the name, and when no tool has it the error is appended and the loop goes on |
| NolangAgent.ColonNameNotFinal | Nolangagent.py:136 | "{name}:{rest}" with a colon-free name starts with the marker only when the name is "Final Answer" |
| NolangAgent.KnownToolRuns | Nolangagent.py:142-145 | a registered name runs that tool on the input and appends "Tool {name} returned: {output}" |
| NolangAgent.TurnOnCall | Nolangagent.py:142-145 | a parsed call of a found tool appends its output, or the tool's exception ends the run |
| NolangAgent.DriveExtends | Nolangagent.py:133-147 | the conversation only grows; one message per pass that did not end the run; passes never exceed the budget |
| NolangAgent.DriveAppendsPassMessages | Nolangagent.py:145-147 | each appended message is what the pass made of the conversation before it |
| NolangAgent.DriveAppendsUserRole | Nolangagent.py:145-147 | everything appended has the user role |
| NolangAgent.SystemMessageStaysFirst | Nolangagent.py:122-147 | the opening stays the first two messages; the instructions are the only system message |
| NolangAgent.DriveAnswersOnlyOnFinal | Nolangagent.py:136-137 | the run answers only on a final pass, and appends nothing for it |
| NolangAgent.DriveBudgetIrrelevant | Nolangagent.py:133 | a run that ended within its budget ends the same under any larger budget |
| NolangAgent.DriveResumes | Nolangagent.py:133 | a run that used up its budget is the first part of any longer run |
| NolangAgent.ExecutorCallRuns | Nolangagent.py:139-145 | a reply "query_executor: {query}" appends the executor's rendered result |
| NolangAgent.FinalReplyAnswers | Nolangagent.py:136-137 | a reply "Final Answer: {answer}" ends the pass with that answer, for every trimmed answer that does not itself hold the marker |
| NolangAgent.TwoCallSession | Nolangagent.py:121-147 | executor call then final answer: two passes (one completion call each), the executor's result appended once, the answer returned |
| NolangAgent.DriveTwoPasses | Nolangagent.py:133-147 | a pass that continues once and then finishes ends the run after two passes |
| NolangAgent.TakeTurn | Nolangagent.py:134-147 | one loop body equals the pass specification |
| NolangAgent.Run | Nolangagent.py:121-147 | `run` equals the bounded loop from the opening; the opening is kept at the front |
| SchemaInfo.TableInfo | Nolangagent.py:71-80 | the loop returns the report over the comma-separated entries, or the first exception |
| SchemaInfo.ReportIsLines | Nolangagent.py:72-80 | the report succeeds exactly when every entry is described, and is then one "Schema for table {t}: {schema}\n" line per entry in input order |
| SchemaInfo.ReportRaisesFirst | Nolangagent.py:74-79 | a failed report carries the exception of the first entry that raised |
| SchemaInfo.ReportStopsAtRaise | Nolangagent.py:74-79 | no entry after a failing one is described |
| SchemaInfo.TablesOfList | Nolangagent.py:73 | one entry more than commas; the entries, joined with commas, give back the list untrimmed |
| QueryEscape.EscapeIsEscapeEach | Nolangagent.py:101 | the two replace passes equal one pass putting a backslash before each quote |
| QueryEscape.EscapeLength | Nolangagent.py:101 | the escaped query is longer by the number of quotes |
| QueryEscape.EscapeWithoutQuotes | Nolangagent.py:101 | a query without quotes is unchanged |
| QueryEscape.EscapedQuotesArePrefixed | Nolangagent.py:101 | every quote in the escaped text has a backslash before it |
| QueryEscape.UnescapeEscape | Nolangagent.py:101 | deleting the backslash before each quote gives back the query |
| QueryEscape.CheckerRequestCarriesQuery | Nolangagent.py:101-109 | the checker request is one user message; the query reads back from it after the template's lead |
| Toolkit.ToolsInOrder | toolkit.py:134-151 | three tools in the order sql_db_query, sql_db_schema, sql_db_query_checker, with distinct names and kinds |
| Toolkit.CheckerPointsAtRunner | toolkit.py:143-151 | the description given to the checker names the tool that comes first in the list, the runner |
| Toolkit.SchemaToolRun | toolkit.py:29-39 | the schema tool returns the report over the comma-separated names |
| Toolkit.SchemaToolLines | toolkit.py:34-39 | it returns exactly when every DESCRIBE returns: one line per name, in input order, commas plus one of them |
| Toolkit.DialectRequestCarriesQuery | toolkit.py:76-83 | one user message: lead, the escaped query (longer by its quotes, reading back to the query), then middle, dialect, trailer |
| Toolkit.CheckerToolsAgree | toolkit.py:71-93 | with the same surrounding text, the toolkit's checker tool sends the Nolang query checker's request to the same completion endpoint; the same reply or exception only when `db.run` of the COMPLETE statement is taken to return the completion's text |
| Toolkit.CheckersAgree | toolkit.py:76-77 | the toolkit checker sends what the Nolang checker sends with the same surrounding text |
| Toolkit.DatabaseToolRun | toolkit.py:109-121 | a query id exactly on success, rows exactly with a query id; on success the rows and the id |
| Toolkit.RunErrorCarriesMessage | toolkit.py:120-121 | on failure the value is "Error: " followed by the exception's message |
| Toolkit.RunnersAgree | toolkit.py:114-121 | the toolkit runner and the Nolang executor succeed together, with the same rows and id, or fail with the same message |

## Left out

- The completion endpoint, the warehouse cursor and `SQLDatabase.run` are functions of what they are sent. They are deterministic in the model, and the statement text a `COMPLETE` call wraps around its messages is not modelled. This covers Agent.py:33-42 and toolkit.py:84-93.
- `json.dumps` of message lists is left out. The conversation is a sequence of role/content records.
- The text of the system prompt and of both checker templates is left out. These are parameters; only where the query and the dialect are inserted is modelled. The database dialect is a parameter string.
- The LangChain `AgentExecutor` that dispatches an `AgentAction` to the toolkit's tools, `BaseTool`/`BaseToolkit` and `Agent`/`get_executor` (Agent.py:52-101) are left out. That framework is not part of this model.
- Nolangmain.py is not part of this model. It holds the UI, credentials and the completion call.
- NolangAgent.Run: the source loops with no bound. The model stops after `maxTurns` passes of the loop with `TurnsExhausted`. Each pass makes the loop's own completion call; the nested completion call of `query_checker` is not counted, so a run can call the endpoint more often than it makes passes. The third result of `Run` counts passes, and the Drive lemmas say how the budget affects the result.
- Fetched rows and DESCRIBE results are opaque text. `str()` of the lists `fetchall` returns is not modelled, and neither is `cursor.close()`. A close that raises counts as a failure of the whole statement.
- PyRepr.StrRepr: characters above U+00FF that Python's `repr` escapes as `\uXXXX` or `\UXXXXXXXX` are written unchanged. Only the escapes of the C0 and C1 controls, DEL, the no-break space and the soft hyphen are modelled.
- Toolkit.DatabaseToolRun: the rows are the text of the result. The source returns `fetchall`'s list itself.
- Toolkit.CheckerToolRun: `db.run` of the `COMPLETE` statement (toolkit.py:93) is modelled as the completion itself. In the source, `SQLDatabase.run` returns `str()` of the fetched rows and truncates long values, whereas Nolangagent.py:109 returns the completion's text; the model does not capture that wrapping and truncation, so `Toolkit.CheckerToolsAgree` holds only under that reading.
- CortexAgent.CortexRun: `db.run` of the prompt is modelled as the completion of the two opening messages, returning the completion's text. In the source, `SQLDatabase.run` returns `str()` of the fetched rows, for example `[('...',)]`, and truncates long values. `parse_response` sees that text, so the brackets, quotes and truncation around the reply are not modelled.
