/** The LangChain toolkit of toolkit.py: the schema tool, the query checker and the query
    runner that `AgentToolkit.get_tools` hands to the executor of Agent.py. */
module Toolkit {
  import opened Text
  import opened Chat
  import opened Collaborators
  import opened QueryEscape
  import SchemaInfo
  import NolangAgent

  // ---------------------------------------------------------------------------
  // The tool list

  datatype ToolKind = DatabaseQuery | TableSchema | QueryCheck

  /** A tool as `get_tools` builds it: its class's `name` and the class itself. */
  datatype Tool = Tool(name: string, kind: ToolKind)

  /** `AgentToolkit.get_tools`. */
  function GetTools(): seq<Tool>
  {
    [ Tool("sql_db_query", DatabaseQuery),
      Tool("sql_db_schema", TableSchema),
      Tool("sql_db_query_checker", QueryCheck) ]
  }

  /** The description `get_tools` passes to each constructor, replacing the class
      default. */
  function Description(kind: ToolKind): string
  {
    match kind
    case DatabaseQuery =>
      "Input: correct SQL query. Output: result and query_id. If error, rewrite and try again."
    case TableSchema =>
      "Input: comma-separated list of tables. Output: schema and sample rows for those tables."
    case QueryCheck =>
      "Use this to check your query before executing it with sql_db_query."
  }

  /** Three tools, runner first, then schema, then checker; no two share a name or a
      kind. */
  lemma ToolsInOrder()
    ensures var tools := GetTools();
      |tools| == 3
      && tools[0].name == "sql_db_query" && tools[0].kind == DatabaseQuery
      && tools[1].name == "sql_db_schema" && tools[1].kind == TableSchema
      && tools[2].name == "sql_db_query_checker" && tools[2].kind == QueryCheck
    ensures forall i, j :: 0 <= i < j < |GetTools()| ==> GetTools()[i].name != GetTools()[j].name
    ensures forall i, j :: 0 <= i < j < |GetTools()| ==> GetTools()[i].kind != GetTools()[j].kind
  {
    var tools := GetTools();
    assert tools[0].name[7] == 'q' && tools[1].name[7] == 's' && tools[2].name[7] == 'q';
    assert |tools[0].name| != |tools[2].name|;
  }

  /** The checker's instructions name the runner by a name that is in the list. */
  lemma CheckerPointsAtRunner()
    ensures var d := Description(GetTools()[2].kind);
      |d| >= 13 && d[|d| - 13..|d| - 1] == GetTools()[0].name
  {
  }

  // ---------------------------------------------------------------------------
  // `InfoSnowflakeTableTool._run`

  /** How the schema tool describes one table: `db.run("DESCRIBE TABLE {t}")`, whose
      exception is not caught. */
  function DescribeVia(db: Database): SchemaInfo.Describe
  {
    t => db("DESCRIBE TABLE " + t)
  }

  /** The schema tool: the same loop as the table-info tool of Nolangagent.py, with the
      description obtained through `db.run`. */
  method SchemaToolRun(db: Database, tableNames: string) returns (r: Outcome<string>)
    ensures r == SchemaInfo.Report(Split(tableNames, ","), DescribeVia(db))
  {
    r := SchemaInfo.TableInfo(tableNames, DescribeVia(db));
  }

  /** The schema tool returns exactly when every comma-separated entry is described; it then
      returns one line per entry, in input order, as many as there are commas plus one. */
  lemma SchemaToolLines(db: Database, tableNames: string)
    ensures var tables := Split(tableNames, ",");
      SchemaInfo.Report(tables, DescribeVia(db)).Returned?
      <==> (forall k :: 0 <= k < |tables| ==> db("DESCRIBE TABLE " + tables[k]).Returned?)
    ensures var tables := Split(tableNames, ",");
      SchemaInfo.Report(tables, DescribeVia(db)).Returned? ==>
        var lines := SchemaInfo.Lines(tables, DescribeVia(db));
        SchemaInfo.Report(tables, DescribeVia(db)).value == SchemaInfo.Concat(lines)
        && |lines| == Count(tableNames, ',') + 1
        && forall k :: 0 <= k < |lines| ==>
             lines[k] == SchemaInfo.SchemaLine(tables[k], db("DESCRIBE TABLE " + tables[k]).value)
  {
    var tables := Split(tableNames, ",");
    var describe := DescribeVia(db);
    SchemaInfo.ReportIsLines(tables, describe);
    SchemaInfo.TablesOfList(tableNames);
    assert forall k :: 0 <= k < |tables| ==> describe(tables[k]) == db("DESCRIBE TABLE " + tables[k]);
  }

  // ---------------------------------------------------------------------------
  // `QuerySQLCheckerTool._run`

  /** The fixed text of the checker template around its two placeholders: `{query}` first,
      then `{dialect}`. */
  datatype DialectTemplate = DialectTemplate(lead: string, middle: string, trailer: string)

  /** `template.format(query=escaped_query, dialect=db.dialect)`. */
  function DialectPrompt(template: DialectTemplate, dialect: string, query: string): string
  {
    template.lead + Escape(query) + template.middle + dialect + template.trailer
  }

  /** The messages of the `COMPLETE` call: one user message holding the prompt. */
  function DialectRequest(template: DialectTemplate, dialect: string, query: string): seq<Message>
  {
    [Message(User, DialectPrompt(template, dialect, query))]
  }

  /** The checker tool: the completion of its one-message request, whose exception is not
      caught. `complete` stands for `db.run` of the `COMPLETE` statement, taken to return
      the completion's text. */
  function CheckerToolRun(complete: Completion, template: DialectTemplate, dialect: string,
                          query: string): Outcome<string>
  {
    complete(DialectRequest(template, dialect, query))
  }

  /** The request is a single user message; right after the template's lead it holds the
      escaped query, one character longer per quote, from which the query reads back; the
      dialect follows the template's middle part. */
  lemma DialectRequestCarriesQuery(template: DialectTemplate, dialect: string, query: string)
    ensures var request := DialectRequest(template, dialect, query);
      var content := request[0].content;
      var n := |template.lead|;
      var e := |query| + QuoteCount(query);
      |request| == 1 && request[0].role == User
      && n + e <= |content|
      && content[..n] == template.lead
      && Unescape(content[n..n + e]) == query
      && content[n + e..] == template.middle + dialect + template.trailer
  {
    var escaped := Escape(query);
    EscapeLength(query);
    UnescapeEscape(query);
    var content := template.lead + escaped + (template.middle + dialect + template.trailer);
    assert DialectPrompt(template, dialect, query) == content;
    var n := |template.lead|;
    assert content[n..n + |escaped|] == escaped;
    assert content[n + |escaped|..] == template.middle + dialect + template.trailer;
  }

  /** Both checkers embed the same escaped query: with the same text around it they send
      the same request. */
  lemma CheckersAgree(template: DialectTemplate, dialect: string, query: string)
    ensures DialectRequest(template, dialect, query)
      == CheckerRequest(CheckerTemplate(template.lead, template.middle + dialect + template.trailer), query)
  {
    assert DialectPrompt(template, dialect, query)
      == template.lead + Escape(query) + (template.middle + dialect + template.trailer);
  }

  /** The toolkit's checker tool and the query checker of Nolangagent.py send the same
      request to the same completion endpoint; with `db.run` taken to return the
      completion's text, they give the same reply or the same exception. */
  lemma CheckerToolsAgree(complete: Completion, con: Connection, systemMessage: string,
                          template: DialectTemplate, dialect: string, query: string)
    ensures var nolang := NolangAgent.Agent(complete, con, systemMessage,
      CheckerTemplate(template.lead, template.middle + dialect + template.trailer));
      CheckerToolRun(complete, template, dialect, query)
        == NolangAgent.Invoke(nolang, NolangAgent.QueryChecker, query)
  {
    CheckersAgree(template, dialect, query);
  }

  // ---------------------------------------------------------------------------
  // `QuerySQLDataBaseTool._run`

  /** The first element of the returned pair: the fetched rows, or the error text. */
  datatype RunValue = Rows(rows: string) | ErrorText(text: string)

  /** The pair `(results, query_id)` the runner returns. */
  datatype RunResult = RunResult(value: RunValue, queryId: Option<string>)

  /** The runner: on success the rows and the query id, on any failure the text
      "Error: {e}" and no query id. It never raises. */
  function DatabaseToolRun(con: Connection, query: string): (r: RunResult)
    ensures r.queryId.Some? <==> con(query).Fetched?
    ensures r.value.Rows? <==> r.queryId.Some?
    ensures con(query).Fetched? ==> r == RunResult(Rows(con(query).rows), Some(con(query).queryId))
  {
    match con(query)
    case Fetched(rows, id) => RunResult(Rows(rows), Some(id))
    case Failed(message) => RunResult(ErrorText("Error: " + message), None)
  }

  /** A failure's text is the exception's message behind "Error: ", so nothing is lost. */
  lemma RunErrorCarriesMessage(con: Connection, query: string)
    requires con(query).Failed?
    ensures var text := DatabaseToolRun(con, query).value.text;
      StartsWith(text, "Error: ") && text[7..] == con(query).message
  {
  }

  /** The runner of toolkit.py and the executor of Nolangagent.py see the same outcome of
      the same statement: both succeed or both fail, with the same rows and query id, or
      the same exception message. */
  lemma RunnersAgree(con: Connection, query: string)
    ensures var mine := DatabaseToolRun(con, query);
      var theirs := NolangAgent.QueryExecutorRun(con, query);
      (mine.queryId.Some? <==> theirs.Results?)
      && (theirs.Results? ==> mine.value.rows == theirs.rows && mine.queryId.value == theirs.queryId)
      && (theirs.Error? ==> mine.value.text == "Error: " + theirs.message)
  {
  }
}
