/** The schema-introspection tool shared by both agent variants: split a comma-separated
    table list and describe each table in turn, one report line per entry. */
module SchemaInfo {
  import opened Text
  import opened Collaborators

  /** How one table is described: the text of `DESCRIBE TABLE {t}`, or the exception
      raised while running it. */
  type Describe = string -> Outcome<string>

  function SchemaLine(table: string, schema: string): string
  {
    "Schema for table " + table + ": " + schema + "\n"
  }

  /** The report the loop accumulates over `tables`, left to right; the first exception
      stops it and propagates. */
  function Report(tables: seq<string>, describe: Describe): Outcome<string>
    decreases |tables|
  {
    if tables == [] then Returned("")
    else
      var last := tables[|tables| - 1];
      match Report(tables[..|tables| - 1], describe)
      case Raised(e) => Raised(e)
      case Returned(done) =>
        match describe(last)
        case Raised(e) => Raised(e)
        case Returned(schema) => Returned(done + SchemaLine(last, schema))
  }

  /** Every table is described without an exception. */
  ghost predicate AllDescribed(tables: seq<string>, describe: Describe)
  {
    forall k :: 0 <= k < |tables| ==> describe(tables[k]).Returned?
  }

  /** The report lines, one per table, in input order. */
  ghost function Lines(tables: seq<string>, describe: Describe): seq<string>
    requires AllDescribed(tables, describe)
  {
    seq(|tables|, k requires 0 <= k < |tables| => SchemaLine(tables[k], describe(tables[k]).value))
  }

  function Concat(lines: seq<string>): string
  {
    if lines == [] then [] else Concat(lines[..|lines| - 1]) + lines[|lines| - 1]
  }

  /** The report succeeds exactly when every table is described, and is then the lines
      for the tables in input order, concatenated. */
  lemma {:induction false} ReportIsLines(tables: seq<string>, describe: Describe)
    ensures Report(tables, describe).Returned? <==> AllDescribed(tables, describe)
    ensures AllDescribed(tables, describe) ==>
      Report(tables, describe) == Returned(Concat(Lines(tables, describe)))
    decreases |tables|
  {
    if tables != [] {
      var n := |tables| - 1;
      var init := tables[..n];
      ReportIsLines(init, describe);
      assert AllDescribed(tables, describe) <==> AllDescribed(init, describe) && describe(tables[n]).Returned? by {
        assert forall k :: 0 <= k < n ==> init[k] == tables[k];
      }
      if AllDescribed(tables, describe) {
        assert Lines(tables, describe)[..n] == Lines(init, describe);
      }
    }
  }

  /** A failed report carries the exception of the first table that raised. */
  lemma {:induction false} ReportRaisesFirst(tables: seq<string>, describe: Describe)
    requires Report(tables, describe).Raised?
    ensures exists k :: (0 <= k < |tables| && describe(tables[k]) == Report(tables, describe)
                         && AllDescribed(tables[..k], describe))
    decreases |tables|
  {
    var n := |tables| - 1;
    var init := tables[..n];
    if Report(init, describe).Raised? {
      ReportRaisesFirst(init, describe);
      var k :| 0 <= k < |init| && describe(init[k]) == Report(init, describe)
        && AllDescribed(init[..k], describe);
      assert init[..k] == tables[..k];
    } else {
      ReportIsLines(init, describe);
      assert tables[..n] == init;
    }
  }

  /** Once a prefix of the tables has raised, the rest is never described. */
  lemma {:induction false} ReportStopsAtRaise(tables: seq<string>, j: nat, describe: Describe)
    requires j <= |tables| && Report(tables[..j], describe).Raised?
    ensures Report(tables, describe) == Report(tables[..j], describe)
    decreases |tables| - j
  {
    if j < |tables| {
      assert tables[..j + 1][..j] == tables[..j];
      assert Report(tables[..j + 1], describe) == Report(tables[..j], describe);
      ReportStopsAtRaise(tables, j + 1, describe);
    } else {
      assert tables[..j] == tables;
    }
  }

  /** `_snowflake_table_info` / `InfoSnowflakeTableTool._run`: describe every entry of the
      comma-separated list, untrimmed and empty entries included, and accumulate the
      report; an exception from the warehouse is not caught. */
  method TableInfo(tableNames: string, describe: Describe) returns (r: Outcome<string>)
    ensures r == Report(Split(tableNames, ","), describe)
  {
    var tables := Split(tableNames, ",");
    var output := "";
    var i := 0;
    while i < |tables|
      invariant 0 <= i <= |tables|
      invariant Report(tables[..i], describe) == Returned(output)
    {
      var t := tables[i];
      assert tables[..i + 1][..i] == tables[..i];
      match describe(t)
      case Raised(e) =>
        ReportStopsAtRaise(tables, i + 1, describe);
        return Raised(e);
      case Returned(schema) =>
        output := output + SchemaLine(t, schema);
      i := i + 1;
    }
    assert tables[..i] == tables;
    r := Returned(output);
  }

  /** The tables described are the comma-separated entries exactly as written: there is
      one more of them than there are commas, and joining them with commas gives back the
      list. */
  lemma TablesOfList(tableNames: string)
    ensures var tables := Split(tableNames, ",");
      |tables| == Count(tableNames, ',') + 1 && Join(tables, ",") == tableNames
  {
    SplitCount(tableNames, ',');
    JoinSplit(tableNames, ",");
  }
}
