/** Quote escaping of a SQL query before it is embedded in the query-checker prompt,
    shared by both agent variants (`query.replace('"', '\\"').replace("'", "\\'")`). */
module QueryEscape {
  import opened Text
  import opened Chat

  predicate IsQuote(c: char)
  {
    c == '"' || c == '\''
  }

  /** The escaping as the source writes it: two `replace` passes, double quotes first. */
  function Escape(query: string): string
  {
    Replace(Replace(query, '"', "\\\""), '\'', "\\'")
  }

  /** Reference definition: one pass that puts a backslash before each quote. */
  function EscapeEach(query: string): string
  {
    if query == [] then []
    else (if IsQuote(query[0]) then ['\\', query[0]] else [query[0]]) + EscapeEach(query[1..])
  }

  /** Number of quote characters in `query`. */
  function QuoteCount(query: string): nat
  {
    if query == [] then 0 else (if IsQuote(query[0]) then 1 else 0) + QuoteCount(query[1..])
  }

  /** Deletes the one backslash in front of each quote, reading left to right. */
  function Unescape(text: string): string
  {
    if |text| >= 2 && text[0] == '\\' && IsQuote(text[1]) then [text[1]] + Unescape(text[2..])
    else if text == [] then []
    else [text[0]] + Unescape(text[1..])
  }

  /** The two `replace` passes do not interfere: the first inserts only backslashes, so the
      second sees exactly the single quotes of the query. */
  lemma {:induction false} EscapeIsEscapeEach(query: string)
    ensures Escape(query) == EscapeEach(query)
    decreases |query|
  {
    if query != [] {
      var c := query[0];
      var first := if c == '"' then "\\\"" else [c];
      assert Replace(query, '"', "\\\"") == first + Replace(query[1..], '"', "\\\"");
      ReplaceAppend(first, Replace(query[1..], '"', "\\\""), '\'', "\\'");
      EscapeIsEscapeEach(query[1..]);
      if c == '"' {
        assert Replace(first, '\'', "\\'") == ['\\', c];
      } else if c == '\'' {
        assert Replace(first, '\'', "\\'") == ['\\', c];
      } else {
        assert Replace(first, '\'', "\\'") == [c];
      }
    }
  }

  /** Escaping adds exactly one character per quote. */
  lemma {:induction false} EscapeLength(query: string)
    ensures |Escape(query)| == |query| + QuoteCount(query)
  {
    EscapeIsEscapeEach(query);
    EscapeEachLength(query);
  }

  lemma {:induction false} EscapeEachLength(query: string)
    ensures |EscapeEach(query)| == |query| + QuoteCount(query)
    decreases |query|
  {
    if query != [] {
      EscapeEachLength(query[1..]);
    }
  }

  /** A query without quotes is embedded unchanged. */
  lemma {:induction false} EscapeWithoutQuotes(query: string)
    requires QuoteCount(query) == 0
    ensures Escape(query) == query
  {
    EscapeIsEscapeEach(query);
    EscapeEachWithoutQuotes(query);
  }

  lemma {:induction false} EscapeEachWithoutQuotes(query: string)
    requires QuoteCount(query) == 0
    ensures EscapeEach(query) == query
    decreases |query|
  {
    if query != [] {
      EscapeEachWithoutQuotes(query[1..]);
    }
  }

  /** Every quote in the escaped text has a backslash right before it. */
  lemma {:induction false} EscapedQuotesArePrefixed(query: string, k: nat)
    requires k < |EscapeEach(query)| && IsQuote(EscapeEach(query)[k])
    ensures k > 0 && EscapeEach(query)[k - 1] == '\\'
    decreases |query|
  {
    var c := query[0];
    var head: string := if IsQuote(c) then ['\\', c] else [c];
    var rest := EscapeEach(query[1..]);
    assert EscapeEach(query) == head + rest;
    if k >= |head| {
      EscapedQuotesArePrefixed(query[1..], k - |head|);
    }
  }

  /** Deleting the backslash before each quote gives back the query: escaping loses nothing,
      even when the query already holds backslashes. */
  lemma {:induction false} UnescapeEscape(query: string)
    ensures Unescape(Escape(query)) == query
  {
    EscapeIsEscapeEach(query);
    UnescapeEscapeEach(query);
  }

  lemma {:induction false} UnescapeEscapeEach(query: string)
    ensures Unescape(EscapeEach(query)) == query
    decreases |query|
  {
    if query != [] {
      var c := query[0];
      var rest := EscapeEach(query[1..]);
      UnescapeEscapeEach(query[1..]);
      if IsQuote(c) {
        assert EscapeEach(query) == ['\\', c] + rest;
        UnescapeQuoted(c, rest);
      } else {
        assert EscapeEach(query) == [c] + rest;
        EscapedHeadNotQuote(query[1..]);
        UnescapePlain(c, rest);
      }
    }
  }

  /** The escaped text never starts with a bare quote. */
  lemma EscapedHeadNotQuote(query: string)
    ensures EscapeEach(query) != [] ==> !IsQuote(EscapeEach(query)[0])
  {
    if query != [] {
      var head: string := if IsQuote(query[0]) then ['\\', query[0]] else [query[0]];
      assert EscapeEach(query) == head + EscapeEach(query[1..]);
      assert EscapeEach(query)[0] == head[0];
    }
  }

  lemma UnescapeQuoted(c: char, rest: string)
    requires IsQuote(c)
    ensures Unescape(['\\', c] + rest) == [c] + Unescape(rest)
  {
    assert (['\\', c] + rest)[2..] == rest;
  }

  lemma UnescapePlain(c: char, rest: string)
    requires !IsQuote(c)
    requires rest != [] ==> !IsQuote(rest[0])
    ensures Unescape([c] + rest) == [c] + Unescape(rest)
  {
    assert ([c] + rest)[1..] == rest;
  }

  /** The fixed checker instructions around the query (`{query}` is the only placeholder
      in this variant's template). */
  datatype CheckerTemplate = CheckerTemplate(lead: string, trailer: string)

  /** `template.format(query=escaped_query)`. */
  function CheckerPrompt(template: CheckerTemplate, query: string): string
  {
    template.lead + Escape(query) + template.trailer
  }

  /** The request sent to the completion endpoint: one user message holding the prompt,
      with no system message and no history. */
  function CheckerRequest(template: CheckerTemplate, query: string): seq<Message>
  {
    [Message(User, CheckerPrompt(template, query))]
  }

  /** The request is a single user message, and the query can be read back from it. */
  lemma CheckerRequestCarriesQuery(template: CheckerTemplate, query: string)
    ensures var request := CheckerRequest(template, query);
      var content := request[0].content;
      var n := |template.lead|;
      |request| == 1 && request[0].role == User
      && n + |template.trailer| <= |content|
      && content[..n] == template.lead
      && Unescape(content[n..|content| - |template.trailer|]) == query
  {
    var e := Escape(query);
    var content := template.lead + e + template.trailer;
    assert content[|template.lead|..|content| - |template.trailer|] == e;
    UnescapeEscape(query);
  }
}
