/** The text protocol between the model and the agent: a reply either carries a final
    answer after the marker `Final Answer:`, or names a tool before its first colon and
    gives the tool's input after it. Both agent variants extract the two parts the same
    way; they differ only in how they decide that a reply is final (see `CortexAgent`
    and `NolangAgent`). */
module Protocol {
  import opened Text

  const FinalMarker: string := "Final Answer:"

  /** `response.split("Final Answer:")[-1].strip()`. */
  function FinalAnswer(response: string): string
  {
    Strip(LastPiece(response, FinalMarker))
  }

  /** `response.split(":")[0].strip()`. */
  function ToolName(response: string): string
  {
    Strip(Split(response, ":")[0])
  }

  /** `":".join(response.split(":")[1:]).strip()`. */
  function ToolInput(response: string): string
  {
    Strip(Join(Split(response, ":")[1..], ":"))
  }

  /** The marker's first letter appears nowhere else in it, so two occurrences of the
      marker never overlap. A stand-alone fact about the marker: `FinalAnswerAfterLastMarker`
      goes through the generic `LastPieceAfterLast` instead. */
  lemma MarkerOccurrencesApart(s: string, p: nat, q: nat)
    requires OccursAt(s, FinalMarker, p) && OccursAt(s, FinalMarker, q) && p < q
    ensures p + |FinalMarker| <= q
  {
    MarkerHeadUnique();
    OccurrencesApart(s, FinalMarker, p, q);
  }

  lemma MarkerHeadUnique()
    ensures HeadUnique(FinalMarker)
  {
    assert FinalMarker[1..] == "inal Answer:";
  }

  /** The final answer is the trimmed text after the LAST marker: whatever precedes that
      marker, including earlier markers, is dropped. */
  lemma FinalAnswerAfterLastMarker(response: string, before: string, after: string)
    requires response == before + FinalMarker + after
    requires !Contains(after, FinalMarker)
    ensures FinalAnswer(response) == Strip(after)
  {
    MarkerHeadUnique();
    LastPieceAfterLast(response, before, FinalMarker, after);
  }

  /** With a colon, the tool name is the trimmed text before the first colon and the input
      is the trimmed text after it, later colons included. */
  lemma ToolCallAtFirstColon(response: string, name: string, rest: string)
    requires response == name + ":" + rest
    requires ':' !in name
    ensures ToolName(response) == Strip(name)
    ensures ToolInput(response) == Strip(rest)
  {
    var i := |name|;
    assert OccursAt(response, ":", i);
    var f := Find(response, ":");
    assert f == Some(i) by {
      forall k | 0 <= k < i ensures !OccursAt(response, ":", k) {
        assert response[k] == name[k];
      }
    }
    SplitFirst(response, ":");
    assert response[..i] == name;
    assert response[i + 1..] == rest;
  }

  /** Without a colon, the tool name is the whole trimmed reply and the input is empty. */
  lemma ToolCallWithoutColon(response: string)
    requires ':' !in response
    ensures ToolName(response) == Strip(response)
    ensures ToolInput(response) == ""
  {
    assert Find(response, ":") == None by {
      forall k | 0 <= k <= |response| ensures !OccursAt(response, ":", k) {
        if k < |response| {
          assert response[k..k + 1] == [response[k]];
        }
      }
    }
    SplitFirst(response, ":");
    assert Strip([]) == [];
  }
}
