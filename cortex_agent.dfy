/** The LangChain-facing agent of Agent.py: `CortexAgent.parse_response` classifies one
    completion as a finish or as a tool action. It extracts the answer, the tool name and
    the tool input exactly as `NolangAgent` does, but calls a reply final as soon as the
    marker occurs anywhere in it. */
module CortexAgent {
  import opened Text
  import opened Chat
  import opened Protocol
  import opened Collaborators
  import NolangAgent

  /** LangChain's `AgentFinish({"output": output}, log)` and
      `AgentAction(tool, tool_input, log)`. */
  datatype AgentStep =
    | AgentFinish(output: string, log: string)
    | AgentAction(tool: string, toolInput: string, log: string)

  /** `CortexAgent.parse_response`. */
  function ParseResponse(response: string): (r: AgentStep)
    ensures r.AgentFinish? <==> Contains(response, FinalMarker)
    ensures r.AgentFinish? ==> r.log == ""
    ensures r.AgentAction? ==> r.log == response
  {
    if Contains(response, FinalMarker) then AgentFinish(FinalAnswer(response), "")
    else AgentAction(ToolName(response), ToolInput(response), response)
  }

  /** `CortexAgent.run`: one completion of the opening built by `create_prompt`, parsed.
      An exception from the completion call is not caught. */
  function CortexRun(complete: Completion, systemMessage: string, input: string): (r: Outcome<AgentStep>)
    ensures r.Raised? <==> complete(Opening(systemMessage, input)).Raised?
    ensures r.Returned? ==> (r.value.AgentFinish? <==> Contains(complete(Opening(systemMessage, input)).value, FinalMarker))
  {
    match complete(Opening(systemMessage, input))
    case Raised(e) => Raised(e)
    case Returned(response) => Returned(ParseResponse(response))
  }

  /** A response holding the marker finishes with the trimmed text after its last
      occurrence, and an empty log. */
  lemma ParseResponseFinal(response: string, before: string, after: string)
    requires response == before + FinalMarker + after
    requires !Contains(after, FinalMarker)
    ensures ParseResponse(response) == AgentFinish(Strip(after), "")
  {
    assert OccursAt(response, FinalMarker, |before|);
    OccursContains(response, FinalMarker, |before|);
    FinalAnswerAfterLastMarker(response, before, after);
  }

  /** A response without the marker is an action on the tool named before its first colon,
      with the text after that colon as input, and the raw response as log. */
  lemma ParseResponseAction(response: string, name: string, rest: string)
    requires !Contains(response, FinalMarker)
    requires response == name + ":" + rest && ':' !in name
    ensures ParseResponse(response) == AgentAction(Strip(name), Strip(rest), response)
  {
    ToolCallAtFirstColon(response, name, rest);
  }

  /** Without a marker and without a colon, the whole trimmed response names the tool and
      the input is empty. */
  lemma ParseResponseNoColon(response: string)
    requires !Contains(response, FinalMarker) && ':' !in response
    ensures ParseResponse(response) == AgentAction(Strip(response), "", response)
  {
    ToolCallWithoutColon(response);
  }

  // ---------------------------------------------------------------------------
  // The two classifications compared

  /** A reply the loop of Nolangagent.py treats as final is a finish here too, with the
      same answer. */
  lemma NolangFinalIsFinish(response: string)
    requires NolangAgent.ParseReply(response).Final?
    ensures ParseResponse(response) == AgentFinish(NolangAgent.ParseReply(response).answer, "")
  {
    StripStartContains(response, FinalMarker);
  }

  /** An action here is a call of the same tool with the same input there. */
  lemma ActionIsNolangCall(response: string)
    requires ParseResponse(response).AgentAction?
    ensures NolangAgent.ParseReply(response)
      == NolangAgent.Call(ParseResponse(response).tool, ParseResponse(response).toolInput)
  {
    if StartsWith(Strip(response), FinalMarker) {
      StripStartContains(response, FinalMarker);
    }
  }

  /** The two copies disagree exactly on the replies that hold the marker without opening
      with it (after whitespace): those are finishes here and tool calls there. */
  lemma DisagreeExactly(response: string)
    ensures (ParseResponse(response).AgentFinish? && NolangAgent.ParseReply(response).Call?)
        <==> (Contains(response, FinalMarker) && !StartsWith(Strip(response), FinalMarker))
  {
    if StartsWith(Strip(response), FinalMarker) {
      StripStartContains(response, FinalMarker);
    }
  }

  /** Text before the marker that does not itself look like a final answer: a finish on
      the answer after the marker here, a call of the tool named by that text plus
      "Final Answer" in Nolangagent.py's loop. */
  lemma MarkerAfterText(lead: string, answer: string)
    requires lead != [] && !IsSpace(lead[0]) && ':' !in lead
    requires answer != [] && Trimmed(answer) && !Contains(answer, FinalMarker)
    ensures ParseResponse(lead + FinalMarker + " " + answer) == AgentFinish(answer, "")
    ensures NolangAgent.ParseReply(lead + FinalMarker + " " + answer)
      == NolangAgent.Call(lead + "Final Answer", answer)
  {
    MarkedFinishes(lead, answer);
    MarkedCalls(lead, answer);
  }

  lemma MarkedFinishes(lead: string, answer: string)
    requires Trimmed(answer) && !Contains(answer, FinalMarker)
    ensures ParseResponse(lead + FinalMarker + " " + answer) == AgentFinish(answer, "")
  {
    var tail := " " + answer;
    assert lead + FinalMarker + " " + answer == lead + FinalMarker + tail;
    NolangAgent.SpacedTail(answer);
    ParseResponseFinal(lead + FinalMarker + tail, lead, tail);
  }

  lemma MarkedCalls(lead: string, answer: string)
    requires lead != [] && !IsSpace(lead[0]) && ':' !in lead
    requires answer != [] && Trimmed(answer)
    ensures NolangAgent.ParseReply(lead + FinalMarker + " " + answer)
      == NolangAgent.Call(lead + "Final Answer", answer)
  {
    var name := lead + "Final Answer";
    assert lead + FinalMarker + " " + answer == name + ": " + answer;
    assert ':' !in name;
    assert name[|name| - 1] == 'r' && name[0] == lead[0];
    assert |name| > 12;
    NolangAgent.CallParses(name, answer);
  }

  /** The instance "foo\nFinal Answer: x". */
  lemma FooMarkerX()
    ensures ParseResponse("foo\n" + FinalMarker + " " + "x") == AgentFinish("x", "")
    ensures NolangAgent.ParseReply("foo\n" + FinalMarker + " " + "x")
      == NolangAgent.Call("foo\n" + "Final Answer", "x")
  {
    MarkerAfterText("foo\n", "x");
  }
}
