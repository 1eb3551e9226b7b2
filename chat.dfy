/** The chat messages exchanged with the completion endpoint, as `{'role', 'content'}`
    records. */
module Chat {

  datatype Role = System | User

  datatype Message = Message(role: Role, content: string)

  /** The opening of a conversation: the fixed instructions, then the user's request. */
  function Opening(systemMessage: string, input: string): seq<Message>
  {
    [Message(System, systemMessage), Message(User, input)]
  }

  /** Two messages: the only system message comes first and carries the instructions, the
      user's request follows; different instructions or requests give different openings. */
  lemma OpeningShape(systemMessage: string, input: string)
    ensures var o := Opening(systemMessage, input);
      |o| == 2 && o[0].content == systemMessage && o[1] == Message(User, input)
      && forall k :: 0 <= k < |o| ==> (o[k].role == System <==> k == 0)
    ensures forall s, i :: Opening(s, i) == Opening(systemMessage, input) <==> s == systemMessage && i == input
  {
  }
}

/** The collaborators the core calls but does not own: the completion endpoint and the
    warehouse. Each call either returns or raises, and which one happens is up to them. */
module Collaborators {
  import opened Chat

  /** What an external call does: return a value, or raise an exception whose `str()`
      is `message`. */
  datatype Outcome<T> = Returned(value: T) | Raised(message: string)

  /** The completion endpoint, applied to the messages it is sent. */
  type Completion = seq<Message> -> Outcome<string>

  /** A warehouse cursor running one statement: the text of the fetched rows and the
      query id, or the exception raised by `cursor()`, `execute` or `fetchall`. */
  datatype QueryRun = Fetched(rows: string, queryId: string) | Failed(message: string)

  /** The warehouse connection, applied to the statement a fresh cursor executes. */
  type Connection = string -> QueryRun

  /** A text-returning database call (`SQLDatabase.run`), which raises on error. */
  type Database = string -> Outcome<string>
}
