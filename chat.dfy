/** Optional values: an omitted keyword argument is `None`. */
module Wrappers {
  datatype Option<+T> = None | Some(value: T) {
    function GetOr(default: T): T {
      match this
      case Some(v) => v
      case None => default
    }
  }
}

/**
 * The messages of a conversation and the in-place history object that the
 * agent appends them to (the chat library's ChatHistory, reduced to the two
 * appends agent.py uses).
 */
module Chat {

  datatype Role = User | Assistant

  datatype Message = Message(role: Role, content: string)

  type History = seq<Message>

  /** A conversation log that is shared by reference and extended in place. */
  class ChatHistory {
    var messages: History

    constructor ()
      ensures messages == []
    {
      messages := [];
    }

    method AddUserMessage(content: string)
      modifies this
      ensures messages == old(messages) + [Message(User, content)]
    {
      messages := messages + [Message(User, content)];
    }

    method AddAssistantMessage(content: string)
      modifies this
      ensures messages == old(messages) + [Message(Assistant, content)]
    {
      messages := messages + [Message(Assistant, content)];
    }
  }

  /** The in-order concatenation of streamed response chunks. */
  function Concat(chunks: seq<string>): string
  {
    if chunks == [] then "" else chunks[0] + Concat(chunks[1..])
  }

  /** The sum of the chunk lengths. */
  function TotalLength(chunks: seq<string>): nat
  {
    if chunks == [] then 0 else |chunks[0]| + TotalLength(chunks[1..])
  }

  /** Concatenation loses no character and adds none. */
  lemma {:induction false} ConcatLength(chunks: seq<string>)
    ensures |Concat(chunks)| == TotalLength(chunks)
  {
    if chunks != [] {
      ConcatLength(chunks[1..]);
    }
  }

  /** Concatenation distributes over splitting the chunk stream anywhere. */
  lemma {:induction false} ConcatAppend(a: seq<string>, b: seq<string>)
    ensures Concat(a + b) == Concat(a) + Concat(b)
  {
    if a == [] {
      assert a + b == b;
    } else {
      assert (a + b)[1..] == a[1..] + b;
      ConcatAppend(a[1..], b);
    }
  }

  /** The contents of the user messages of a history, in order. */
  function Questions(h: History): seq<string>
  {
    if h == [] then []
    else if h[0].role == User then [h[0].content] + Questions(h[1..])
    else Questions(h[1..])
  }

  lemma {:induction false} QuestionsAppend(a: History, b: History)
    ensures Questions(a + b) == Questions(a) + Questions(b)
  {
    if a == [] {
      assert a + b == b;
    } else {
      assert (a + b)[1..] == a[1..] + b;
      QuestionsAppend(a[1..], b);
    }
  }

  /**
   * A history made of complete turns: user and assistant messages alternate,
   * starting with the user, and the last message is an assistant's.
   */
  predicate Alternating(h: History)
  {
    && |h| % 2 == 0
    && forall i :: 0 <= i < |h| ==> h[i].role == (if i % 2 == 0 then User else Assistant)
  }

  /** Appending one user message and then one assistant message keeps a history alternating. */
  lemma AlternatingExtend(h: History, question: string, answer: string)
    requires Alternating(h)
    ensures Alternating(h + [Message(User, question), Message(Assistant, answer)])
  {
    var e := h + [Message(User, question), Message(Assistant, answer)];
    forall i | 0 <= i < |e|
      ensures e[i].role == (if i % 2 == 0 then User else Assistant)
    {
      if i >= |h| {
        assert i == |h| || i == |h| + 1;
      }
    }
  }
}
