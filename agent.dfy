/**
 * The in-process session store of agent.py: a table from session id to a
 * shared ChatHistory object, and the stateful entry point that records one
 * question-and-answer turn in it. Every method is proved to change the table
 * exactly as the corresponding function of SessionSpec says.
 */
module Agent {
  import opened Wrappers
  import opened Chat
  import opened SessionSpec

  /**
   * The text ask_agent accumulates from the streamed chunks, one chunk at a
   * time and in order.
   */
  method JoinChunks(chunks: seq<string>) returns (text: string)
    ensures text == Concat(chunks)
  {
    text := "";
    var i := 0;
    while i < |chunks|
      invariant 0 <= i <= |chunks|
      invariant text == Concat(chunks[..i])
    {
      ConcatAppend(chunks[..i], [chunks[i]]);
      assert Concat([chunks[i]]) == chunks[i] + Concat([]);
      assert chunks[..i + 1] == chunks[..i] + [chunks[i]];
      text := text + chunks[i];
      i := i + 1;
    }
    assert chunks[..i] == chunks;
  }

  class SessionStore {
    /** Session id to the history object shared with every caller that looked it up. */
    var sessions: map<string, ChatHistory>
    /** The table as a value: each session's current messages. */
    ghost var Contents: Sessions
    /** This store and every history object it has handed out. */
    ghost var Repr: set<object>

    /**
     * Contents mirrors the stored histories, and no two sessions share a
     * history object.
     */
    ghost predicate Valid()
      reads this, Repr
    {
      && this in Repr
      && sessions.Keys == Contents.Keys
      && (forall id :: id in sessions ==> sessions[id] in Repr && sessions[id].messages == Contents[id])
      && (forall a, b :: a in sessions && b in sessions && a != b ==> sessions[a] != sessions[b])
    }

    /** The store starts with no sessions. */
    constructor ()
      ensures Valid() && fresh(Repr)
      ensures sessions == map[] && Contents == map[]
    {
      sessions := map[];
      Contents := map[];
      Repr := {this};
    }

    /**
     * Returns the stored history of `id`, first storing a fresh empty one if
     * there is none; the object returned is the stored one, not a copy.
     */
    method GetOrCreateHistory(id: string) returns (h: ChatHistory)
      requires Valid()
      modifies this
      ensures Valid() && fresh(Repr - old(Repr))
      ensures id in sessions && h == sessions[id] && h in Repr
      ensures id in old(sessions) ==> sessions == old(sessions) && Repr == old(Repr)
      ensures id !in old(sessions) ==> fresh(h) && sessions == old(sessions)[id := h]
      ensures Contents == GetOrCreate(old(Contents), id)
    {
      if id !in sessions {
        var created := new ChatHistory();
        sessions := sessions[id := created];
        Contents := Contents[id := []];
        Repr := Repr + {created};
      }
      h := sessions[id];
    }

    /** Drops the history of a session, if it has one; the id defaults to "default". */
    method ResetSession(sessionId: Option<string>)
      requires Valid()
      modifies this
      ensures Valid() && Repr == old(Repr)
      ensures sessions == old(sessions) - {SessionIdOrDefault(sessionId)}
      ensures Contents == SessionSpec.ResetSession(old(Contents), SessionIdOrDefault(sessionId))
    {
      var id := SessionIdOrDefault(sessionId);
      sessions := sessions - {id};
      Contents := Contents - {id};
    }

    /** Appends one message to the stored history of `id`, in place. */
    method Record(history: ChatHistory, id: string, message: Message)
      requires Valid() && id in sessions && sessions[id] == history
      modifies this, history
      ensures Valid() && Repr == old(Repr) && sessions == old(sessions)
      ensures Contents == old(Contents)[id := old(Contents)[id] + [message]]
    {
      match message.role {
        case User => history.AddUserMessage(message.content);
        case Assistant => history.AddAssistantMessage(message.content);
      }
      Contents := Contents[id := history.messages];
      forall k | k in sessions && k != id ensures sessions[k].messages == Contents[k] {
        assert sessions[k] != history;
      }
    }

    /**
     * One turn of the stateful agent: records the question in the session's
     * history, lets the agent respond to the whole history, records the
     * concatenated response as the assistant's message and returns it.
     */
    method AskAgent(question: string, sessionId: Option<string>, respond: Responder) returns (answer: string)
      requires Valid()
      modifies Repr
      ensures Valid() && fresh(Repr - old(Repr))
      ensures SessionIdOrDefault(sessionId) in old(sessions) ==> sessions == old(sessions)
      ensures forall k :: k in old(sessions) ==> k in sessions && sessions[k] == old(sessions)[k]
      ensures Turn(Contents, answer) == SessionSpec.AskAgent(old(Contents), SessionIdOrDefault(sessionId), question, respond)
    {
      var id := SessionIdOrDefault(sessionId);
      ghost var asked := HistoryOf(old(Contents), id) + [Message(User, question)];
      var history := GetOrCreateHistory(id);
      Record(history, id, Message(User, question));
      assert history.messages == asked;
      var chunks := respond(history.messages);
      answer := JoinChunks(chunks);
      Record(history, id, Message(Assistant, answer));
      RecordTurn(old(Contents), id, Message(User, question), Message(Assistant, answer));
    }
  }
}
