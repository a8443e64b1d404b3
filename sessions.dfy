/**
 * The session table of agent.py as a value: a map from session id to the
 * messages of that session's history, and the effect of each operation on it.
 * The class SessionStore (module Agent) updates the same table in place and is
 * proved to follow these functions.
 */
module SessionSpec {
  import opened Wrappers
  import opened Chat

  type Sessions = map<string, History>

  /**
   * The agent's response to a history: the text chunks it streams back. The
   * model, its tool calls and the plan-act-observe loop all happen behind it.
   */
  type Responder = History -> seq<string>

  /** The session id used when a caller gives none. */
  const DefaultSessionId: string := "default"

  function SessionIdOrDefault(given: Option<string>): (id: string)
    ensures given.Some? ==> id == given.value
    ensures given.None? ==> id == DefaultSessionId
  {
    given.GetOr(DefaultSessionId)
  }

  /** Every entry except the one under `id` is present in both tables alike, with the same history. */
  ghost predicate Untouched(s: Sessions, r: Sessions, id: string)
  {
    forall k :: k != id ==> (k in s <==> k in r) && (k in s ==> r[k] == s[k])
  }

  /** The history a session currently has; a session without an entry has an empty one. */
  function HistoryOf(s: Sessions, id: string): History
  {
    if id in s then s[id] else []
  }

  /** The table after get_or_create_history: an entry is added only when missing, and it is empty. */
  function GetOrCreate(s: Sessions, id: string): (r: Sessions)
    ensures id in r && r[id] == HistoryOf(s, id)
    ensures id !in s ==> r[id] == []
    ensures id in s ==> r == s
  {
    if id in s then s else s[id := []]
  }

  /** The table after reset_session: the entry is gone, whether or not there was one. */
  function ResetSession(s: Sessions, id: string): (r: Sessions)
    ensures id !in r
    ensures id !in s ==> r == s
  {
    s - {id}
  }

  /** The table after one ask_agent call, and the text that call returns. */
  datatype Turn = Turn(sessions: Sessions, answer: string)

  function AskAgent(s: Sessions, id: string, question: string, respond: Responder): (t: Turn)
    ensures id in t.sessions
    ensures t.sessions[id] == HistoryOf(s, id) + [Message(User, question), Message(Assistant, t.answer)]
    ensures t.answer == Concat(respond(HistoryOf(s, id) + [Message(User, question)]))
  {
    var asked := HistoryOf(s, id) + [Message(User, question)];
    var answer := Concat(respond(asked));
    Turn(s[id := asked + [Message(Assistant, answer)]], answer)
  }

  /** Consecutive ask_agent calls on one session, one per question. */
  function AskAll(s: Sessions, id: string, questions: seq<string>, respond: Responder): Sessions
    decreases |questions|
  {
    if questions == [] then s
    else AskAll(AskAgent(s, id, questions[0], respond).sessions, id, questions[1..], respond)
  }

  /** Every stored history is made of complete user/assistant turns. */
  predicate AllAlternating(s: Sessions)
  {
    forall id :: id in s ==> Alternating(s[id])
  }

  // ---------------------------------------------------------------------------
  // Properties of the session table
  // ---------------------------------------------------------------------------

  /**
   * Each operation adds or removes at most the entry of its own session and
   * leaves every other session's history as it was.
   */
  lemma OperationsTouchOnlyTheirSession(s: Sessions, id: string, question: string, respond: Responder)
    ensures GetOrCreate(s, id).Keys == s.Keys + {id} && Untouched(s, GetOrCreate(s, id), id)
    ensures ResetSession(s, id).Keys == s.Keys - {id} && Untouched(s, ResetSession(s, id), id)
    ensures AskAgent(s, id, question, respond).sessions.Keys == s.Keys + {id}
    ensures Untouched(s, AskAgent(s, id, question, respond).sessions, id)
  {
  }

  /**
   * Creating the entry if needed and then appending two messages to it one at
   * a time stores the same table as appending both to the session's history.
   */
  lemma RecordTurn(s: Sessions, id: string, first: Message, second: Message)
    ensures var created := GetOrCreate(s, id);
      var once := created[id := created[id] + [first]];
      once[id := once[id] + [second]] == s[id := HistoryOf(s, id) + [first, second]]
  {
    var created := GetOrCreate(s, id);
    var once := created[id := created[id] + [first]];
    assert HistoryOf(s, id) + [first] + [second] == HistoryOf(s, id) + [first, second];
    assert once[id := once[id] + [second]] == created[id := HistoryOf(s, id) + [first, second]];
  }

  /** Looking a session up a second time creates nothing new. */
  lemma GetOrCreateIdempotent(s: Sessions, id: string)
    ensures GetOrCreate(GetOrCreate(s, id), id) == GetOrCreate(s, id)
  {
  }

  /** Resetting twice is resetting once. */
  lemma ResetIdempotent(s: Sessions, id: string)
    ensures ResetSession(ResetSession(s, id), id) == ResetSession(s, id)
  {
  }

  /**
   * After a reset the session starts again from an empty history: the next
   * turn is the first one, and the agent sees only its question.
   */
  lemma ResetThenGetOrCreateIsEmpty(s: Sessions, id: string, question: string, respond: Responder)
    ensures GetOrCreate(ResetSession(s, id), id)[id] == []
    ensures AskAgent(ResetSession(s, id), id, question, respond).sessions[id]
         == [Message(User, question), Message(Assistant, Concat(respond([Message(User, question)])))]
  {
    assert HistoryOf(ResetSession(s, id), id) == [];
    assert [] + [Message(User, question)] == [Message(User, question)];
  }

  /**
   * What one session's turn stores and answers depends only on that session's
   * history: the other entries of the table cannot influence it.
   */
  lemma AskAgentDependsOnlyOnItsSession(s1: Sessions, s2: Sessions, id: string, question: string, respond: Responder)
    requires HistoryOf(s1, id) == HistoryOf(s2, id)
    ensures AskAgent(s1, id, question, respond).answer == AskAgent(s2, id, question, respond).answer
    ensures AskAgent(s1, id, question, respond).sessions[id] == AskAgent(s2, id, question, respond).sessions[id]
  {
  }

  /** The operations keep every stored history made of complete turns. */
  lemma OperationsKeepAlternating(s: Sessions, id: string, question: string, respond: Responder)
    requires AllAlternating(s)
    ensures AllAlternating(GetOrCreate(s, id))
    ensures AllAlternating(ResetSession(s, id))
    ensures AllAlternating(AskAgent(s, id, question, respond).sessions)
  {
    var h := HistoryOf(s, id);
    assert Alternating(h);
    var t := AskAgent(s, id, question, respond);
    AlternatingExtend(h, question, t.answer);
  }

  /** One turn adds exactly its question to the session's user messages. */
  lemma AskAgentRecordsQuestion(s: Sessions, id: string, question: string, respond: Responder)
    ensures Questions(AskAgent(s, id, question, respond).sessions[id]) == Questions(HistoryOf(s, id)) + [question]
  {
    var t := AskAgent(s, id, question, respond);
    var turn := [Message(User, question), Message(Assistant, t.answer)];
    QuestionsAppend(HistoryOf(s, id), turn);
    assert turn[1..] == [Message(Assistant, t.answer)] && turn[1..][1..] == [];
    assert Questions(turn[1..]) == [];
  }

  lemma UntouchedTransitive(s: Sessions, m: Sessions, r: Sessions, id: string)
    requires Untouched(s, m, id) && Untouched(m, r, id)
    ensures Untouched(s, r, id)
  {
  }

  /** The user messages of a session record exactly the questions asked of it, in order. */
  lemma {:induction false} AskAllRecordsQuestions(s: Sessions, id: string, questions: seq<string>, respond: Responder)
    ensures Questions(HistoryOf(AskAll(s, id, questions, respond), id)) == Questions(HistoryOf(s, id)) + questions
    decreases |questions|
  {
    if questions != [] {
      var q := questions[0];
      var m := AskAgent(s, id, q, respond).sessions;
      AskAgentRecordsQuestion(s, id, q, respond);
      assert HistoryOf(m, id) == m[id];
      AskAllRecordsQuestions(m, id, questions[1..], respond);
      assert AskAll(s, id, questions, respond) == AskAll(m, id, questions[1..], respond);
      assert questions == [q] + questions[1..];
    }
  }

  /** Every question adds one turn of two messages to the session. */
  lemma {:induction false} AskAllAddsTwoMessagesPerQuestion(s: Sessions, id: string, questions: seq<string>, respond: Responder)
    ensures |HistoryOf(AskAll(s, id, questions, respond), id)| == |HistoryOf(s, id)| + 2 * |questions|
    decreases |questions|
  {
    if questions != [] {
      var m := AskAgent(s, id, questions[0], respond).sessions;
      assert HistoryOf(m, id) == m[id];
      AskAllAddsTwoMessagesPerQuestion(m, id, questions[1..], respond);
    }
  }

  /** However many questions one session is asked, every other session keeps its history. */
  lemma {:induction false} AskAllTouchesOnlyItsSession(s: Sessions, id: string, questions: seq<string>, respond: Responder)
    ensures Untouched(s, AskAll(s, id, questions, respond), id)
    decreases |questions|
  {
    if questions != [] {
      var m := AskAgent(s, id, questions[0], respond).sessions;
      OperationsTouchOnlyTheirSession(s, id, questions[0], respond);
      AskAllTouchesOnlyItsSession(m, id, questions[1..], respond);
      UntouchedTransitive(s, m, AskAll(m, id, questions[1..], respond), id);
    }
  }
}
