/**
 * What the interactive loop of agent.py's main() does, as a function of the
 * lines typed: it reads lines until "quit", skips blank ones, clears the
 * "cli-session" history on "reset", and asks the agent every other line
 * within that one session. What the loop prints becomes a list of replies.
 */
module CliSpec {
  import opened Wrappers
  import opened Chat
  import opened SessionSpec
  import opened Command

  /** The one session the command-line loop talks in. */
  const CliSessionId: string := "cli-session"

  /** What the loop prints for a line: the cleared notice or the agent's answer. */
  datatype Reply = Cleared | Answer(text: string)

  datatype Outcome = Outcome(sessions: Sessions, replies: seq<Reply>)

  /** The replies `earlier` printed before the rest of a run. */
  function After(earlier: seq<Reply>, o: Outcome): Outcome
  {
    Outcome(o.sessions, earlier + o.replies)
  }

  /** The table and the printed replies after the loop has read `lines`. */
  function Run(s: Sessions, lines: seq<string>, respond: Responder): Outcome
    decreases |lines|
  {
    if lines == [] then Outcome(s, [])
    else
      match Classify(lines[0])
      case Skip => Run(s, lines[1..], respond)
      case Quit => Outcome(s, [])
      case ResetHistory =>
        After([Cleared], Run(SessionSpec.ResetSession(s, CliSessionId), lines[1..], respond))
      case AskQuestion(question) =>
        var turn := SessionSpec.AskAgent(s, CliSessionId, question, respond);
        After([Answer(turn.answer)], Run(turn.sessions, lines[1..], respond))
  }

  lemma AfterAppend(earlier: seq<Reply>, next: seq<Reply>, o: Outcome)
    ensures After(earlier, After(next, o)) == After(earlier + next, o)
  {
  }

  /** One line of input: what the loop does with it, command by command. */
  lemma RunStep(s: Sessions, lines: seq<string>, respond: Responder)
    requires lines != []
    ensures Classify(lines[0]) == Skip ==> Run(s, lines, respond) == Run(s, lines[1..], respond)
    ensures Classify(lines[0]) == Quit ==> Run(s, lines, respond) == Outcome(s, [])
    ensures Classify(lines[0]) == ResetHistory ==>
      Run(s, lines, respond) == After([Cleared], Run(SessionSpec.ResetSession(s, CliSessionId), lines[1..], respond))
    ensures Classify(lines[0]).AskQuestion? ==>
      var turn := SessionSpec.AskAgent(s, CliSessionId, Classify(lines[0]).text, respond);
      Run(s, lines, respond) == After([Answer(turn.answer)], Run(turn.sessions, lines[1..], respond))
  {
  }

  // ---------------------------------------------------------------------------
  // Properties of the loop
  // ---------------------------------------------------------------------------

  /** The loop touches no session but "cli-session". */
  lemma {:induction false} RunIsolation(s: Sessions, lines: seq<string>, respond: Responder)
    ensures Untouched(s, Run(s, lines, respond).sessions, CliSessionId)
    decreases |lines|
  {
    if lines != [] {
      match Classify(lines[0])
      case Skip =>
        RunIsolation(s, lines[1..], respond);
      case Quit =>
      case ResetHistory =>
        var m := SessionSpec.ResetSession(s, CliSessionId);
        RunIsolation(m, lines[1..], respond);
        UntouchedTransitive(s, m, Run(m, lines[1..], respond).sessions, CliSessionId);
      case AskQuestion(q) =>
        var m := SessionSpec.AskAgent(s, CliSessionId, q, respond).sessions;
        RunIsolation(m, lines[1..], respond);
        UntouchedTransitive(s, m, Run(m, lines[1..], respond).sessions, CliSessionId);
    }
  }

  /** Nothing typed after a "quit" line has any effect. */
  lemma {:induction false} RunStopsAtQuit(s: Sessions, lines: seq<string>, k: nat, respond: Responder)
    requires k < |lines| && Classify(lines[k]) == Quit
    ensures Run(s, lines, respond) == Run(s, lines[..k + 1], respond)
    decreases k
  {
    assert lines[..k + 1][0] == lines[0];
    if k > 0 {
      assert lines[..k + 1][1..] == lines[1..][..k];
      match Classify(lines[0])
      case Skip =>
        RunStopsAtQuit(s, lines[1..], k - 1, respond);
      case Quit =>
      case ResetHistory =>
        RunStopsAtQuit(SessionSpec.ResetSession(s, CliSessionId), lines[1..], k - 1, respond);
      case AskQuestion(q) =>
        RunStopsAtQuit(SessionSpec.AskAgent(s, CliSessionId, q, respond).sessions, lines[1..], k - 1, respond);
    }
  }

  /**
   * Blank lines, "quit" and "reset" never reach the agent: a run without a
   * question is the same whatever the agent would answer, and prints only
   * cleared notices.
   */
  lemma {:induction false} RunWithoutQuestionsIgnoresAgent(s: Sessions, lines: seq<string>, r1: Responder, r2: Responder)
    requires forall i :: 0 <= i < |lines| ==> !Classify(lines[i]).AskQuestion?
    ensures Run(s, lines, r1) == Run(s, lines, r2)
    ensures forall i :: 0 <= i < |Run(s, lines, r1).replies| ==> Run(s, lines, r1).replies[i] == Cleared
    decreases |lines|
  {
    if lines != [] {
      assert forall i :: 0 <= i < |lines[1..]| ==> lines[1..][i] == lines[i + 1];
      match Classify(lines[0])
      case Skip =>
        RunWithoutQuestionsIgnoresAgent(s, lines[1..], r1, r2);
      case Quit =>
      case ResetHistory =>
        RunWithoutQuestionsIgnoresAgent(SessionSpec.ResetSession(s, CliSessionId), lines[1..], r1, r2);
    }
  }

  /** Every history the loop leaves behind is made of complete user/assistant turns. */
  lemma {:induction false} RunKeepsAlternating(s: Sessions, lines: seq<string>, respond: Responder)
    requires AllAlternating(s)
    ensures AllAlternating(Run(s, lines, respond).sessions)
    decreases |lines|
  {
    if lines != [] {
      match Classify(lines[0])
      case Skip =>
        RunKeepsAlternating(s, lines[1..], respond);
      case Quit =>
      case ResetHistory =>
        OperationsKeepAlternating(s, CliSessionId, "", respond);
        RunKeepsAlternating(SessionSpec.ResetSession(s, CliSessionId), lines[1..], respond);
      case AskQuestion(q) =>
        OperationsKeepAlternating(s, CliSessionId, q, respond);
        RunKeepsAlternating(SessionSpec.AskAgent(s, CliSessionId, q, respond).sessions, lines[1..], respond);
    }
  }

  /** A reset line leaves "cli-session" without history, so the next question starts afresh. */
  lemma ResetLineClearsHistory(s: Sessions, line: string, question: string, respond: Responder)
    requires Classify(line) == ResetHistory
    requires Classify(question).AskQuestion?
    ensures var o := Run(s, [line, question], respond);
      var answer := Concat(respond([Message(User, Strip(question))]));
      && o.replies == [Cleared, Answer(answer)]
      && CliSessionId in o.sessions
      && o.sessions[CliSessionId] == [Message(User, Strip(question)), Message(Assistant, answer)]
  {
    ClassifySpec(question);
    var lines := [line, question];
    var asked := [Message(User, Strip(question))];
    var cleared := SessionSpec.ResetSession(s, CliSessionId);
    assert HistoryOf(cleared, CliSessionId) + asked == asked;
    var turn := SessionSpec.AskAgent(cleared, CliSessionId, Strip(question), respond);
    assert turn.answer == Concat(respond(asked));
    assert lines[0] == line && lines[1..] == [question];
    RunStep(s, lines, respond);
    assert [question][0] == question && [question][1..] == [];
    RunStep(cleared, [question], respond);
    assert Run(cleared, [question], respond) == Outcome(turn.sessions, [Answer(turn.answer)]);
  }
}

/**
 * The interactive loop itself, on the shared session store. Reading from the
 * terminal becomes a finite sequence of lines.
 */
module Cli {
  import opened Wrappers
  import opened Chat
  import opened SessionSpec
  import opened Command
  import opened CliSpec
  import Agent

  /**
   * The loop of main(): it stops at "quit" or when the
   * input runs out, and its effect and output are those of Run.
   */
  method RunCli(store: Agent.SessionStore, lines: seq<string>, respond: Responder) returns (replies: seq<Reply>)
    requires store.Valid()
    modifies store, store.Repr
    ensures store.Valid() && fresh(store.Repr - old(store.Repr))
    ensures Outcome(store.Contents, replies) == Run(old(store.Contents), lines, respond)
  {
    replies := [];
    var i := 0;
    while i < |lines|
      invariant 0 <= i <= |lines|
      invariant store.Valid() && fresh(store.Repr - old(store.Repr))
      invariant Run(old(store.Contents), lines, respond) == After(replies, Run(store.Contents, lines[i..], respond))
    {
      ghost var done := replies;
      ghost var before := store.Contents;
      var command := Classify(lines[i]);
      RunStep(before, lines[i..], respond);
      assert lines[i..][0] == lines[i] && lines[i..][1..] == lines[i + 1..];
      match command
      case Skip =>
        i := i + 1;
      case Quit =>
        break;
      case ResetHistory =>
        store.ResetSession(Some(CliSessionId));
        replies := replies + [Cleared];
        i := i + 1;
        AfterAppend(done, [Cleared], Run(store.Contents, lines[i..], respond));
      case AskQuestion(question) =>
        var answer := store.AskAgent(question, Some(CliSessionId), respond);
        replies := replies + [Answer(answer)];
        i := i + 1;
        AfterAppend(done, [Answer(answer)], Run(store.Contents, lines[i..], respond));
    }
  }

}
