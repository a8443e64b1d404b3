# Policy assistant session store, in Dafny

This project models the stateful part of the policy assistant in
`blogs/blog-02-prompt-engineering-and-state/code/agent.py` and proves its
properties. The assistant keeps one chat history per session id in an
in-process table. `ask_agent` appends the user's question to that history and
passes the whole history to the language-model agent. It then joins the
streamed answer chunks, appends the answer as the assistant's message and
returns it. `reset_session` forgets a session. The agent's one tool,
`lookup_faq`, looks a policy document up by key. The interactive loop of
`main` strips each typed line, skips blank ones, stops on `quit`, clears its
session on `reset`, and asks the agent everything else, all in the session
`"cli-session"`.

The model has two layers:

- `SessionSpec` describes the session table as a value of type
  `map<string, seq<Message>>`. It has one function per operation, and the
  lemmas prove what the operations promise: lazy creation, idempotent reset,
  isolation between sessions, and the order in which messages are appended.
- `Agent.SessionStore` is the table as the program keeps it: a map from id to
  shared `ChatHistory` objects that are extended in place. Its methods for
  `get_or_create_history`, `reset_session` and `ask_agent` are proved to change
  the table exactly as the matching `SessionSpec` function says. Its helper
  `Record`, one in-place append, is proved to extend only that session's
  entry. A ghost field `Contents` mirrors the table as a value, and `Valid()`
  ties it to the objects.

The CLI loop is specified the same way. `CliSpec.Run` is the effect and output
of the loop as a function of the lines typed. `Cli.RunCli` is the loop itself,
run on a `SessionStore`, and is proved equal to `Run`. Command
classification (`Command`) models Python's `str.strip()` with Python's exact
set of whitespace code points, and recognises `quit` and `reset` in any
letter case.

Files: `chat.dfy` (messages, `ChatHistory`, chunk concatenation),
`sessions.dfy` (`SessionSpec`), `agent.dfy` (`Agent`: `JoinChunks`,
`SessionStore`), `faq.dfy` (`FaqTool`), `command.dfy` (`Command`), `cli.dfy`
(`CliSpec`, `Cli`).

## Model

| member | source | states |
|---|---|---|
| Chat.ChatHistory.constructor | blogs/blog-02-prompt-engineering-and-state/code/agent.py:108 | A new history holds no messages. |
| Chat.ChatHistory.AddUserMessage | blogs/blog-02-prompt-engineering-and-state/code/agent.py:117 | The history is extended in place by exactly one user message with the given text. |
| Chat.ChatHistory.AddAssistantMessage | blogs/blog-02-prompt-engineering-and-state/code/agent.py:124 | The history is extended in place by exactly one assistant message with the given text. |
| Chat.Concat | blogs/blog-02-prompt-engineering-and-state/code/agent.py:119-122 | Defines the text `ask_agent` accumulates: the chunks joined in stream order. Its properties are `Chat.ConcatLength` and `Chat.ConcatAppend`, and the loop `Agent.JoinChunks` is proved to compute it. |
| Chat.ConcatLength | blogs/blog-02-prompt-engineering-and-state/code/agent.py:119-122 | The joined answer has exactly as many characters as all the chunks together. |
| Chat.ConcatAppend | blogs/blog-02-prompt-engineering-and-state/code/agent.py:119-122 | Joining a chunk stream split anywhere equals joining each part and concatenating, so chunk-by-chunk accumulation computes the whole join. |
| Chat.AlternatingExtend | blogs/blog-02-prompt-engineering-and-state/code/agent.py:117-124 | Appending a user message and then an assistant message keeps a history made of complete user/assistant turns. |
| Agent.JoinChunks | blogs/blog-02-prompt-engineering-and-state/code/agent.py:119-122 | The loop over the streamed chunks returns their in-order concatenation. |
| SessionSpec.SessionIdOrDefault | blogs/blog-02-prompt-engineering-and-state/code/agent.py:115 | A given session id is used as is; an omitted one is `"default"`, as for `ask_agent` and `reset_session` (line 127). |
| SessionSpec.GetOrCreate | blogs/blog-02-prompt-engineering-and-state/code/agent.py:105-109 | Afterwards the id has an entry. It is the stored history when there was one, and the table is then unchanged; otherwise it is a new empty history. |
| SessionSpec.ResetSession | blogs/blog-02-prompt-engineering-and-state/code/agent.py:127-129 | Afterwards the id has no entry, and a missing entry leaves the table unchanged. |
| SessionSpec.AskAgent | blogs/blog-02-prompt-engineering-and-state/code/agent.py:115-125 | The session's history grows by exactly the user message with the question, then the assistant message with the answer. The answer is the concatenation of the chunks the agent produced for the history that already ends with the question. The returned text is the stored assistant message. |
| SessionSpec.AskAll | blogs/blog-02-prompt-engineering-and-state/code/agent.py:115-125 | Defines consecutive `ask_agent` calls on one session, one per question, in order. `SessionSpec.AskAllRecordsQuestions`, `SessionSpec.AskAllAddsTwoMessagesPerQuestion` and `SessionSpec.AskAllTouchesOnlyItsSession` prove what they do. |
| SessionSpec.OperationsTouchOnlyTheirSession | blogs/blog-02-prompt-engineering-and-state/code/agent.py:105-129 | Get-or-create and ask add at most their own id; reset removes only its own id; every other session's entry is unchanged. |
| SessionSpec.GetOrCreateIdempotent | blogs/blog-02-prompt-engineering-and-state/code/agent.py:105-109 | A second lookup of the same id creates nothing new. |
| SessionSpec.ResetIdempotent | blogs/blog-02-prompt-engineering-and-state/code/agent.py:127-129 | Resetting twice equals resetting once. |
| SessionSpec.ResetThenGetOrCreateIsEmpty | blogs/blog-02-prompt-engineering-and-state/code/agent.py:105-129 | After a reset, looking the session up yields an empty history. For every question and every agent, the next turn stores just that question and the answer the agent gives to the one-message history holding it. |
| SessionSpec.AskAgentDependsOnlyOnItsSession | blogs/blog-02-prompt-engineering-and-state/code/agent.py:115-125 | The answer and the stored history of a turn depend only on that session's history, never on other sessions. |
| SessionSpec.OperationsKeepAlternating | blogs/blog-02-prompt-engineering-and-state/code/agent.py:105-129 | If every stored history is made of complete user/assistant turns, it still is after any operation. |
| SessionSpec.AskAgentRecordsQuestion | blogs/blog-02-prompt-engineering-and-state/code/agent.py:116-117 | One turn adds exactly its question to the session's user messages. |
| SessionSpec.AskAllRecordsQuestions | blogs/blog-02-prompt-engineering-and-state/code/agent.py:115-125 | After any sequence of turns on one session, its user messages are the earlier ones followed by exactly the questions asked, in order. |
| SessionSpec.AskAllAddsTwoMessagesPerQuestion | blogs/blog-02-prompt-engineering-and-state/code/agent.py:115-125 | Each question asked adds exactly two messages to the session's history. |
| SessionSpec.AskAllTouchesOnlyItsSession | blogs/blog-02-prompt-engineering-and-state/code/agent.py:115-125 | Any number of turns on one session leave every other session's entry as it was. |
| Agent.SessionStore.constructor | blogs/blog-02-prompt-engineering-and-state/code/agent.py:103 | The store starts with an empty table. |
| Agent.SessionStore.GetOrCreateHistory | blogs/blog-02-prompt-engineering-and-state/code/agent.py:105-109 | Returns the stored history object itself, not a copy. A missing entry is first filled with a fresh empty history, and the other entries and objects are kept. The table changes as `SessionSpec.GetOrCreate` says. |
| Agent.SessionStore.ResetSession | blogs/blog-02-prompt-engineering-and-state/code/agent.py:127-129 | Removes exactly the entry of the given id, or of `"default"` if none is given. A missing entry is tolerated. The table changes as `SessionSpec.ResetSession` says. |
| Agent.SessionStore.Record | blogs/blog-02-prompt-engineering-and-state/code/agent.py:117-124 | Appending a message to the stored history object in place extends that session's entry by that message and nothing else. |
| Agent.SessionStore.AskAgent | blogs/blog-02-prompt-engineering-and-state/code/agent.py:115-125 | The new table and the returned answer are exactly those of `SessionSpec.AskAgent` on the session given, or on `"default"`. Every session that already had an entry keeps its history object, the asked one included. |
| FaqTool.LookupFaq | blogs/blog-02-prompt-engineering-and-state/code/agent.py:40-41 | A present key yields its document; a missing key yields exactly "Policy not found. Please check with your Release Manager.". |
| FaqTool.LookupFaqFindsDocuments | blogs/blog-02-prompt-engineering-and-state/code/agent.py:40-41 | The reply differs from the not-found text exactly when the key is present with a different document, and such a reply is always one of the loaded documents. |
| FaqTool.LookupFaqUnaffectedByOtherKeys | blogs/blog-02-prompt-engineering-and-state/code/agent.py:40-41 | Documents under other keys never change what a key looks up. |
| Command.Strip | blogs/blog-02-prompt-engineering-and-state/code/agent.py:138 | Defines `str.strip()`: leading, then trailing, whitespace removed. `Command.StripSpec` and `Command.StrippedAtUnique` prove it equals the one text characterised by `StrippedAt`. |
| Command.TrimStartSpec | blogs/blog-02-prompt-engineering-and-state/code/agent.py:138 | Leading trimming removes a prefix made only of whitespace, and all of it. |
| Command.TrimEndSpec | blogs/blog-02-prompt-engineering-and-state/code/agent.py:138 | Trailing trimming removes a suffix made only of whitespace, and all of it. |
| Command.StripSpec | blogs/blog-02-prompt-engineering-and-state/code/agent.py:138 | `strip()` leaves a contiguous part of the line with only whitespace before and after it, and that part neither starts nor ends with whitespace. |
| Command.StrippedAtUnique | blogs/blog-02-prompt-engineering-and-state/code/agent.py:138 | That characterisation determines the stripped text uniquely. |
| Command.StripIgnoresPadding | blogs/blog-02-prompt-engineering-and-state/code/agent.py:138 | Adding whitespace around a line does not change what `strip()` leaves. |
| Command.Classify | blogs/blog-02-prompt-engineering-and-state/code/agent.py:138-146 | Defines what the loop does with one line, tested in the source's order: blank, `quit`, `reset`, question. `Command.ClassifySpec` states each outcome's exact condition. |
| Command.ClassifySpec | blogs/blog-02-prompt-engineering-and-state/code/agent.py:137-147 | A line is skipped exactly when it is blank after stripping. It quits, or resets, exactly when its stripped text lower-cases to `quit`, or `reset`. Otherwise it is a question, and the question asked is its stripped text. |
| Command.ClassifyIgnoresPadding | blogs/blog-02-prompt-engineering-and-state/code/agent.py:138-146 | Whitespace around a line never changes the command it gives. |
| Command.QuitInAnyCase | blogs/blog-02-prompt-engineering-and-state/code/agent.py:141-142 | A stripped line ends the loop exactly when it is `quit` in some mix of upper and lower case. |
| Command.ResetInAnyCase | blogs/blog-02-prompt-engineering-and-state/code/agent.py:143-146 | A stripped line resets exactly when it is `reset` in some mix of upper and lower case. |
| CliSpec.Run | blogs/blog-02-prompt-engineering-and-state/code/agent.py:137-148 | Defines the table and the printed replies after the loop reads the given lines. `CliSpec.RunStep` states it line by line, and `Cli.RunCli` is proved to follow it. |
| CliSpec.RunStep | blogs/blog-02-prompt-engineering-and-state/code/agent.py:137-148 | A blank line does nothing and `quit` ends the run with the table as it is. `reset` prints the cleared notice and resets `"cli-session"` without asking the agent. Any other line prints the answer of one `ask_agent` turn on `"cli-session"` with the stripped text. |
| CliSpec.RunIsolation | blogs/blog-02-prompt-engineering-and-state/code/agent.py:135-148 | Whatever is typed, the loop leaves every session other than `"cli-session"` unchanged. |
| CliSpec.RunStopsAtQuit | blogs/blog-02-prompt-engineering-and-state/code/agent.py:141-142 | Nothing typed after a `quit` line has any effect on the table or the output. |
| CliSpec.RunWithoutQuestionsIgnoresAgent | blogs/blog-02-prompt-engineering-and-state/code/agent.py:139-146 | Input with no question never consults the agent: the outcome is the same for every agent, and only cleared notices are printed. |
| CliSpec.RunKeepsAlternating | blogs/blog-02-prompt-engineering-and-state/code/agent.py:137-148 | The loop keeps every history made of complete user/assistant turns. |
| CliSpec.ResetLineClearsHistory | blogs/blog-02-prompt-engineering-and-state/code/agent.py:143-147 | After `reset`, the next question is asked on an empty history: the agent sees only that question. Afterwards `"cli-session"` holds just that turn, and the notice is printed before the answer. |
| Cli.RunCli | blogs/blog-02-prompt-engineering-and-state/code/agent.py:131-148 | The loop over the typed lines, run on the shared store, leaves the table and prints the replies exactly as `CliSpec.Run` says. |

## Left out

- The language model and its plan, act and observe loop behind `_agent.invoke` (agent.py lines 87-97 and 121) are foreign library code. The model replaces them with a total function from the current history to the text of the streamed chunks (`SessionSpec.Responder`), so `str(chunk.content)` is taken as already applied.
- The model assumes `invoke` only reads the history it is given. The library code that would show otherwise is not part of this model. Tool-call messages the library might add are therefore not represented, and `Role` has only user and assistant.
- Exceptions raised by the agent call, by the network or by the language model are not modelled: the responder always answers.
- `load_faq_docs` (lines 22-27) reads files. The FAQ table is a parameter of `FaqTool.LookupFaq` instead.
- The prompt text `INSTRUCTIONS`, the settings `SETTINGS` and the agent assembly (lines 46-97) are constants and library configuration with nothing to verify.
- The source runs async and has no locking. The model runs calls one after another and says nothing about concurrent turns on one session.
- Per-request iteration budgets, tool-error kinds, duplicate-tool checks, tool turns, sequence numbers and timestamps on turns, and busy-session rejection are not modelled. `agent.py` implements none of them, and the model follows the code. `invoke` receives the stored history object itself, not a copy.
- Because the agent is one fixed function of the history, equal histories get equal answers. For example, the same question asked again on the command line after `reset` gets the same answer. The language model promises nothing of the kind, so no property here should be read as a statement about its answers beyond "some text, joined from the chunks".
- SessionSpec.OperationsKeepAlternating and CliSpec.RunKeepsAlternating hold only because `invoke` is assumed never to write into the history and never to raise. In the program, a raising `invoke` leaves the user message of lines 116-117 in the history with no assistant message after it (line 124 is never reached).
- Console I/O: each line `input()` returns is an element of a finite sequence of lines. What the loop prints for a line becomes a `CliSpec.Reply`. The banner (line 136) and the `You: `/`Agent: ` decorations are not represented.
- Cli.RunCli: the end of the input ends the loop. In the source, `input()` would raise `EOFError` out of `main` at that point.
- Command.Lower: lower-cases only `A` to `Z`. This is exact for what it decides, whether the stripped line equals `quit` or `reset` (proved as `Command.QuitInAnyCase` and `Command.ResetInAnyCase`). No other character lower-cases to a single letter of those words, but `Lower` is not Python's `lower()` on other text.
- The FastAPI and Streamlit front ends (`api.py`, `streamlit.py`) and the stateless first version of the agent under `blogs/blog-01-from-llms-to-agents` are not part of this model.
