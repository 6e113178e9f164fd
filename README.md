# Chat session model of the 하루 chat page

This project models the logic under the Streamlit chat page in `main.py`. The page streams replies from a hosted chat-completion API into a chat log. It keeps named snapshots of conversations and adds a keyword-based follow-up suggestion after every reply. The project has three parts:

- **Recommendation heuristic** (`Recommendation`, using `PyStrings`). It joins the texts of the user messages with single spaces. It counts each of ten fixed keywords with Python's non-overlapping `str.count`. It returns a fixed fallback line when every count is zero. Otherwise it returns a suggestion that names the keyword with the highest count; a tie goes to the keyword that comes first in the list.
- **Stream aggregation** (`Stream`). A `while` loop folds the streamed deltas into the reply text. A missing or empty delta is skipped. After each contributing delta it records the partial text followed by the cursor `▋`, and after the stream ends it records the final text without the cursor.
- **Session state** (`Session.ChatSession`). The class has two fields: `messages`, the live conversation, and `savedChats`, a map from a name to a snapshot. There is one method per user action: first load, save, new chat, load, and one chat turn. Every method keeps the invariant that each conversation starts with the system prompt.

`Messages` holds the message datatypes (role; content that is plain text or a list of `{type, text}` parts) and the system prompt, copied exactly.

The inference API is a parameter `infer` of `Turn`. It maps the request messages to the finite sequence of streamed chunks. Each chunk's `choices[0].delta.content` is given as an `Option<string>`; a chunk whose `choices` list is empty is not representable (see "## Left out"). Because `Turn` applies `infer` to the history that already holds the new user message, the model shows that the user message is appended before the request is built.

Some behaviour of the code is easy to misread, and the model keeps to what the code does:

- **Blank prompts.** A prompt of only whitespace still starts a turn: the code tests `if prompt:` (main.py:190), so only the empty string is skipped. `Turn` treats every non-empty prompt as a turn.
- **Text of list content.** Only `content[0]["text"]` of list content is scanned (main.py:180), and so `UserText` reads only the first part.
- **Snapshot copies.** Snapshots are shallow `.copy()` calls (main.py:144, 154). No message dict is ever changed in place, so storing `seq` values is exact.
- **Request contents.** The request the code sends is `[system] + messages`. `messages` already starts with the system message, so the system prompt is sent twice. `Session.Request` models exactly that.

## Model

| member | source | states |
|---|---|---|
| `PyStrings.Strip` | main.py:143-144 | `name.strip()`: the result is empty exactly when every character is whitespace. Otherwise it starts and ends with a non-whitespace character. It is the part of the input left after removing a whitespace prefix and a whitespace suffix. |
| `PyStrings.IsSpace` | main.py:143 | The characters Python's `str.isspace` accepts, which are the ones `strip()` removes: tab through carriage return, the separators 0x1C-0x1F, space, 0x85, no-break space, the ogham space, 0x2000-0x200A, line and paragraph separators, 0x202F, 0x205F and the ideographic space. |
| `PyStrings.StripIdempotent` | main.py:143-145 | Stripping a stripped name changes nothing, so the stored key is already stripped. |
| `PyStrings.StripUnpadded` | main.py:143-144 | A name with no whitespace at either end is stored under itself. |
| `PyStrings.Count` | main.py:182 | `text.count(k)`: the number of matches found by scanning from the left, which restarts just after each match, so matches never overlap. |
| `PyStrings.Join` | main.py:180 | `" ".join(xs)`: the parts in order with one space between neighbours, and the empty string for no parts. |
| `PyStrings.CountZeroIff` | main.py:182-183 | A keyword's `str.count` is zero if and only if the keyword does not occur anywhere in the text. |
| `PyStrings.CountAbsentHead` | main.py:182 | A keyword whose first character is absent from the text has count zero. |
| `PyStrings.CountAppend` | main.py:180-182 | Counting splits at a boundary that no match can straddle: the count in `a + t` is the count in `a` plus the count in `t` when `t[0]` is not in the keyword. |
| `PyStrings.CountJoin` | main.py:180-182 | For a keyword without spaces, the count in the space-joined text is the sum of its counts in the joined parts. |
| `Recommendation.KeywordsShape` | main.py:179 | Every keyword is non-empty and contains no space. |
| `Recommendation.Keywords` | main.py:179 | The ten keywords in source order, which decides ties: AI, 코딩, 파이썬, 연애, 노래, 운동, 일정, 계획, 공부, 디자인. |
| `Recommendation.Fallback` | main.py:184 | The fixed reply when no keyword occurs. |
| `Recommendation.Suggestion` | main.py:186 | The suggestion template with the topic inserted between quotes. |
| `Recommendation.UserText` | main.py:180 | The text scanned for one message: the plain content, or the `text` of the first part of list content. |
| `Recommendation.UserTexts` | main.py:180-181 | The texts of the user messages of a history, in order. System and assistant messages are skipped. |
| `Recommendation.ScannedText` | main.py:180-181 | Those texts joined with single spaces. |
| `Recommendation.Scores` | main.py:182 | One count per keyword, in keyword order: score `i` is the `str.count` of keyword `i` in the text. |
| `Recommendation.FirstMax` | main.py:185 | `most_common(1)` on the ten scores returns an index that holds the maximum score, and every earlier index holds a strictly smaller score. |
| `Recommendation.RecommendFor` | main.py:182-186 | The result is the fallback if and only if every keyword count is zero. When keyword `t` is the topic (largest count, earliest on a tie), the result is the suggestion naming `t`. |
| `Recommendation.Recommend` | main.py:178-186 | `generate_recommendation(h)` has the same two properties, stated over the joined user texts of `h`. |
| `Recommendation.TopicExists` | main.py:183-186 | When the result is not the fallback, some keyword is the topic and the result names it. |
| `Recommendation.TopicUnique` | main.py:185 | At most one keyword is the topic, so the choice is deterministic. |
| `Recommendation.TopicIsFirstMax` | main.py:185 | The topic is exactly the index the `most_common(1)` scan picks. |
| `Recommendation.SuggestionInjective` | main.py:186 | Different topics give different suggestion strings. |
| `Recommendation.UserTextsAppend` | main.py:180-181 | The scanned user texts of `a + b` are those of `a` followed by those of `b`. |
| `Recommendation.RecommendIgnoresNonUser` | main.py:180-181 | Inserting a system or assistant message anywhere in a history changes neither the scanned text nor the result. |
| `Recommendation.NoUserFallback` | main.py:180-184 | A history with no user messages gets the fallback. This covers the empty history and the fresh `[system]` conversation. |
| `Recommendation.ScorePerMessage` | main.py:180-182 | A keyword's score is the sum of its counts in the separate user messages, so no keyword straddles two messages. |
| `Recommendation.FirstPromptScanned` | main.py:180-181 | For `[system, user(p)]` the scanned text is exactly `p`. |
| `Recommendation.TieExample` | main.py:179-186 | "공부 AI" mentions 공부 and AI once each. AI wins because it is earlier in the keyword list, even though 공부 comes first in the text. |
| `Recommendation.GreetingExample` | main.py:182-184 | A prompt with no keyword gets the fallback, character for character. |
| `Stream.Aggregate` | main.py:205-220 | The final `ai_text` is the in-order concatenation of the present, non-empty deltas. There is one display per such delta plus one more. Display `i` is the first `i+1` fragments followed by `▋`, so without the cursor it is a prefix of the final text. The last display is the final text without the cursor. |
| `Stream.Contributes` | main.py:206-207 | A chunk adds text exactly when its delta content is present and non-empty. |
| `Stream.Fragments` | main.py:205-208 | The contents of the contributing chunks, in stream order. Each one is non-empty. |
| `Stream.Collected` | main.py:205-208 | The final `ai_text`: those fragments concatenated. |
| `Stream.CollectedAppend` | main.py:205-208 | Consuming a stream in two pieces collects the same text as consuming it at once. |
| `Stream.CollectedSkips` | main.py:206-207 | A chunk with no delta, no content or empty content leaves the text unchanged, wherever it occurs. |
| `Stream.CollectedAdds` | main.py:207-208 | A contributing chunk appends its content verbatim. |
| `Stream.FragmentsPrefix` | main.py:205-208 | The fragments of a prefix of the stream are a prefix of the stream's fragments. |
| `Stream.ConcatPrefix` | main.py:208-211 | The text after any number of fragments is a prefix of the final text. |
| `Stream.ConcatGrows` | main.py:207-211 | Each contributing fragment makes the displayed partial text strictly longer. |
| `Stream.PartialIsPrefix` | main.py:209-213 | A partial display with its cursor removed is a prefix of the final text. |
| `Messages.Visible` | main.py:174-176 | The chat log shows exactly the non-system messages of the conversation, in order, and never more messages than it holds. |
| `Messages.VisibleAppend` | main.py:174-176 | The shown messages of `a + b` are those of `a` followed by those of `b`. |
| `Messages.VisibleSkipsPrompt` | main.py:174-176 | For a conversation that starts with the system prompt, the prompt is never shown. |
| `Messages.ExtendConversation` | main.py:192-225 | Appending a readable message keeps the system prompt first and every user message readable. |
| `Messages.SystemPrompt` | main.py:12-61 | The system prompt text, character for character. |
| `Messages.UserMessage` | main.py:191 | A prompt wrapped as a user message whose content is the single part `{type: "text", text: prompt}`. |
| `Messages.AssistantMessage` | main.py:222-225 | A reply or a suggestion stored as an assistant message with plain content. |
| `Session.Request` | main.py:198-203 | The whole conversation is passed on unchanged after one extra system message. For a conversation, which already starts with the system prompt, the first two messages of the request are both the system prompt, and the request is itself a conversation. The chat log would show the same messages for the request as for the conversation. |
| `Session.SuggestionIgnoresReply` | main.py:222-224 | The suggestion a turn appends equals the recommendation for the history before the reply, so the streamed reply never influences it. |
| `Session.ChatSession.constructor` | main.py:131-134 | First load: `messages == [system]`, `savedChats` is empty, and the invariant holds. |
| `Session.ChatSession.Valid` | main.py:131-154 | The session invariant: the live conversation and every saved snapshot start with the system prompt, and each of their user messages with list content has at least one part. |
| `Session.ChatSession.Save` | main.py:143-144 | When the stripped name is non-empty, the snapshot is stored under that key, replacing any earlier one. All other keys and `messages` stay unchanged. A blank name changes nothing. The invariant is kept. |
| `Session.ChatSession.NewChat` | main.py:147-148 | `messages` becomes exactly `[system]`. `savedChats` is unchanged. |
| `Session.ChatSession.Load` | main.py:152-154 | For an existing name, `messages` becomes that snapshot. `savedChats` is unchanged and the invariant is kept. |
| `Session.ChatSession.Turn` | main.py:190-225 | An empty prompt changes nothing. Any other prompt appends exactly three messages and leaves the earlier ones as they were: the user message with the single part `{type: "text", text: prompt}`; the reply, which is the aggregation of `infer` applied to the request built after the user message was appended; and the recommendation for the history that holds both. `savedChats` is unchanged and the invariant is kept. |
| `Session.SnapshotIsolation` | main.py:143-154 | Save, then a turn, then load: the stored snapshot is still `[system]` after the turn, and loading restores it, while the live conversation has grown to four messages. |

## Left out

- Page rendering is left out because it is UI: the CSS block (main.py:63-106), the HTML of `render_message`, `st.title`, the sidebar widgets and `st.success`. Button presses are the methods of `ChatSession`. Only the filter that chooses which messages are shown is modelled, in `Messages.Visible`.
- The API client is left out. This covers building the OpenAI/Cerebras client, the API key from `st.secrets`, the model name kept in `st.session_state["llm_model"]`, and the temperature 0.6 (a float). The call itself is the parameter `infer`, a total function, so exceptions from the network or the stream are not modelled. The sequence of chunks `infer` returns cannot hold a chunk whose `choices` list is empty, so the `IndexError` that `chunk.choices[0]` raises on such a chunk (main.py:206) is not modelled.
- The `time.sleep(0.03)` pacing is left out because it is timing. The self-launch through `subprocess` at the end of the file is left out because it is process I/O.
- Streamlit re-runs the whole script on every interaction. The session-state guards make the first run initialise state and later runs keep it. The model has no reruns: the constructor is the first run, and each later interaction is one method call.
- `Recommendation.Recommend` requires that every user message with list content has at least one part. The code would raise `IndexError` on an empty list. The session invariant guarantees the requirement for every conversation the page builds.
- The `not score` test is left out because it can never be true: the counter always holds all ten keywords, possibly with zero counts.
- Strings are sequences of Unicode code points, as Python's `str` is, with no normalisation. `IsSpace` is the whitespace set of Python's `str.isspace`.
- The prompt comes from `st.chat_input`, which returns `None` when nothing was submitted. The model uses the empty string for that case.
