# GermanBuddy tutoring turn, modelled in Dafny

GermanBuddy is a German tutor. A learner types a message. The backend (a
LangGraph graph) routes it by keyword to one of four handlers: grammar check,
word definition, pronunciation, or open conversation. The handler appends one
AI reply. A process-wide `UserProgress` counter is updated on every graded
grammar turn, and the conversation handler uses it to choose a difficulty tier.
The React frontend reads stored history lines back into chat entries, appends
the user message and the teacher reply when the learner sends a message, plays
the audio for pronunciation replies, shows truncated previews in the sidebar,
and toggles a dark/light theme.

The model is functional. Progress and the graph state are immutable values
threaded through each turn. The external engines are inputs of type `Env`:
LanguageTool's match list, gTTS and the language model. Each engine either
returns a value or raises (`Outcome`).

| file | module | models |
|---|---|---|
| outcomes.dfy | `Outcomes` | `Option`, and `Outcome` (a value, or an exception that escapes) |
| text.dfy | `Text` | `in` / `includes`, `split(sep)` / `join`, `lower()`, Python's `split()`, JavaScript's `trim()` |
| difficulty.dfy | `Difficulty` | `UserProgress.update` / `get_level` |
| tools.dfy | `Tools` | `check_grammar`, `define_word`, `pronounce_text` |
| agents.dfy | `Agents` | `teacher_agent`, the four handlers, `create_graph`, one chat turn, a session of turns |
| all_in_one.dfy | `AllInOne` | the second copy in Backend/app_all_code_together.py, statement by statement, proved equal to `Agents`/`Tools`/`Difficulty` |
| app.dfy | `App` | history-line parsing, `handleSend`, the audio trigger, `toggleTheme` |
| sidebar.dfy | `Sidebar` | preview lines, empty-history placeholder, theme button label |

The code, and so the model, behaves as follows:
- Handlers catch no exception. An engine failure escapes the turn as `Raised`, and the HTTP layer turns it into an error status. Handlers do not convert it into a reply.
- The router only lower-cases its input. It does not trim.
- The graph has exactly four handler nodes. `language_translator` (Backend/app/agents.py:77-87) is not one of them.
- The conversation reply is the model's answer alone.
- An empty message list is not routed to conversation. `teacher_agent` indexes the last message without a guard, so the model requires a non-empty list. The chat endpoint always supplies one message.

## Model

| member | source | states |
|---|---|---|
| Text.Split | Frontend/src/app.js:36 | `split(": ")` yields at least one piece, and no piece contains the separator |
| Text.JoinSplit | Frontend/src/app.js:36-37 | re-joining the pieces of a split with the same separator restores the text exactly |
| Text.Words | Backend/app/agents.py:54 | every token of Python's `split()` is non-empty and free of `str.isspace` characters, and there is a token iff the text has a non-whitespace character |
| Text.Lower | Backend/app/agents.py:33 | the lower-cased text has the same length, character by character; see Agents.RouteIgnoresCase for what routing relies on |
| Text.LastWord | Backend/app/agents.py:54 | `split()[-1]` is a non-empty whitespace-free token, and it is missing (IndexError) exactly when the text is all whitespace |
| Text.LastWordOf | Backend/app/agents.py:54 | for a non-empty whitespace-free `w` that starts the text or follows a whitespace character, the last token of `prefix + w + trailing whitespace` is `w`; so "vocabulary", "Haus" and "Wort  " each yield themselves |
| Text.WordsOfWord | Backend/app/agents.py:54 | a text that is one non-empty whitespace-free token splits into exactly that token |
| Text.WordsTrailingSpace | Backend/app/agents.py:54 | trailing whitespace adds no token |
| Text.Trim | Frontend/src/app.js:57 | no contract; see Text.TrimEmptyIffBlank |
| Text.TrimEmptyIffBlank | Frontend/src/app.js:57 | `trim()` is empty exactly when every character is JavaScript whitespace |
| Difficulty.Update | Backend/app/agents.py:16-19 | total grows by exactly one; correct grows by one iff the answer was correct; correct <= total is kept |
| Difficulty.GetLevel | Backend/app/agents.py:21-27 | advanced iff 5·correct > 4·total; intermediate iff 2·correct > total but not advanced; beginner otherwise or when total is 0 (strict thresholds 0.8 and 0.5) |
| Difficulty.AccuracyThresholds | Backend/app/agents.py:22-25 | the accuracy exceeds 0.8 iff some question was asked and 5·correct > 4·total, and exceeds 0.5 iff some question was asked and 2·correct > total |
| Difficulty.BoundaryRatios | Backend/app/agents.py:23-27 | exactly 4/5 is intermediate and exactly 1/2 is beginner; 5/6 is advanced, 3/5 intermediate |
| Difficulty.UpdateMonotone | Backend/app/agents.py:16-27 | a correct answer never lowers the tier, a wrong one never raises it |
| Difficulty.UpdateAllCounts | Backend/app/agents.py:12-19 | any sequence of updates adds one question per call and one correct answer per true call, keeping correct <= total |
| Difficulty.FreshStaysValid | Backend/app/agents.py:12-19 | from the fresh tracker (0, 0), correct <= total after any sequence of updates and total equals the number of calls |
| Tools.CheckGrammar | Backend/app/tools.py:10-13 | the report is exactly "No grammar errors found!" iff there is no match; with matches it starts with "Error: " |
| Tools.ReportLines | Backend/app/tools.py:12-13 | when no rule id or message holds a newline, the report splits back into one "Error: id - message" line per match, in match order, with no trailing newline |
| Tools.NoErrorsSignal | Backend/app/agents.py:46-48 | "No grammar errors" occurs in the report iff there was no match or some match's rule id or message itself contains the phrase |
| Tools.SignalWithErrors | Backend/app/agents.py:48 | a single match whose message quotes the phrase makes a report with an error count as correct |
| Tools.DefineWord | Backend/app/tools.py:15-19 | a dictionary word is answered with one of the dictionary's definitions |
| Tools.DefineWordEntries | Backend/app/tools.py:18-19 | "Haus"→"house", "Auto"→"car", "lernen"→"to learn" |
| Tools.DefineWordIsCaseSensitive | Backend/app/tools.py:18-19 | lookup is case-sensitive: "haus" is not a key and gets the miss message quoting "haus" |
| Tools.DefineWordDistinguishesMisses | Backend/app/tools.py:19 | a reply is a definition iff the word is a key; a miss reply is exactly "No definition found for '" + word + "'. Try another word!", so the word can be read back |
| Tools.PronounceText | Backend/app/tools.py:21-27 | whatever the text, the result is "/static/pronunciation.mp3" unless gTTS raised |
| Agents.TeacherAgent | Backend/app/agents.py:32-42 | the message list is untouched and `next` names exactly one of the four handler nodes, the routed one |
| Agents.Route | Backend/app/agents.py:33-41 | no contract; see Agents.RouteIsFirstMatch and Agents.TeacherAgent |
| Agents.RouteIsFirstMatch | Backend/app/agents.py:34-41 | the if/elif chain equals a first-match-wins scan of the ordered table grammar; vocabulary/word; pronounce/pronunciation, with conversation as the default |
| Agents.RouteIgnoresCase | Backend/app/agents.py:33 | routing a lower-cased text gives the same handler as routing the text |
| Agents.ShortTextIsConversation | Backend/app/agents.py:34-41 | any text shorter than every keyword, the empty text included, goes to the conversation handler |
| Agents.FirstMatchWins | Backend/app/agents.py:34-37 | "word grammar" goes to the grammar handler although it holds a vocabulary keyword |
| Agents.GrammarInAnyCase | Backend/app/agents.py:33-35 | "check my grammar please" and "Explain GRAMMAR" go to the grammar handler |
| Agents.GrammarAgent | Backend/app/agents.py:44-50 | raises iff LanguageTool raises; otherwise appends one AI message holding the report, sets END, and calls update once with true iff no match (or a match quoting the phrase) |
| Agents.VocabularyAgent | Backend/app/agents.py:52-58 | raises iff the last message is all whitespace; otherwise appends the definition of its last token as typed, sets END, leaves progress alone |
| Agents.PronunciationAgent | Backend/app/agents.py:60-66 | raises iff gTTS raises; otherwise appends "Pronunciation audio generated: /static/pronunciation.mp3", sets END, leaves progress alone |
| Agents.Prompt | Backend/app/agents.py:71 | no contract; see Agents.PromptInjective and Agents.PromptEndsWithInput |
| Agents.PromptInjective | Backend/app/agents.py:70-71 | different (level, input) pairs give different prompts, so the prompt carries both the tier and the raw input |
| Agents.PromptEndsWithInput | Backend/app/agents.py:71 | the prompt ends with the unmodified input |
| Agents.ConversationAgent | Backend/app/agents.py:68-75 | raises iff the model raises on the prompt built from the tier at call time; otherwise appends the model's answer, sets END, leaves progress alone |
| Agents.GraphShape | Backend/app/agents.py:89-109 | entry is teacher_agent; the conditional edge maps every handler name to the node of the same name and END to END |
| Agents.VocabularyInputHasWord | Backend/app/agents.py:52-54 | a text the router sends to the vocabulary handler always has a last token, so `split()[-1]` cannot raise there |
| Agents.RunGraph | Backend/app/agents.py:89-109 | no contract; see Agents.RunGraphDispatches and Agents.TurnContract |
| Agents.RunGraphDispatches | Backend/app/agents.py:97-108 | a graph run executes exactly the handler the teacher chose, on the teacher's state |
| Agents.TurnContract | Backend/app/agents.py:32-75 | a turn raises iff the chosen handler's engine raises (never for vocabulary); otherwise exactly one AI reply is appended and next is END; only a grammar turn changes progress, by one question; correct <= total is kept |
| Agents.ProcessMessage | Backend/app/routes.py:15 | from the endpoint's one-message state, a completed turn holds the human message followed by exactly one AI message |
| Agents.Session | Backend/app/agents.py:29 | no contract; the one module-level `progress` is threaded through successive requests, each with its own engine answers; see Agents.SessionCounts |
| Agents.SessionCounts | Backend/app/agents.py:16-29 | across any series of requests, each with its own engine answers, the shared tracker counts exactly the grammar-routed messages LanguageTool answered, and correct <= total holds throughout |
| Agents.SessionBound | Backend/app/agents.py:16-29 | a series of requests adds at most one question per request to the shared tracker |
| AllInOne.CheckGrammar | Backend/app_all_code_together.py:74-82 | the monolith's comprehension-and-join report equals the package's `check_grammar` |
| AllInOne.DefineWord | Backend/app_all_code_together.py:84-88 | the monolith's lookup equals the package's `define_word` |
| AllInOne.PronounceText | Backend/app_all_code_together.py:90-96 | the monolith's `pronounce_text` equals the package's |
| AllInOne.Update | Backend/app_all_code_together.py:104-107 | the monolith's `update` equals the package's, so it too increments total always and correct iff correct |
| AllInOne.GetLevel | Backend/app_all_code_together.py:109-115 | the monolith's `get_level` returns the name of the package's tier, with the same strict thresholds |
| AllInOne.TeacherAgent | Backend/app_all_code_together.py:123-133 | the monolith's router equals the package's first-match-wins router |
| AllInOne.GrammarAgent | Backend/app_all_code_together.py:135-141 | the monolith's grammar handler equals the package's |
| AllInOne.VocabularyAgent | Backend/app_all_code_together.py:143-149 | the monolith's vocabulary handler equals the package's, the last-token lookup included |
| AllInOne.PronunciationAgent | Backend/app_all_code_together.py:151-157 | the monolith's pronunciation handler equals the package's |
| AllInOne.ConversationAgent | Backend/app_all_code_together.py:159-166 | the monolith's conversation handler, with its level-aware prompt, equals the package's |
| AllInOne.RunGraph | Backend/app_all_code_together.py:168-189 | the monolith's module-level graph runs the same turn as the package's `create_graph` |
| App.ParseEntry | Frontend/src/app.js:36-37 | no contract; see App.ParseEntryWithoutSeparator, App.ParseEntryWithSeparator and App.ParseStoredLine |
| App.ParseEntryWithoutSeparator | Frontend/src/app.js:36-37 | a line without ": " is all role and has empty content |
| App.ParseEntryWithSeparator | Frontend/src/app.js:36-37 | for a line holding ": ", the role has no ": " and role + ": " + content gives back the whole line |
| App.ParseStoredLine | Frontend/src/app.js:36-37 | a line role + ": " + content with no ": " in the role parses to exactly that role and content, later ": " kept in the content |
| App.StoredPrefixesRoundTrip | Backend/app/routes.py:13-26 | the backend's "You: " + message and "Teacher: " + reply lines parse back to ("You", message) and ("Teacher", reply) |
| App.HandleSend | Frontend/src/app.js:56-82 | no contract; see App.SendEffect |
| App.SendBlank | Frontend/src/app.js:57 | a message whose `trim()` is empty leaves the list unchanged |
| App.SendAppends | Frontend/src/app.js:56-82 | any other message appends the user entry, then the Teacher entry with the reply or the error text, and nothing else |
| App.SendEffect | Frontend/src/app.js:56-82 | a blank message leaves the list unchanged; otherwise exactly two entries are appended: the message as typed, then one Teacher entry with the reply or "Error processing your request." |
| App.PlaysAudio | Frontend/src/app.js:69 | no contract; see App.PronunciationPlaysAudio |
| App.ChatAnswer | Backend/app/routes.py:15-27 | no contract; see App.PronunciationPlaysAudio |
| App.PronunciationPlaysAudio | Frontend/src/app.js:69-71 | a completed pronunciation turn always yields a reply that makes the page play the audio |
| App.ReloadMatchesSend | Frontend/src/app.js:35-66 | after a successful send, the entries parsed from the lines the backend stored equal the two entries the page appended |
| App.ToggleTheme | Frontend/src/app.js:93-94 | the result is always "dark" or "light", and differs from a dark or light input |
| App.ToggleTwice | Frontend/src/app.js:94 | toggling twice restores the theme |
| App.TogglesStayInStep | Frontend/src/app.js:93-96 | from the dark start, the body's light-theme class is present iff the theme is light, and the theme is dark iff an even number of toggles happened |
| Sidebar.Render | Frontend/src/components/Sidebar.js:10-17 | the placeholder "No history yet." shows iff the history is empty; otherwise one preview per entry, in order |
| Sidebar.Preview | Frontend/src/components/Sidebar.js:15 | no contract; see Sidebar.PreviewShape |
| Sidebar.PreviewShape | Frontend/src/components/Sidebar.js:15 | label "You: " iff the role is "You"; content of at most 30 characters is shown whole without "..."; longer content shows its first 30 characters then "..." |
| Sidebar.PreviewOfStoredLine | Frontend/src/components/Sidebar.js:15 | a reloaded entry previews as its stored line when the text fits, else as the line's first characters plus "..." |
| Sidebar.SendAddsTwoPreviews | Frontend/src/components/Sidebar.js:13-15 | a non-blank send adds exactly two previews, the user message's first |
| Sidebar.ThemeButton | Frontend/src/components/Sidebar.js:23 | no contract; see Sidebar.ThemeButtonOffersToggle |
| Sidebar.ThemeButtonOffersToggle | Frontend/src/components/Sidebar.js:23 | the button reads "Switch to Light Mode" iff the theme is dark (the theme the toggle leads to), "Switch to Dark Mode" otherwise |

## Left out

- SQLite persistence (Backend/app/database.py, Backend/app_all_code_together.py:49-71, 219-241): I/O. Only the stored line prefixes are used.
- HTTP endpoints and streaming (Backend/app/routes.py, Backend/app_all_code_together.py:192-252): transport. Only the initial state and the line prefixes are modelled, and an escaping exception is an error status.
- Configuration, startup and model construction (Backend/app/config.py, Backend/app/main.py): environment setup. A failing model construction shows up as the model raising.
- LanguageTool, gTTS and the language model are external. They are the functions of `Env`, fixed for the length of one request; a session gives every request its own `Env`. The audio file gTTS writes is not modelled.
- LangChain's `@tool` wrapper is not modelled. A tool call is treated as a direct call of the decorated function.
- `language_translator` (Backend/app/agents.py:77-87) only prints translations and is not a graph node.
- Difficulty.GetLevel: exact rationals stand for Python's float division. This agrees at the boundary ratios 4/5 and 1/2, but rounding for very large counts is not modelled.
- Text.Words: only the last token is characterised (Text.LastWordOf, Text.WordsOfWord, Text.WordsTrailingSpace), which is all Backend/app/agents.py:54 uses. That the tokens are exactly the maximal runs of non-whitespace, in order, is not proved.
- Text.Lower: only ASCII letters are lower-cased. Python's full Unicode `lower()` is not modelled.
- Sidebar.Preview, Sidebar.PreviewShape: lengths and `slice(0, 30)` count Unicode characters. JavaScript counts UTF-16 code units, so the two differ for characters outside the Basic Multilingual Plane.
- Concurrency on the shared `progress` object is not modelled. A session is one sequential series of turns.
- React rendering, hooks, scrolling, `localStorage`/uuid, timestamps, the typing indicator, and actual audio playback are browser effects. Only whether audio is started is modelled.
- `handleClearHistory` (Frontend/src/app.js:84-91) is a network call followed by an empty list. It is not modelled.
- Frontend/src/components/ChatMessage.js formats time by locale and picks CSS classes. It is not part of this model.
- App.TogglesStayInStep assumes the page starts without the `light-theme` class. The page markup is not part of this model.
