# google-tastater responder, modelled in Dafny

This project models the console chatbot in `google-tastater.py` and proves properties of the model. The chatbot is the `GoogleAssistant` class and its `main` loop. Each input line is handled in two stages:

1. `respond` serves reminder requests itself, because they change the assistant's reminder list.
2. Everything else goes to the Gemini chat. When Gemini is not set up, or the call fails, a fixed rule table (`generate_fallback_response`) answers instead.

The model is split into modules:

- `Wrappers` holds `Option`, for Python's `None`-or-value results.
- `Text` holds the Python string operations the responder relies on:
  - `lower`, `strip`, `in`, `replace`, `split` and `"\n".join`, with the leftmost-occurrence scan behind `in`, `replace` and `split`;
  - the `\b(...)\b` regular-expression search;
  - the `(.*)` capture.
- `Clock` holds the two `strftime` formats, `%H:%M` and `%A, %B %d, %Y`.
- `Rules` is the fallback table. It is pure: it maps the normalised input, the reminders, the user name and the turn's environment (clock reading and joke draws) to an `Outcome`. An `Outcome` is the reply (or `None`) plus the task appended, if any.
- `Assistant` holds three things:
  - the Gemini prompt rewrite for "in marathi";
  - `RespondAnswer`, the pure specification of `respond`;
  - the class `GoogleAssistant`. Its methods `GenerateFallbackResponse`, `GenerateResponseWithGemini` and `Respond` update the `reminders` field in place and are proved against those functions.
- `Console` models `main`:
  - the set-up questions;
  - the `while True` loop, run over a finite script of input lines;
  - the exit words and the speech toggle;
  - the error that ends the session when a `None` reply is spoken.
- `Scenarios` works particular inputs through the model.

The model follows the code as written, including these behaviours:

- **Tasks are not trimmed.**
  - The stored task is the rest of the line after the first "remind me to ", taken from the whole lower-cased, stripped input.
  - The task itself is not trimmed.
  - `(.*)` stops at the first newline.
- **"list reminders" is not a reminder request.** "reminders" holds "remind" and "reminder" only inside a word, so `\b(remind|reminder)\b` does not match. The input goes on to Gemini or to the fallback, and the fallback gives its default reply.
- **"नमस्ते" on its own does not match the greeting rule.** Its last character is a vowel sign, which Python's `\w` does not count as a word character. At the end of the input, or before a space or punctuation, no `\b` follows it. Only when a word character comes next, as in "नमस्तेजी", is there a `\b` and a match. "नमस्कार" does match.
- **Gemini gets the raw input.** It is sent the input as typed, not its normalised form.
  - When the lower-cased input contains "in marathi", the message is a Marathi preamble plus the input with every lower-case "in marathi" removed. "In Marathi" is not removed.
  - If sending fails, the fallback answers that rewritten message. So the fallback's own add branch can be reached that way.
- **A failed chat start still counts as Gemini being on.** If `start_chat` raises after `gemini_initialized` is set, `respond` still takes the Gemini path. `self.chat` is missing, so every send raises and the fallback answers.
- **Speaking `None` ends the session.** When speech is on and the reply is `None`, `speak` concatenates `None` to a string outside its `try`. The `TypeError` reaches `main`'s `except Exception`, which ends the session.
- **The exit and toggle tests lower-case the line but do not strip it.**

## Model

| member | source | states |
|---|---|---|
| Text.Lower | google-tastater.py:79 | lower-casing keeps the length and leaves no capital letter |
| Text.LowerMovesOnlyCapitals | google-tastater.py:79 | each capital becomes its small letter and every other character stays as it was |
| Text.TrimStartMeaning | google-tastater.py:79 | the text cut from the front is a run of whitespace, and what is left is a suffix that starts with a non-space |
| Text.TrimEndMeaning | google-tastater.py:79 | the text cut from the back is a run of whitespace, and what is left is a prefix that ends with a non-space |
| Text.StripMeaning | google-tastater.py:79 | `strip` removes exactly the whitespace at both ends: the result is a slice of the input with only whitespace around it and none at its own ends |
| Text.BlankStripsToEmpty | google-tastater.py:115-116 | text made only of whitespace strips to the empty string |
| Text.StripKeepsLowered | google-tastater.py:79 | stripping lower-case text leaves it lower-case |
| Text.StripIdempotent | google-tastater.py:79 | stripping twice is stripping once |
| Text.Normalize | google-tastater.py:79 | the normalised input every rule reads has no capital letter |
| Text.NormalizeKeepsNormal | google-tastater.py:79 | lower-case text with no whitespace at its ends is already normal |
| Text.FindFrom | google-tastater.py:82 | a position the scan reports lies inside the text, at or after where the scan began |
| Text.FindFromIsFirst | google-tastater.py:82 | the scan reports an occurrence with none before it, and reports none only when there is none |
| Text.IndexOfIsFirst | google-tastater.py:82 | the scan behind `in`, `replace` and `split` gives the leftmost occurrence, or nothing when the pattern does not occur |
| Text.ContainsMeaning | google-tastater.py:82 | `p in s` holds exactly when `p` occurs at some position of `s` |
| Text.LineEnd | google-tastater.py:128 | the first line ends at the first newline or at the end of the text |
| Text.FirstLine | google-tastater.py:128 | the `(.*)` capture has no newline, is a prefix of the text, and stops just before a newline when it stops early |
| Text.FirstLineOfLine | google-tastater.py:128 | on text without a newline, `(.*)` captures everything |
| Text.JoinLinesSnoc | google-tastater.py:137 | joining one more line appends a newline and that line |
| Text.SplitJoin | google-tastater.py:137-138 | splitting a join of newline-free lines at newlines gives the lines back |
| Text.JoinSplit | google-tastater.py:137-138 | joining the lines of a split gives the text back |
| Text.WordsAtMeaning | google-tastater.py:96 | the alternation matches at a position exactly when one of its words matches there between word boundaries |
| Text.ScanWordsMeaning | google-tastater.py:96 | the search from a position succeeds exactly when some word matches, between boundaries, at or after that position |
| Text.SearchWordsMeaning | google-tastater.py:96 | `re.search(r'\b(w1|...)\b', s)` succeeds exactly when some word occurs in `s` with a word boundary on each side |
| Clock.TwoDigits | google-tastater.py:105 | `%H`, `%M` and `%d` print two digits that read back as the number |
| Clock.FourDigits | google-tastater.py:110 | `%Y` prints four digits that read back as the year |
| Clock.TimeTextReadsBack | google-tastater.py:105 | the time text is `HH:MM`: two digits, a colon and two digits, which read back as the hour and minute |
| Clock.DateTextReadsBack | google-tastater.py:110 | the date text is the weekday name, ", ", the month name, a space, the zero-padded day, ", " and the four-digit year; the day and year are digits that read back as the clock's |
| Rules.Appended | google-tastater.py:131 | after an answer, the old reminders are a prefix of the new ones, at most one task is added, and it goes at the end |
| Rules.FirstMatchIsEarliest | google-tastater.py:82-159 | the chain gives the default reply exactly when no rule matches; otherwise it gives a rule that matches, with no earlier rule matching |
| Rules.ClassifiedMatches | google-tastater.py:82-159 | the rule the fallback picks always matches the input |
| Rules.FirstMatchShadows | google-tastater.py:82-159 | in a chain of distinct rules, a rule that matches shadows every later rule |
| Rules.EarlierRuleWins | google-tastater.py:82-159 | in the fallback's order (Python question, Marathi joke, greeting, name, time, date, search, weather, reminder, joke, exit), a rule that matches means no later rule is chosen |
| Rules.QueryWithoutSearch | google-tastater.py:115 | without "search", the query of stripped text is the whole text |
| Rules.QueryAfterSearch | google-tastater.py:115 | with "search", the query is the stripped text after its first occurrence |
| Rules.NothingAfterSearchAsks | google-tastater.py:115-119 | when only whitespace follows the first "search", the reply is "What would you like me to search for?" |
| Rules.SearchRequestIsNotEmpty | google-tastater.py:114 | an input the search rule matches is never empty |
| Rules.QueryIsWholeText | google-tastater.py:115-117 | non-empty stripped text without "search" is echoed whole as the query |
| Rules.FindEchoesInput | google-tastater.py:114-117 | when the search rule fires on "find" or "look up" without "search", the reply echoes the whole normalised input |
| Rules.ReminderTask | google-tastater.py:128-130 | there is a capture exactly when "remind me to " occurs; the capture is the text after its first occurrence up to the first newline or the end, and is lower-case when the input is |
| Rules.TaskIsRestOfLine | google-tastater.py:128-130 | on a one-line input, the capture is everything after the first "remind me to " |
| Rules.CueAtStart | google-tastater.py:126-130 | a one-line input that opens with "remind me to " names a reminder as a word, and its task is the rest of the line |
| Rules.Bullets | google-tastater.py:137 | the listing has one bullet line per reminder |
| Rules.ListingLines | google-tastater.py:136-138 | split at newlines, a non-empty listing is the header followed by "- r" for each reminder, in insertion order |
| Rules.ListingGrows | google-tastater.py:137-138 | a reminder added later is listed last, after everything listed before it |
| Rules.FallbackAddsOnlyOnRequest | google-tastater.py:126-134 | the fallback appends exactly when the reminder rule is chosen and the input has "set" or "add" and "remind me to "; the appended task is the capture, and the reply confirms it |
| Rules.FallbackSilentCases | google-tastater.py:126-141 | the fallback returns `None` exactly when the reminder rule is chosen and none of "set", "add", "list", "show" occurs |
| Rules.JokesComeFromPools | google-tastater.py:86-151 | a joke reply is the entry of its pool that `random.choice` drew (Marathi pool of 4, English pool of 5), whatever else the input says, and appends nothing |
| Assistant.CapitalisedRequestIsKept | google-tastater.py:64-68 | "In Marathi" triggers the rewrite but is not removed: the message is the preamble and the stripped input |
| Assistant.LowerCaseRequestIsRemoved | google-tastater.py:64-68 | with a lower-case "in marathi", the message is the preamble and the stripped input with its first "in marathi" cut out, and later ones replaced the same way |
| Assistant.ReminderBlockCases | google-tastater.py:197-210 | the reminder block of `respond` returns exactly in the add branch with a task and in the list branch, and only the add branch appends |
| Assistant.RespondAddsTask | google-tastater.py:197-204 | a reminder request with "set" or "add" and "remind me to " appends exactly one task: the lower-case rest of the line after the first "remind me to ". On a one-line input the task is everything after that first cue, wherever the cue stands. The reply is "I'll remind you to {task}.", with Gemini on or off |
| Assistant.RespondLists | google-tastater.py:205-210 | a list request answers "You don't have any reminders set." or the header and one "- r" line per reminder in insertion order, and leaves the reminders unchanged |
| Assistant.AddWithoutCueFallsThrough | google-tastater.py:199-216 | with "set" or "add" but no "remind me to ", `respond` goes on to Gemini or the fallback, even when "list" is also present |
| Assistant.WorkingChatAlwaysAnswers | google-tastater.py:194-216 | with Gemini set up and a chat that answers the message, `respond` always has a reply, appends exactly in its add branch, and outside the reminder block returns Gemini's text unchanged |
| Assistant.GeminiAddsOnlyThroughFallback | google-tastater.py:60-75 | the Gemini path appends only through the fallback it falls back on |
| Assistant.OnlyAddBranchesAppend | google-tastater.py:194-216 | a task is appended only by the add branch of `respond`, or by the fallback's add branch reached when Gemini is on but the chat was not started or the send failed; the task is the capture of that branch's input |
| Assistant.RespondKeepsTasksStored | google-tastater.py:197-204 | every task `respond` appends is lower-case and on one line |
| Assistant.WithoutGeminiOnlyRespondAdds | google-tastater.py:197-216 | without Gemini, a task is appended exactly when the add branch of `respond` fires |
| Assistant.WithoutGeminiSilentCases | google-tastater.py:194-216 | without Gemini, `respond` returns `None` exactly when the reminder rule is chosen and none of "set", "add", "list", "show" occurs |
| Assistant.GoogleAssistant.constructor | google-tastater.py:13-19 | a new assistant is named "Google Assistant", greets "User", has no reminders, and has Gemini off |
| Assistant.GoogleAssistant.InitializeGemini | google-tastater.py:21-58 | an empty key changes nothing. Otherwise the model and the flag are set once the SDK has configured and built the model. The chat exists, and the result is true, only when `start_chat` also succeeds |
| Assistant.GoogleAssistant.GenerateFallbackResponse | google-tastater.py:77-159 | the reply is the fallback table's answer, the task it appends (if any) is appended in place, and every stored task stays lower-case and on one line |
| Assistant.GoogleAssistant.GenerateResponseWithGemini | google-tastater.py:60-75 | the reply and the new reminders are those of the Gemini path: Gemini's text, or the fallback on the rewritten message |
| Assistant.GoogleAssistant.Respond | google-tastater.py:194-216 | the reply and the new reminders are those `RespondAnswer` gives for the old reminders |
| Console.StartSession | google-tastater.py:219-236 | a fresh assistant named "Google Assistant" that greets "User", with no reminders; Gemini is set up with the stripped key only when one was typed; speech is on only for the answer "y" |
| Console.TakeTurn | google-tastater.py:242-258 | one pass of the loop body leaves speech, the shown events, the running flag and the reminders exactly as the step function `Step` says: goodbye on an exit word, a flipped setting on a toggle, and otherwise the printed reply, spoken only when speech is on, with the error when `None` is spoken |
| Console.RunSession | google-tastater.py:240-258 | the loop's events, speech flag and reminders are those of the session function `Run` over the script of lines |
| Console.StoppedSessionStays | google-tastater.py:243-245 | once the session has ended, later lines change nothing |
| Console.RemindersOnlyGrow | google-tastater.py:241-258 | over a whole session the reminders only grow: the reminders at the start are a prefix of those at the end, and every task is lower-case and on one line |
| Console.EventsOnlyGrow | google-tastater.py:241-258 | what was shown stays shown, and every line read shows something |
| Console.ExitEndsSession | google-tastater.py:243-245 | an exit word shows the goodbye and ends the session, with the reminders unchanged |
| Console.ExitIsExact | google-tastater.py:243 | "Exit" and "GOODBYE" end the session; "exit " and " bye" do not |
| Console.ToggleFlipsSpeech | google-tastater.py:248-251 | a toggle flips speech, shows the new setting and skips `respond`; two toggles put speech back |
| Console.SilentSessionNeverCrashes | google-tastater.py:253-258 | with speech off and never toggled, no session ends in the error |
| Console.RunSilentStep | google-tastater.py:253-258 | one line with speech off keeps speech off and shows no error |
| Console.SpokenSilenceEndsSession | google-tastater.py:253-263 | with speech on, a `None` reply is printed and then ends the session with the error |
| Scenarios.HiIsAGreeting | google-tastater.py:96 | "hi" matches the greeting rule |
| Scenarios.HiInsideAWordIsNot | google-tastater.py:96 | "chirp" and "this" do not match the greeting rule |
| Scenarios.NamaskarIsAGreeting | google-tastater.py:96 | "नमस्कार" matches the greeting rule |
| Scenarios.NamasteIsNotAGreeting | google-tastater.py:96 | "नमस्ते" typed on its own does not match the greeting rule |
| Scenarios.NamasteBeforeALetterIs | google-tastater.py:96 | "नमस्तेजी" matches the greeting rule, because a letter after the vowel sign makes a `\b` |
| Scenarios.ListRemindersIsNotAReminderRequest | google-tastater.py:197 | "list reminders" is not a reminder request, so `respond` hands it to Gemini or the fallback |
| Scenarios.NoReminderWordInList | google-tastater.py:197 | "list reminders" has no "remind" or "reminder" between word boundaries |
| Scenarios.CueFollowedBy | google-tastater.py:199-203 | a one-line input opening with "remind me to set" or "remind me to add" takes the add branch and stores the rest of itself |
| Scenarios.AddressPassesTheAddTest | google-tastater.py:199-203 | "remind me to address the letter" passes the plain-substring add test and stores "address the letter" |

## Left out

- `speak`, lines 161-192, is not modelled: it is gTTS synthesis, temporary files and pygame playback. Only its crash on a `None` reply is kept, as the `Crashed` event.
- The Gemini SDK is reduced to parameters:
  - `configure`, `GenerativeModel` and `start_chat` become `SdkResult`, which says how far set-up got;
  - `send_message(...).text` becomes a function `send` that gives the reply text, or `None` when the call raises. Each console turn carries its own `send`, so a message can be answered on one turn and fail on a later one.
  
  The chat history and the system prompt given at start-up are not modelled.
- The `os.getenv("")` lookup on line 26 is not modelled: an environment variable with an empty name is taken to be unset, so an empty key means no Gemini.
- The clock and `random.choice` are parameters of each turn (`Env`). A turn carries a reading of the clock and the index each joke pool would be drawn at.
- `Clock.Now`: the model covers years 1000 to 9999 only, because `%Y` then prints exactly four digits. A reading is not checked against the calendar: the weekday is not tied to the date, and the day is not tied to the length of the month, so a reading such as 31 February is allowed. Every clock lemma holds for all readings, so it holds for the real dates as well.
- Printing is not modelled, except as `Console` events. This leaves out the banner lines, the set-up messages and the closing "Thank you" line.
- `KeyboardInterrupt` is not modelled, because it comes from outside the program.
- `chat_history` is not modelled: the code never reads it.
- `Text.Lower`: only ASCII capitals are lowered, and the length is kept. Python's `str.lower` also lowers capitals of other scripts, and the model loses what follows. U+212A KELVIN SIGN lowers to ASCII "k", so an input spelling "joke", "look up", "make me laugh" or "tu mala joke sang" with it matches in Python but not in the model. U+0130 lowers to two code points, so Python's result can be longer than its input. Most visibly, any other non-ASCII capital stays a capital: "remind me to set call ÉLODIE" stores "set call Élodie" in the model but "set call élodie" in Python, and the same holds for the confirmation reply and the echoed search query.
- `Text.IsWordChar`: `\w` covers ASCII letters, digits and `_`, plus Devanagari letters and digits. Word characters of other scripts are not recognised.
- `Rules.Reply`: the long fixed replies are kept by name (`Fixed`) and spelled out by `Printed`, not carried as strings. These are the Python answer, the weather answer, the default answer and the jokes.
- `Rules.Bullets`: its contract gives only the line count. The lines themselves are stated by `Rules.ListingLines`.
- `Text.Replace`: only non-empty patterns are modelled. The code only ever replaces "in marathi".
- `Console.RunSession`: the script of lines is finite, and the loop also stops at its end.
