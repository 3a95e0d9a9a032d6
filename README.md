# Jaadu voice assistant: a Dafny model of its command loop

Jaadu is a desktop voice assistant written in Python. It listens for a spoken command,
lower-cases the recognised text, and runs the first matching branch of an
`if`/`elif` chain. The branches play a song on Spotify, skip, go back or pause
playback, report the weather for a city, send an e-mail, tell a joke, read a
Wikipedia summary, tell the time, or say goodbye and stop. Anything else goes to a
generative AI model. The AI model gets the six most recent turns of a conversation
history that the assistant keeps.

This project models that core:

- `text.dfy`, module `TextOps`: the Python `str` operations the handlers use, with
  Python's exact meaning.
  - `in` scans from the left.
  - `strip()` removes Python whitespace at both ends.
  - `replace(p, '')` deletes every occurrence, left to right, and does not rescan.
  - `split(sep)` also splits inside words.
  - `"\n".join` joins with a separator.
  - `lower()` is modelled on ASCII letters only.
- `dispatch.dfy`, module `Dispatch`:
  - the `if`/`elif` chain of `run_jaadu` as the function `Classify`, and the same
    chain as an ordered list of rules with first-match selection;
  - the argument extractors for the song, the city, the e-mail receiver and the
    encyclopedia query;
  - the replies of `control_spotify`.
- `conversation.dfy`, module `Conversation`:
  - the records of `conversation_history`;
  - the six-record window and the prompt built from it;
  - what one reply of the AI endpoint does to the history and to the answer.
- `assistant.dfy`, module `Jaadu`:
  - an `Assistant` class that owns the history field;
  - its methods for `get_ai_response`, for one pass of the loop body, and for the
    loop of `run_jaadu` itself;
  - the loop's specification, `Transcript`, as a function over a generic loop
    driver, with lemmas about how the loop ends and what it does to the history.
- `worked_cases.dfy`, module `WorkedCases`: concrete commands run through the
  dispatcher and the extractors.

The outside world is modelled as parameters:

- Speech recognition is a sequence of utterances. `listen()` returns the next one,
  lower-cased. A failed recognition is the empty string. Once the utterances run out,
  every later `listen()` yields "".
- The AI endpoint is a sequence of replies, taken one per call. A reply is a response
  text (possibly empty) or an exception. A call past the last reply is an exception.
- The encyclopedia is a sequence of call outcomes, taken one per `wikipedia.summary`
  call. Each outcome is a summary or an exception. A call past the last outcome finds
  its summary. The call is outside any `try`, so an exception ends `run_jaadu`: the
  model records it as the effect `LookupError(query)` and stops the loop there.
- Every other handler is recorded as the call it would make, with its arguments: an
  `Effect` such as `PlaySong(song)`, `WeatherReport(city)` or
  `SendEmail(receiver, subject, body)`.

Three behaviours of the code that are easy to misread:

- `get_ai_response` appends the user turn before it calls the model (line 208). So a
  failed or empty reply still leaves the user turn in the history; only the assistant
  turn is skipped.
- `command.replace('play', '')` deletes every occurrence of "play", not only the
  first.
- `split('in')[-1]` takes the text after the last "in", even when that "in" is inside
  a word: "weather in berlin" gives the city "".

## Model

| member | source | states |
|---|---|---|
| Dispatch.ClassifyChat | Jaadu_AI_Model.py:226-278 | A command goes to the AI model exactly when it contains none of the ten keywords play, next, previous, stop, weather, email, joke, wikipedia, time, exit. |
| Dispatch.ClassifyIsFirstMatch | Jaadu_AI_Model.py:226-278 | The chain selects the same handler as first-match selection over the ordered rule list (play; play next song/next; play previous song/previous; stop song/stop; weather; email; joke; wikipedia; time; exit), with the AI model as default. |
| Dispatch.ClassifyPriority | Jaadu_AI_Model.py:226-278 | The command goes to the k-th handler exactly when it matches the k-th test and none of the earlier ones. It goes to the AI model exactly when it matches no test. |
| Dispatch.PlayShadowsControls | Jaadu_AI_Model.py:226-235 | Any command containing "play" goes to the music player, so "play next song" and "play previous song" never reach the skip and back controls. Skip fires exactly for commands with "next" and no "play". Back fires exactly for "previous" with neither "play" nor "next". |
| Dispatch.StopSongRedundant | Jaadu_AI_Model.py:236 | "stop song" in the command or "stop" in the command holds exactly when "stop" is in the command. |
| Dispatch.KeywordPrefixes | Jaadu_AI_Model.py:232-236 | Each two-word alternative implies its shorter keyword: "play next song" and "play previous song" imply "play", and "stop song" implies "stop". |
| Dispatch.EmptyCommandIsChat | Jaadu_AI_Model.py:69-78 | The "" that a failed recognition yields matches no branch and goes to the AI model. |
| Dispatch.SongNameSpec | Jaadu_AI_Model.py:228 | The song is the command with every "play" deleted. The deleted text is 4 characters per occurrence, and the rest is the concatenation of the pieces between occurrences. The song is the rest with only whitespace trimmed on either side. |
| Dispatch.SongNameWithoutPlay | Jaadu_AI_Model.py:228 | For a command without "play", the song is the stripped command. |
| Dispatch.CitySpec | Jaadu_AI_Model.py:240 | The city never contains "in". Without "in" it is the stripped command. Otherwise the command is some text, then "in", then a piece free of "in", and the city is that piece stripped. |
| Dispatch.ReceiverSpec | Jaadu_AI_Model.py:245 | The receiver ends with "@gmail.com". Before it comes the spoken name with every space deleted and every other character kept in order. |
| Dispatch.WikipediaQuerySpec | Jaadu_AI_Model.py:264 | The query is the command with every "wikipedia" deleted (9 characters per occurrence), as the concatenation of the pieces between occurrences, with only whitespace trimmed on either side. |
| Dispatch.ControlReply | Jaadu_AI_Model.py:144-160 | Any action other than "next", "previous" or "stop" gets "Invalid action.". A known action whose playback call raises gets the error message. |
| Dispatch.ControlAction | Jaadu_AI_Model.py:232-237 | The dispatcher passes one of "next", "previous" or "stop". |
| Dispatch.ControlNeverInvalid | Jaadu_AI_Model.py:144-160 | The actions the dispatcher passes never get "Invalid action.". Without a playback error, each gets its own message. |
| Conversation.Window | Jaadu_AI_Model.py:210 | `history[-6:]` is the suffix of the history of length min(6, length). |
| Conversation.PromptIgnoresOlder | Jaadu_AI_Model.py:209-211 | With six or more records after them, older records have no influence on the prompt. |
| Conversation.PromptOfEight | Jaadu_AI_Model.py:209-211 | With eight records, the prompt is the lines of records 2 to 7, in order, joined by newlines. |
| Conversation.PromptEndsWithNewest | Jaadu_AI_Model.py:209-211 | The prompt ends with the `role: content` line of the newest record. |
| Conversation.PromptLines | Jaadu_AI_Model.py:209-211 | When no content holds a newline, splitting the prompt on newlines gives back the window's lines, min(6, length) of them. |
| Conversation.Kept | Jaadu_AI_Model.py:212-213 | An assistant record is kept exactly when the reply is a non-empty text, and it holds that text. |
| Conversation.Answer | Jaadu_AI_Model.py:212-218 | The answer is the response text when non-empty, "I didn't get that, please try again" for an empty text, and "Error processing your request" for an exception. |
| Conversation.ExchangeGrowth | Jaadu_AI_Model.py:208-218 | The history is append-only. The user turn comes first. The history grows by two records exactly when the reply is non-empty text (the second record being the answer), otherwise by one. |
| Jaadu.Assistant.GetAiResponse | Jaadu_AI_Model.py:204-218 | The prompt is built from the old history plus the user turn. The new history is the old history, then the user turn, then the kept reply. The answer is the reply's answer. |
| Jaadu.Assistant.AskModel | Jaadu_AI_Model.py:259-261 | One `get_ai_response` call answered by the next reply of the endpoint. It consumes exactly one reply. |
| Jaadu.Assistant.HandleCommand | Jaadu_AI_Model.py:224-278 | One pass of the loop body gives the effect, position, history, AI call count and encyclopedia call count of the specification step `Step`. |
| Jaadu.Assistant.RunHandler | Jaadu_AI_Model.py:226-278 | Each branch of the chain gives the effect and new state of the specification's handler `Handle`. |
| Jaadu.Assistant.Respond | Jaadu_AI_Model.py:226-273 | The music, playback-control, weather, time and exit branches hear only the command, leave the history and both call counts alone, and give the effect of `Handle`. |
| Jaadu.Assistant.ComposeEmail | Jaadu_AI_Model.py:243-257 | The e-mail branch hears the receiver's name, the subject and the body after the command, in that order, and gives the effect and position of `Handle`. |
| Jaadu.Assistant.LookUp | Jaadu_AI_Model.py:263-265 | The encyclopedia branch makes one call on the extracted query: the summary when the call's outcome is found, the exception otherwise. It hears only the command and gives the effect of `Handle`. |
| Jaadu.Assistant.Run | Jaadu_AI_Model.py:220-278 | The loop's effects, how it ended (exit, an escaping exception, or no more utterances), the number of utterances heard and the final history are those of `Transcript` from empty call counts. |
| Jaadu.Handle | Jaadu_AI_Model.py:226-278 | Every handler hears at least one utterance and at most four. |
| Jaadu.Step | Jaadu_AI_Model.py:224-278 | One pass of the loop body hears between one and four utterances. |
| Jaadu.StepDispatch | Jaadu_AI_Model.py:224-241 | A song, a playback control and a weather report happen exactly when `Classify` selects the music, control and weather branches. |
| Jaadu.StepDispatchRest | Jaadu_AI_Model.py:243-278 | An e-mail, an AI exchange, an encyclopedia call (answered or raising), the time and the farewell happen exactly when `Classify` selects their branches. |
| Jaadu.StepQueries | Jaadu_AI_Model.py:224-278 | Chat sends the command verbatim. Joke sends the fixed joke prompt. Only e-mail listens three more times. |
| Jaadu.StepLookup | Jaadu_AI_Model.py:263-265 | Only the encyclopedia branch calls the encyclopedia, once, on the extracted query. It gives a summary or an exception exactly as that call's outcome says. |
| Jaadu.HandleDispatch | Jaadu_AI_Model.py:226-278 | For each handler, whatever the action: the effect is of that handler's kind, and of no other. |
| Jaadu.HandleQueries | Jaadu_AI_Model.py:226-278 | For each handler, whatever the action: what the AI or the encyclopedia is asked, how many utterances are heard, how many encyclopedia calls are made. |
| Jaadu.StepHistory | Jaadu_AI_Model.py:208-213 | A pass only appends to the history, and only AI passes change it. An AI pass adds the user turn and at most one more record, calls the endpoint once, and builds its prompt from the history up to and including the user turn. |
| Jaadu.HandleHistory | Jaadu_AI_Model.py:259-278 | The same history facts for each handler, whatever the action. |
| Jaadu.StepEnds | Jaadu_AI_Model.py:263-273 | The farewell comes exactly from the exit command. An escaping exception comes exactly from an encyclopedia call whose outcome raises. Either hears only the command. |
| Jaadu.StepReadsBefore | Jaadu_AI_Model.py:224-278 | A pass reads no utterance at or beyond the position it stops at. |
| Jaadu.DriveEnds | Jaadu_AI_Model.py:223-273 | For any loop body whose final effects (farewell, escaping exception) only listen: a final effect can only be the last effect. The loop stopped early exactly when the last effect is final, and its ending is the one that effect gives. It stopped inside the input range, and the returned state is the one whose step gave that effect. |
| Jaadu.DriveAgrees | Jaadu_AI_Model.py:223-273 | Two loop bodies that agree on every step inside the range drive the same run, once the first has stopped early. |
| Jaadu.DriveHistory | Jaadu_AI_Model.py:223-278 | For any loop body that only appends: the history grows at its end by between n and 2n records for n AI calls, and the call count grows by n. |
| Jaadu.TranscriptEnds | Jaadu_AI_Model.py:223-273 | The loop ends in one of three ways. It ends on the exit command, with one farewell as the last effect. Or it ends on an encyclopedia command whose call raises, with that exception as the last effect. In both cases no earlier effect is final. One pass of the loop body from the returned state gives exactly that last effect and the final state. So the returned state is the one that heard the command, and on a crash its encyclopedia call is the run's last one. Otherwise the utterances run out, with no final effect. |
| Jaadu.EndStopsListening | Jaadu_AI_Model.py:263-273 | After an exit or an escaping exception, utterances that come later change nothing about the run. |
| Jaadu.TranscriptHistory | Jaadu_AI_Model.py:204-278 | Over a whole run, the history only grows at its end, one or two records per AI exchange, and the endpoint is called once per exchange. |
| TextOps.ContainsIff | Jaadu_AI_Model.py:226 | Python's `p in s` holds exactly when `p` occurs at some index of `s`. |
| TextOps.ContainsFromIff | Jaadu_AI_Model.py:226 | The index-by-index scan agrees with `in`. |
| TextOps.Strip | Jaadu_AI_Model.py:228 | `strip()` returns a result no longer than its input, with neither end whitespace. |
| TextOps.StripSlice | Jaadu_AI_Model.py:228 | The stripped text is a contiguous slice with only whitespace before and after it. |
| TextOps.StripPadded | Jaadu_AI_Model.py:228 | Stripping whitespace padding around a text that neither starts nor ends with whitespace gives that text. |
| TextOps.StripIdempotent | Jaadu_AI_Model.py:228 | Stripping twice is stripping once. |
| TextOps.Remove | Jaadu_AI_Model.py:228 | `replace(p, '')` never lengthens its input. |
| TextOps.RemoveLength | Jaadu_AI_Model.py:228 | For patterns like "play", the result is shorter by the pattern length times the number of occurrences. |
| TextOps.RemoveAbsent | Jaadu_AI_Model.py:228 | Deleting an absent pattern changes nothing. |
| TextOps.RemoveIsJoinedSplit | Jaadu_AI_Model.py:228 | `s.replace(p, '')` equals `''.join(s.split(p))`. |
| TextOps.RemoveChar | Jaadu_AI_Model.py:245 | Deleting a one-character pattern keeps every other character, in order. |
| TextOps.Split | Jaadu_AI_Model.py:240 | `split` gives at least one piece. The first piece is a prefix of the input. No piece contains the separator. |
| TextOps.JoinSplit | Jaadu_AI_Model.py:240 | Joining the pieces of a split with the separator gives back the input. |
| TextOps.SplitCount | Jaadu_AI_Model.py:240 | For separators like "in", there is one more piece than occurrences. |
| TextOps.SplitJoin | Jaadu_AI_Model.py:209-211 | Splitting a join of separator-free pieces gives back the pieces. |
| TextOps.Lower | Jaadu_AI_Model.py:66 | `lower()` keeps the length and maps each character to its lower case. |
| TextOps.LowerIdempotent | Jaadu_AI_Model.py:66 | Lower-casing twice is lower-casing once. |
| WorkedCases.SongExample | Jaadu_AI_Model.py:228 | "play imagine dragons believer" asks for the song "imagine dragons believer". |
| WorkedCases.ReplaceDoesNotRescan | Jaadu_AI_Model.py:228 | "plplayay" asks for the song "play": the deletion is not repeated on the text it joins up. |
| WorkedCases.TokyoExample | Jaadu_AI_Model.py:240 | "weather in tokyo" asks about "tokyo". |
| WorkedCases.BerlinExample | Jaadu_AI_Model.py:240 | "weather in berlin" asks about "", because the split also cuts at the "in" of "berlin". |
| WorkedCases.ReceiverExample | Jaadu_AI_Model.py:245 | The spoken name "john doe" gives the receiver "johndoe" followed by "@gmail.com". |
| WorkedCases.StopSongExample | Jaadu_AI_Model.py:226-237 | "stop song" reaches the pause control. |
| WorkedCases.PlayNextSongExample | Jaadu_AI_Model.py:226-233 | "play next song" goes to the music player, not to the skip control. |

## Left out

- Speech: the microphone, ambient-noise adjustment, Google recognition and text-to-speech (`talk`). Utterances are a parameter, and nothing spoken back is modelled except the reply texts above.
- Spotify: authentication, `open_spotify`, device lookup, search and playback in `play_song_on_spotify`. The music branch is recorded as `PlaySong(song)` with the extracted name.
- The playback calls of `control_spotify`: they are a parameter, the `fails` flag of `ControlReply`.
- `get_weather`, `send_email` and `get_time` call the network, SMTP or the clock. Their branches are recorded with the arguments they would receive.
- `wikipedia.summary` calls the network. Its branch is recorded with the query it would receive, and whether it raises is a parameter. The kind of exception, and the summary text, are not modelled.
- Loading `config.json`, the API keys, logging, and the debugging prints.
- The greeting at the start of `run_jaadu`, and the spoken prompts of the e-mail branch ("Who should I send it to?" and the like).
- The unused `reminders` list and the `Timer` import.
- The `listening_enabled = False` assignment in the exit branch: it sets a local variable nothing reads.
- Jaadu.Assistant.Run: the real loop never stops when the microphone hears nothing. The model stops once the utterances run out, and `TranscriptEnds` tells that ending apart from an exit and from an escaping exception.
- TextOps.Lower: only ASCII letters are lower-cased. Python's `lower()` also maps non-ASCII letters.
- TextOps.Strip: does not state that a whitespace-only text strips to "". `StripSlice` gives the slice it is taken from.
- The generative model itself: its answers are the reply sequence, one per call.
