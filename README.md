# WOW word game with a social robot — a Dafny model of its dialogue logic

In soc_rob, a person and a social robot play WOW, a word-guessing game. In a
*director* round the person describes a typed-in word and the robot guesses
it, with a language model ranking its guess. In a *matcher* round the robot
describes a word drawn from a fixed list, with gestures mixed into the speech,
and the person guesses. After each round the person may play again in either
role or stop.

This project models the game's turn-taking logic and proves properties of it:

- `text.dfy` (module `Text`): the Python string operations the program relies
  on, restricted to ASCII. These are `str()`, `lower()`, `strip()`,
  `split()`/`" ".join`, `in` on strings, and character deletion.
- `intent.dfy` (module `Intent`): `normalize_text`, the keyword tests
  `wants_more_hint`/`wants_no_hint`, and the role and replay parsers of
  main.py.
- `game.dfy` (module `Game`): the body of `main`.
  - Each loop (role choice, director round, extra hints, guesses, replay) is a
    method with a `while` loop.
  - Each loop method is proved equal to a recursive function over the replies.
    That function states the loop's counters, the position of the next unread
    reply and the events it makes the robot perform.
  - Lemmas about those functions state the caps, the winning conditions and
    the order of the tests.
  - The global `LAST_WORD` is the field of a `Controller` class.
- `hearing.dfy` (module `Hearing`): the self-echo filter
  `_is_robot_self_heard`, and the poll loop of `listen_from_robot`. The loop
  runs over a `SpeechBuffer` class that stands for the recognizer's word
  buffer.
- `gestures.dfy` (module `Gestures`): the behaviour set built by `init_gestures`, held by a
  `Registry` class, and the keyword-based resolution of behaviour names.
- `speech.dfy` (module `Speech`): the cleaning in `say_text`, and
  `speak_with_gestures`. A hand-written tokenizer replaces `re.split` on
  `[A-Z_]+` tags. A script becomes an ordered trace of say, gesture, idle and
  pause actions.
- `scenarios.dfy` (module `Scenarios`): concrete utterances and how the
  classifiers read them.

Inputs that come from outside the program are parameters:

- What the person says is a finite script of replies. Each `listen_text` call
  reads the next reply.
- A `World` value supplies the rest:
  - the word typed at the terminal;
  - the language model's guess and confidence for a description;
  - the descriptions the model writes.
- The recognizer's poll results are a function from the poll number to the
  words appended.
- Random choices are either nondeterministic choice (`:|`) or a parameter.

How the program reads replies and builds its prompts, as the model follows
it:

- The keyword tests (main.py:70-83) and the role cues (main.py:96-104) match
  raw substrings, not whole words. So "know", "piano" and "another" all hold
  "no".
- The "yes" words are exactly yes, yeah, yep, sure, ok, okay, more and hint
  (main.py:74). "another" is not one of them.
- "stop" has no test of its own. The role loop leaves on `wants_no_hint`
  (main.py:173). The replay loop takes "stop" from `parse_replay_choice`,
  which returns it whenever `wants_no_hint` holds (main.py:107-116).
- `normalize_text` takes the last element of a list or tuple (main.py:86-93).
- In a director round each guess is asked from the latest description alone
  (main.py:212).
- Extra descriptions are asked from the target word alone (main.py:278).

## Model

| member | source | states |
|---|---|---|
| Text.Lower | main.py:71 | lower-casing keeps the length and maps every character by its ASCII lower-case form |
| Text.Strip | main.py:71 | the result has no leading or trailing whitespace and is a contiguous slice of the input |
| Text.StripEmptyIff | main.py:71-73 | stripping gives "" exactly when the text is all whitespace |
| Text.StripIdempotent | main.py:97 | stripping twice is stripping once |
| Text.OccursInStrip | main.py:82-83 | a piece that begins and ends with non-space characters and occurs in the text still occurs, at the matching place, in the stripped text |
| Text.ContainsIff | main.py:75 | `sub in s` holds exactly when `sub` occurs at some index of `s` |
| Text.Words | tts.py:17 | `split()` gives non-empty pieces that hold no whitespace |
| Text.WordsOfJoin | tts.py:17 | splitting the space-joined words gives the words back |
| Text.CollapseSingleSpaced | tts.py:17 | `" ".join(s.split())` is trimmed and has only single plain spaces |
| Text.CollapseIdempotent | tts.py:17 | collapsing whitespace twice is collapsing once |
| Text.CollapseKeepsNonSpace | tts.py:17 | collapsing whitespace keeps every non-space character, in order |
| Text.RemoveAll | tts.py:16 | deleting characters leaves none of them, and leaves text without them unchanged; it keeps every other character, in order (it is the filter by "not one of them") |
| Text.KeepOnly | tts.py:55 | filtering keeps exactly the characters that pass the test, and leaves text where all pass unchanged |
| Text.KeepOnlyBoth | tts.py:14-17 | deleting by one test and then by another is deleting by both |
| Intent.NormalizeText | main.py:86-93 | `None` and an empty list give ""; a non-empty list gives its last element; anything else gives `str()` of it |
| Intent.NormalizeString | main.py:86-93 | a string, or a list ending in a string, normalises to that string |
| Intent.KeywordTests | main.py:70-83 | each keyword test holds exactly when one of its keywords is a substring of the lower-cased, stripped text |
| Intent.BlankIsNoIntent | main.py:70-116 | on empty or whitespace-only input neither keyword test holds, and the replay parser gives `None` |
| Intent.CanonIdempotent | main.py:107-113 | normalising the already normalised text again changes nothing, so the tests inside `parse_replay_choice` see the same text |
| Intent.RoleNamedByCues | main.py:96-104 | director exactly when "direct" or "leader" occurs; matcher exactly when neither occurs but "match" or "guess" does; `None` exactly when no cue occurs |
| Intent.RoleChoiceByCues | main.py:96-104 | the same three-way characterisation for `parse_role_choice` of any recognizer result |
| Intent.DirectorWinsTies | main.py:98-99 | input holding "director" yields director, whatever else it holds |
| Intent.NoCueLetters | main.py:96-104 | text without any cue's first letter names no role |
| Intent.ReplayChoiceCases | main.py:107-116 | empty text gives `None`; a "no" word gives stop even beside a role word; otherwise the role parser decides |
| Intent.NoInside | main.py:82-83 | any lower-case text holding "no" anywhere, with or without surrounding whitespace, wants no hint |
| Scenarios.IDontKnowMeansNo | main.py:82-83 | "i don't know" counts as a "no" |
| Scenarios.PianoMeansNo | main.py:82-83 | "piano" counts as a "no" |
| Scenarios.AnotherHintMeansNo | main.py:82-83 | "another hint" counts as a "no" |
| Scenarios.DirectorExample | main.py:98-99 | "i'll be the director" picks director |
| Scenarios.GuesserExample | main.py:102-103 | "i want to be the guesser" picks matcher |
| Scenarios.BananaExample | main.py:96-104 | "banana" names no role |
| Hearing.IsRobotSelfHeard | stt.py:46-47 | an empty heard text, or no phrases, is never echo |
| Hearing.AnyPhraseEchoIff | stt.py:49-62 | the loop over the phrases holds exactly when some phrase matches |
| Hearing.SelfHeardIff | stt.py:44-62 | echo exactly when the heard text is non-empty and some phrase, non-blank after folding, equals it, is contained in it within 20 characters, or contains it within 20 characters while it has at least 12 |
| Hearing.ShortAnswerNeverFragmentEcho | stt.py:58-61 | a heard text shorter than 12 characters after folding, which neither equals nor contains any phrase, is never echo |
| Hearing.ExactPhraseIsEcho | stt.py:53-54 | a heard text equal to a non-blank phrase after folding is echo |
| Hearing.WordText | stt.py:88-91 | the text taken from a buffered entry is stripped |
| Hearing.SpeechBuffer.Clear | stt.py:68-69 | the buffer is emptied and its flag lowered |
| Hearing.SpeechBuffer.Receive | stt.py:78-79 | the recognizer's new words are appended, and the flag is raised exactly when some arrived |
| Hearing.Polls | stt.py:80-84 | the loop polls at least once, exactly as many half seconds as a positive timeout, and once for a timeout below one |
| Hearing.ListenResult | stt.py:76-98 | from any state, the loop returns "" or what the echo filter let through from the newest entry of the buffer it leaves, and the time waited stays within the poll budget |
| Hearing.ListenLeaves | stt.py:76-98 | from a state the loop reaches, an answer before the deadline is the filtered newest entry with the flag still raised, and a timeout returns "" leaving exactly the last poll's words |
| Hearing.Screen | stt.py:88-98 | the filter lets an entry's stripped text through exactly when it is not self-heard |
| Hearing.ScreenerFilters | stt.py:88-98 | the program's filter passes only stripped text that is not self-heard and is the entry's own text |
| Hearing.ListenAnswer | stt.py:65-98 | from a cleared buffer: the text is never self-heard and is stripped, at least one poll and at most the timeout are spent, an answer is the text of the buffer's newest entry with the flag raised, and a timeout leaves the last poll's words |
| Hearing.SilenceTimesOut | stt.py:77-85 | silence until the deadline gives "" after exactly the timeout and leaves the buffer as it was |
| Hearing.EchoThenAnswer | stt.py:92-96 | a rejected echo costs no time: an echo then an answer returns the answer after two polls, with the answer alone in the buffer |
| Hearing.Poll | stt.py:78-85 | one poll appends the recognizer's words, raises the flag exactly when some came, and the loop goes on from there or times out |
| Hearing.Inspect | stt.py:86-98 | echo empties the buffer and the loop goes on; otherwise the answer is returned and the buffer kept |
| Hearing.Await | stt.py:76-98 | the poll loop returns, and leaves in the buffer, exactly what `Listen` describes |
| Hearing.ListenFromRobot | stt.py:65-98 | the text, time waited and buffer left are what `Listen` describes from a cleared buffer; the text is never self-heard and is stripped; it polled between once and the timeout; after an answer the answer is the newest entry's text with the flag raised; after a timeout the buffer holds the last poll's words |
| Gestures.Listed | gestures.py:41 | the "behaviors" entry if truthy, else the "list" entry if truthy, else nothing |
| Gestures.BehaviorNames | gestures.py:37-46 | a failed call gives the empty set; otherwise exactly the string entries of the listed behaviours |
| Gestures.FallbackKeywordsNonEmpty | gestures.py:25-33 | every fallback entry lists at least one keyword and no empty one |
| Gestures.Registry.InitGestures | gestures.py:37-46 | the available set becomes the behaviour names of the call's outcome |
| Gestures.Registry.ResolveByKeywords | gestures.py:49-60 | `None` for a missing or empty set; any result is available; a name holding all keywords wins when one exists; otherwise a name holding some keyword; `None` exactly when no name holds any |
| Gestures.Registry.ResolveBehavior | gestures.py:63-72 | the name itself when nothing is loaded or it is available; the result is the name or an available behaviour; a missing or unknown fallback key keeps the name; a substitute holds all keywords when some name does, and some keyword otherwise |
| Gestures.Registry.PlayBehavior | gestures.py:75-84 | the set is loaded on first use only, and the name played follows resolve_behavior's rules over it: the wanted name when available or when the fallback key is missing or unknown; otherwise a behaviour holding every keyword when one exists, else one holding some keyword, else the wanted name |
| Speech.Utter | tts.py:19-35 | a line under two characters does nothing; otherwise it is said and followed by a 0.3 s pause, with the gesture first exactly when one is given |
| Speech.SayText | tts.py:11-35 | the cleaned `str(text)` is said exactly when it has at least two characters |
| Speech.CleanSayIsClean | tts.py:14-17 | the cleaned line has no quotes or backticks, no leading or trailing whitespace, and single spaces |
| Speech.CleanSayIdempotent | tts.py:14-17 | cleaning a cleaned line changes nothing |
| Speech.CleanSayKeeps | tts.py:14-17 | cleaning keeps every character that is neither whitespace nor a quote, in order, and adds only whitespace |
| Speech.TagLen | tts.py:48 | a match at the head of the text is a whole `[A-Z_]+` tag |
| Speech.TagLenFinds | tts.py:48 | whenever the text starts with a whole tag, the match at its head is that tag |
| Speech.SplitTags | tts.py:48 | the split has an odd number of pieces, text and tags alternating |
| Speech.SplitTagsFlatten | tts.py:48 | the pieces joined back together are the script: nothing is lost or reordered |
| Speech.SplitTagsTags | tts.py:48 | every piece at an odd position is a whole tag |
| Speech.SplitTagsText | tts.py:48 | no piece at an even position holds a complete tag |
| Speech.RemoveGroups | tts.py:60 | the substitution only brings in spaces, and text with no `[` is left unchanged |
| Speech.RemoveGroupsKeeps | tts.py:60 | text before the first `[...]` group is kept as it is, the group becomes one space, and the substitution goes on after its `]` |
| Speech.RemoveGroupsNoGroup | tts.py:60 | after the substitution no `[...]` group is left |
| Speech.CleanSegmentProperties | tts.py:60-64 | a cleaned piece is trimmed, holds no group, quote or backtick, and no whitespace but plain spaces |
| Speech.PauseFor | tts.py:78 | the pause is 0.04 s per character, clamped to 0.2–1.2 s |
| Speech.KeyOf | tts.py:54-55 | a gesture key holds only `A-Z` and `_` |
| Speech.KeyOfTag | tts.py:53-55 | the key of a well-formed tag is the name between its brackets |
| Speech.GestureActions | tts.py:56-58 | a key in the map plays exactly the mapped gesture and then pauses 0.5 s; an unknown key does nothing |
| Speech.SpeechActions | tts.py:66-79 | a piece shorter than two characters once cleaned is not spoken; otherwise it is said, the idle gesture follows exactly when the coin says so, and the clamped pause ends it |
| Speech.TagPartActions | tts.py:53-58 | a tag piece plays exactly the mapped gesture of its name, or nothing |
| Speech.PartActionsOk | tts.py:50-79 | a piece plays only gestures from the map and says only cleaned text; a piece that starts with `[` and ends with `]` is never spoken |
| Speech.TraceConcat | tts.py:49-79 | actions follow script order: two runs of pieces give the actions of the first, then those of the second |
| Speech.TraceOk | tts.py:49-79 | a trace is sound when each piece's actions are |
| Speech.SpeakWithGesturesOk | tts.py:45-79 | everything the robot does for a script plays a gesture from the map or says a trimmed, quote-free, group-free segment of at least two characters |
| Game.TargetOf | main.py:196-198 | the target is the stripped typed word, or "football" when that is empty |
| Game.SilentDescription | main.py:204-211 | an empty description changes no counter |
| Game.HeardDescription | main.py:212-232 | an unsure guess with requests left spends one hint request and nothing else; otherwise the round is won exactly when the guess equals the target up to case, and a miss spends exactly one attempt |
| Game.DirectorRunBounded | main.py:199-232 | attempts and hint requests never exceed 3 |
| Game.DirectorWinIsMatch | main.py:212-224 | a won round was won on a heard description whose guess is the target |
| Game.DirectorPass | main.py:203-232 | one pass of the director loop updates the counters and speaks as the step functions say |
| Game.DescribeAndGuess | main.py:199-232 | the director loop yields exactly the director run over the replies |
| Game.PlayDirector | main.py:185-234 | the round uses the typed target, or "football", and yields exactly the director round |
| Game.Without | main.py:238 | the filtered list holds exactly the words other than the last one |
| Game.Choices | main.py:238-240 | the words to draw from are non-empty target words, exclude the last word, and include every other target word |
| Game.Controller.PickTarget | main.py:237-242 | the drawn word is a target word other than the last one, and it is remembered |
| Game.HintAnswerCases | main.py:263-276 | "no" is tested before "yes": a reply holding both declines, and only a heard reply with a "yes" word and no "no" word asks |
| Game.HintPass | main.py:259-278 | one pass of the hints loop updates the counter and speaks as the step functions say |
| Game.HintRunBounded | main.py:256-278 | at most 3 extra hints, one for each reply that asked |
| Game.OfferHints | main.py:256-278 | the hints loop yields exactly the hint run over the replies |
| Game.GuessRunCounts | main.py:286-305 | only heard wrong guesses spend attempts, and at most 3 are spent |
| Game.GuessRunWon | main.py:286-300 | the round is won exactly when the last reply read is heard and holds the target, up to case |
| Game.GuessPass | main.py:289-305 | one pass of the guessing loop updates the counters and speaks as the step functions say |
| Game.TakeGuesses | main.py:286-305 | the guessing loop yields exactly the guess run over the replies |
| Game.Controller.PlayMatcher | main.py:235-311 | the target is a fresh target word and is remembered, and the round yields exactly the matcher round for it |
| Game.RoleReplyCases | main.py:172-177 | a reply with a "no" word leaves even when it names a role; otherwise the parsed role is picked |
| Game.RoleRunEnds | main.py:167-182 | the role loop re-asks, with no bound, on exactly the unclear replies, and ends on the first reply that leaves or picks |
| Game.ChooseRole | main.py:167-182 | the role loop yields exactly the role run over the replies |
| Game.ReplayRunEnds | main.py:313-326 | the replay loop re-asks on exactly the unparsed replies and ends on the first role or "stop" |
| Game.ChooseReplay | main.py:313-326 | the replay loop yields exactly the replay run over the replies |
| Game.Controller.PlayRound | main.py:184-311 | a director round leaves the last word alone and yields exactly the director round; a matcher round draws a fresh target word, remembers it and yields exactly the matcher round for it |
| Game.Controller.Run | main.py:159-332 | the events and the ending are exactly those of the session function for the replies and the words drawn, with one word drawn per matcher round; the session opens with the wave and greeting; leaving ends on goodbye and leave; stopping ends on farewell and leave; no two consecutive matcher rounds share a word; the last word is the last target drawn |
| Game.Controller.Session | main.py:147-332 | the same, with the program's own classifiers |
| Game.Controller.PlayRounds | main.py:166-330 | once a role is chosen, the loop's events and ending are those of the session function for the words drawn, and it never ends at the role question; the targets drawn differ from one matcher round to the next and the last word is the last target |
| Game.Controller.SessionPass | main.py:184-330 | one round and the replay question: running out ends the session there, "stop" ends it with the farewell, and a role leads on to a round in that role |
| Game.Rounds | main.py:184-330 | the rounds read replies forward and stay within the script |
| Game.RoundsChained | main.py:184-326 | each round after the first is in the role the replay reply just before it named, and the rounds come in order |
| Game.RoundsEnding | main.py:313-330 | rounds never end at the role question, and they run out only when every reply was read |
| Game.RoundsStop | main.py:320-332 | the rounds stop only on a replay reply read as "stop", after the last round, ending with the farewell and leave |
| Game.SessionOpens | main.py:159-163 | a session opens with the wave and the greeting |
| Game.SessionLeaves | main.py:167-182 | the session ends at the role question exactly when the role loop ended by leaving, on a leaving reply, with goodbye and leave and no round; running out means every reply was read |
| Game.SessionRoles | main.py:167-326 | the first round is in the role the role reply just before it picked, and each later round in the role the replay reply just before it named |
| Game.SessionStops | main.py:313-332 | the session stops only on a replay reply read as "stop", after the last round, ending with the farewell and leave |
| Game.StopMeansNo | main.py:107-116 | a replay reply reads as "stop" only when it holds a "no" word |
| Game.SessionRunLeaves | main.py:167-182 | the program's session ends at the role question only on a role reply read as leaving, before any round, and runs out only when every reply was read |
| Game.SessionRunStops | main.py:313-329 | the program's session stops only on a replay reply read as "stop" |
| Game.SessionRunRoles | main.py:167-326 | in the program's session the first round is in the role the role reply picked, and each later round in the role the replay reply before it named |
| Game.SessionFacts | main.py:159-332 | the program's session opens with the wave and greeting, ends on goodbye and leave after leaving and on farewell and leave after stopping |
| Game.AskerHears | main.py:313-326 | what the replay question settles on is what the parser reads in the last reply it took |
| Game.RoleRunAnswers | main.py:167-182 | what the role question settles on is what the classifier reads in the last reply it took, and leaving ends with goodbye |

## Left out

- The network plumbing of the robot session is not modelled: `session.call`, `subscribe`, `leave`, `sleep` and the `Component`. Speech, gestures and leaving are recorded as events and actions.
- The language model calls and their JSON decoding (`get_robot_description`, `get_robot_guess`) are not modelled. A `World` supplies the descriptions and the guess with its confidence.
- `load_api_key` and `configure_genai` are not modelled. The terminal `input()` is `World.typed`.
- `listen_text`'s microphone path (`try_listen_from_mic`, `build_microphone`, `build_recognizer`) is not part of this model. Each `listen_text` result is the next entry of a finite script of replies.
- Game.Controller.Run: the session also ends when the reply script runs out (`OutOfReplies`), where the program would keep listening.
- `play_gesture`, imported by tts.py, is not part of this model. The gestures of the speech trace are behaviour names.
- `play_idle`, `play_no_hear`, `play_wrong_guess` and `play_correct_guess` are recorded as events. Their gesture playback is not modelled.
- Game.Controller.Run: the game's events name the lines the robot says. What `say_text` does with those lines is modelled separately by Speech.SayText, not composed into the game trace.
- Randomness: `random.choice` of the target is nondeterministic choice. The idle gesture choice and the idle coin of `speak_with_gestures` are parameters.
- Floating-point timing: the grace sleep and the 0.3 s and 0.5 s pauses are not modelled as time. Poll time counts whole half seconds, and the timeout is a number of half seconds. Pauses in traces are hundredths of a second.
- Strings are ASCII: Python's Unicode `lower()`, `strip()` and `split()` are modelled on ASCII letters and ASCII whitespace.
- Gestures.Registry.ResolveByKeywords: the iteration order of a Python set is not modelled. The result is some name that satisfies the rule, not a particular one.
- The library internals of the speech recognizer (`loop()`, `give_me_words()`, the recognizer configuration) are not modelled. Hearing.ListenFromRobot assumes the buffer is non-empty whenever its flag is raised, so an empty `give_me_words()` result, after which the program would spin, does not arise. It also assumes that `give_me_words()` only reads the buffer and leaves the flag as it was, so after an answer the flag is still raised; the library may clear it.
- Speech.CleanSegmentProperties: states plain spaces, not single spaces. tts.py:61-63 collapses whitespace before deleting quotes, so a piece such as `a " b` is spoken with two adjacent spaces.
- Printing and the exception handlers that only print (a failed `say` call, a failed behaviour play) are not modelled.
- Game.Controller.Run takes the role and replay classifiers as parameters. Game.Controller.Session passes the program's own classifiers.
- Random draws in the session function: the words drawn for the matcher rounds are a parameter of Game.SessionRun, the list `targets` that Game.Controller.Run returns; the function does not choose them.
