// The game controller's dialogue (the body of `main`, main.py:165-332): the
// role-choice loop, the director round (the person describes, the robot
// guesses), the matcher round (the robot describes, the person guesses) and
// the replay loop. Every `listen_text` call takes the next reply of a finite
// script of replies; the terminal input, the language model's answers and its
// descriptions are supplied by a `World`, keyed by the position in the reply
// script at which the program asks for them.

module Game {
  import opened Text
  import opened Intent

  /** `TARGET_WORDS` (main.py:20-26). */
  const TargetWords: seq<string> := ["football", "bicycle", "pizza", "piano", "rainbow"]
  /** The target used when nothing is typed. */
  const DefaultTarget: string := "football"
  /** Below this confidence the robot asks for another hint. */
  const GuessThreshold: real := 0.55
  /** Wrong guesses per round, hint requests per director round, extra hints per matcher round. */
  const MaxAttempts: nat := 3
  const MaxHintRequests: nat := 3
  const MaxHints: nat := 3

  /** The behaviours played by name at the greeting and at the start of a round. */
  const WaveBehavior: string := "BlocklyWaveRightArm"
  const StandBehavior: string := "BlocklyStand"

  /** The lines the robot says, by name; `Spoken` gives each one's text. */
  datatype Line =
    | Greeting
    | AskRole
    | RepeatRole
    | Goodbye
    | DirectorIntro
    | AskTyped
    | AskDescription
    | NotHeardDescription
    | AskHint
    | RobotGotIt
    | TryAgainHint
    | RobotGaveUp
    | MatcherIntro
    | OfferHint
    | AskYesNo
    | AskGuess
    | NotHeardGuess
    | PersonGotIt
    | TryAgain
    | AskReplay
    | RepeatReplay
    | Farewell
    | MyGuessIs(word: string)
    | TheWordWas(target: string)

  function Spoken(l: Line): string
  {
    match l
    case Greeting => "Hi! My name is Alpha. Let's play WOW."
    case AskRole => "Do you want to play as a director or a guesser?"
    case RepeatRole => "Please say director or guesser."
    case Goodbye => "Okay, thanks for playing."
    case DirectorIntro => "Okay, you are the director. I am the matcher."
    case AskTyped => "Type the target word in the terminal."
    case AskDescription => "Please describe the word."
    case NotHeardDescription => "I did not hear you. Please try again."
    case AskHint => "I am not sure. Can you give another hint?"
    case RobotGotIt => "Yes! I guessed it!"
    case TryAgainHint => "I will try again. Give me another hint."
    case RobotGaveUp => "Good game! I will get it next time."
    case MatcherIntro => "Let's play WOW. I will describe a word with other words. Try to guess it."
    case OfferHint => "Do you want another hint?"
    case AskYesNo => "Please say yes or no."
    case AskGuess => "What word am I describing?"
    case NotHeardGuess => "I did not hear you. Please say it again."
    case PersonGotIt => "Correct! Woohoo!"
    case TryAgain => "Nope, try again."
    case AskReplay => "Play again as director, matcher, or stop?"
    case RepeatReplay => "Please say director, matcher, or stop."
    case Farewell => "Thanks for playing!"
    case MyGuessIs(word) => "My guess is " + word + "."
    case TheWordWas(target) => "Good try. The word was " + target + "."
  }

  /** What the controller makes the robot do, in order. */
  datatype Event =
    | Say(line: Line)          // say_text
    | Prompt(line: Line)       // say_text_with_prompt_gesture: an idle gesture, then the line
    | Play(behavior: string)   // a behaviour played by its fixed name
    | NoHear                   // play_no_hear
    | WrongGuess               // play_wrong_guess
    | CorrectGuess             // play_correct_guess
    | Describe(script: string) // speak_with_gestures on a description
    | Leave                    // session.leave

  /** The language model's guess for a description. */
  datatype Guess = Guess(word: string, confidence: real)

  /** Everything besides the spoken replies: the typed target of a director
      round starting at a reply position, the guess for the description read
      at a position, the description opening a matcher round starting at a
      position and the extra description asked for by the reply at a position. */
  datatype World = World(
    typed: nat -> string,
    guessFor: nat -> Guess,
    opening: nat -> string,
    extraHint: nat -> string)

  /** What a loop over the replies ended with: its state, the position of the
      next unread reply and what it made the robot do. */
  datatype RoundEnd<T> = RoundEnd(tally: T, pos: nat, events: seq<Event>)

  function Prepend<T>(said: seq<Event>, r: RoundEnd<T>): RoundEnd<T>
  {
    RoundEnd(r.tally, r.pos, said + r.events)
  }

  lemma PrependNothing<T>(a: seq<Event>, tally: T, pos: nat)
    ensures Prepend(a, RoundEnd(tally, pos, [])) == RoundEnd(tally, pos, a)
  {
    assert a + [] == a;
  }

  lemma PrependTwice<T>(a: seq<Event>, b: seq<Event>, r: RoundEnd<T>)
    ensures Prepend(a, Prepend(b, r)) == Prepend(a + b, r)
  {
    assert a + (b + r.events) == (a + b) + r.events;
  }

  // ---------------------------------------------------------------------
  // Director round (main.py:185-234)

  /** `input().strip()`, with "football" when nothing is typed. */
  function TargetOf(typed: string): (t: string)
    ensures t != []
    ensures Strip(typed) != [] ==> t == Strip(typed)
    ensures Strip(typed) == [] ==> t == DefaultTarget
  {
    var s := Strip(typed);
    if s == [] then DefaultTarget else s
  }

  /** The counters of the director round. */
  datatype DirectorTally = DirectorTally(attempts: nat, hintRequests: nat, guessed: bool)

  predicate DirectorDone(t: DirectorTally)
  {
    t.guessed || t.attempts >= MaxAttempts
  }

  predicate DirectorBounded(t: DirectorTally)
  {
    t.attempts <= MaxAttempts && t.hintRequests <= MaxHintRequests
  }

  /** The robot is unsure and may still ask for a hint. */
  predicate Unsure(t: DirectorTally, g: Guess)
  {
    g.confidence < GuessThreshold && t.hintRequests < MaxHintRequests
  }

  /** `target_word.lower() == guess.lower()`, as a test on guesses. */
  function SameWord(target: string): string -> bool
  {
    (guess: string) => Lower(target) == Lower(guess)
  }

  /** One pass of the director loop on a description and the guess for it. */
  function DirectorStep(t: DirectorTally, same: string -> bool, description: string, g: Guess): DirectorTally
  {
    if description == "" then t
    else if Unsure(t, g) then t.(hintRequests := t.hintRequests + 1)
    else if same(g.word) then t.(guessed := true)
    else t.(attempts := t.attempts + 1)
  }

  /** What that pass makes the robot do. */
  function DirectorSays(t: DirectorTally, same: string -> bool, description: string, g: Guess): seq<Event>
  {
    if description == "" then [Prompt(AskDescription), Prompt(NotHeardDescription), NoHear]
    else if Unsure(t, g) then [Prompt(AskDescription), Prompt(AskHint)]
    else if same(g.word) then [Prompt(AskDescription), Say(MyGuessIs(g.word)), Say(RobotGotIt), CorrectGuess]
    else if t.attempts + 1 < MaxAttempts then
      [Prompt(AskDescription), Say(MyGuessIs(g.word)), WrongGuess, Prompt(TryAgainHint)]
    else [Prompt(AskDescription), Say(MyGuessIs(g.word))]
  }

  /** The director loop from position `pos`, until the round is over or the
      replies run out. */
  function DirectorRun(t: DirectorTally, same: string -> bool, replies: seq<string>, pos: nat, w: World): (r: RoundEnd<DirectorTally>)
    requires pos <= |replies|
    ensures pos <= r.pos <= |replies|
    ensures DirectorDone(r.tally) || r.pos == |replies|
    decreases |replies| - pos
  {
    if DirectorDone(t) || pos == |replies| then RoundEnd(t, pos, [])
    else
      var g := w.guessFor(pos);
      Prepend(DirectorSays(t, same, replies[pos], g),
              DirectorRun(DirectorStep(t, same, replies[pos], g), same, replies, pos + 1, w))
  }

  /** The whole director round starting at reply `start`. */
  function DirectorRound(replies: seq<string>, start: nat, w: World): (r: RoundEnd<DirectorTally>)
    requires start <= |replies|
    ensures start <= r.pos <= |replies|
  {
    var target := TargetOf(w.typed(start));
    var run := DirectorRun(DirectorTally(0, 0, false), SameWord(target), replies, start, w);
    var closing := if DirectorDone(run.tally) && !run.tally.guessed then [Say(RobotGaveUp)] else [];
    Prepend([Play(StandBehavior), Say(DirectorIntro),
             Prompt(AskTyped)],
            RoundEnd(run.tally, run.pos, run.events + closing))
  }

  /** One more pass of the director loop, after what has been said so far. */
  lemma DirectorRunStep(said: seq<Event>, t: DirectorTally, same: string -> bool, replies: seq<string>, pos: nat, w: World)
    requires pos < |replies| && !DirectorDone(t)
    ensures Prepend(said, DirectorRun(t, same, replies, pos, w)) ==
      Prepend(said + DirectorSays(t, same, replies[pos], w.guessFor(pos)),
              DirectorRun(DirectorStep(t, same, replies[pos], w.guessFor(pos)), same, replies, pos + 1, w))
  {
    PrependTwice(said, DirectorSays(t, same, replies[pos], w.guessFor(pos)),
                 DirectorRun(DirectorStep(t, same, replies[pos], w.guessFor(pos)), same, replies, pos + 1, w));
  }

  /** An empty description changes no counter. */
  lemma SilentDescription(t: DirectorTally, same: string -> bool, g: Guess)
    ensures DirectorStep(t, same, "", g) == t
  {
  }

  /** A pass on a heard description: an unsure guess spends a hint request and
      nothing else; otherwise the round is won exactly when the guess is the
      target up to case, and a wrong guess spends one attempt and nothing else. */
  lemma HeardDescription(t: DirectorTally, same: string -> bool, description: string, g: Guess)
    requires description != "" && !t.guessed
    ensures var s := DirectorStep(t, same, description, g);
      && (Unsure(t, g) ==> s == t.(hintRequests := t.hintRequests + 1))
      && (!Unsure(t, g) ==> s.hintRequests == t.hintRequests)
      && (!Unsure(t, g) ==> (s.guessed <==> same(g.word)))
      && (!Unsure(t, g) && !s.guessed ==> s.attempts == t.attempts + 1)
      && (!Unsure(t, g) && s.guessed ==> s.attempts == t.attempts)
  {
  }

  /** The counters never pass their caps. */
  lemma {:induction false} DirectorRunBounded(t: DirectorTally, same: string -> bool, replies: seq<string>, pos: nat, w: World)
    requires pos <= |replies| && DirectorBounded(t)
    ensures DirectorBounded(DirectorRun(t, same, replies, pos, w).tally)
    decreases |replies| - pos
  {
    if !DirectorDone(t) && pos < |replies| {
      DirectorRunBounded(DirectorStep(t, same, replies[pos], w.guessFor(pos)), same, replies, pos + 1, w);
    }
  }

  /** A won round was won on a heard description whose guess is the target. */
  lemma {:induction false} DirectorWinIsMatch(t: DirectorTally, same: string -> bool, replies: seq<string>, pos: nat, w: World)
    requires pos <= |replies| && !t.guessed
    ensures var r := DirectorRun(t, same, replies, pos, w);
      r.tally.guessed ==>
        pos < r.pos && replies[r.pos - 1] != "" && same(w.guessFor(r.pos - 1).word)
    decreases |replies| - pos
  {
    if !DirectorDone(t) && pos < |replies| {
      var s := DirectorStep(t, same, replies[pos], w.guessFor(pos));
      if !s.guessed {
        DirectorWinIsMatch(s, same, replies, pos + 1, w);
      }
    }
  }

  // ---------------------------------------------------------------------
  // Matcher round (main.py:235-311)

  /** `[word for word in TARGET_WORDS if word != LAST_WORD]` */
  function Without(ws: seq<string>, last: Option<string>): (r: seq<string>)
    ensures forall w :: w in r <==> w in ws && Some(w) != last
  {
    if ws == [] then []
    else (if Some(ws[0]) != last then [ws[0]] else []) + Without(ws[1..], last)
  }

  /** The words the target is drawn from: all but the last one used, or all of
      them when no other is left. */
  function Choices(last: Option<string>): (cs: seq<string>)
    ensures cs != []
    ensures forall w :: w in cs ==> w in TargetWords
    ensures forall w :: w in TargetWords && Some(w) != last ==> w in cs
    ensures last.Some? ==> last.value !in cs
  {
    var cs := Without(TargetWords, last);
    assert TargetWords[0] in TargetWords && TargetWords[1] in TargetWords;
    assert Some(TargetWords[0]) != last || Some(TargetWords[1]) != last;
    if cs == [] then TargetWords[..] else cs
  }

  /** How a reply to "Do you want another hint?" is taken. */
  datatype HintAnswer = Unheard | Declines | Asks | Unclear

  /** The tests of the extra-hints loop, in order: nothing heard, then a "no"
      word, then a "yes" word. */
  function HintAnswerOf(reply: string): HintAnswer
  {
    if reply == "" then Unheard
    else if WantsNoHint(Said(reply)) then Declines
    else if WantsMoreHint(Said(reply)) then Asks
    else Unclear
  }

  /** "no" is tested before "yes": a reply holding both declines, and only a
      reply with a "yes" word and no "no" word asks for a hint. */
  lemma HintAnswerCases(reply: string)
    ensures reply != "" && WantsNoHint(Said(reply)) ==> HintAnswerOf(reply) == Declines
    ensures HintAnswerOf(reply) == Asks <==>
      reply != "" && !WantsNoHint(Said(reply)) && WantsMoreHint(Said(reply))
    ensures HintAnswerOf(reply) == Unheard <==> reply == ""
  {
  }

  /** The counter of the extra-hints loop, and whether a "no" ended it. */
  datatype HintTally = HintTally(given: nat, declined: bool)

  predicate HintsDone(h: HintTally)
  {
    h.declined || h.given >= MaxHints
  }

  /** One pass of the extra-hints loop. */
  function HintStep(h: HintTally, a: HintAnswer): HintTally
  {
    match a
    case Declines => h.(declined := true)
    case Asks => h.(given := h.given + 1)
    case _ => h
  }

  function HintSays(a: HintAnswer, script: string): seq<Event>
  {
    match a
    case Unheard => [Prompt(OfferHint), Prompt(AskYesNo), NoHear]
    case Declines => [Prompt(OfferHint)]
    case Unclear => [Prompt(OfferHint), Prompt(AskYesNo)]
    case Asks => [Prompt(OfferHint), Describe(script)]
  }

  /** The extra-hints loop from reply `pos`, each reply taken by `answer`. */
  function HintRun(h: HintTally, answer: string -> HintAnswer, replies: seq<string>, pos: nat, w: World): (r: RoundEnd<HintTally>)
    requires pos <= |replies|
    ensures pos <= r.pos <= |replies|
    ensures HintsDone(r.tally) || r.pos == |replies|
    decreases |replies| - pos
  {
    if HintsDone(h) || pos == |replies| then RoundEnd(h, pos, [])
    else
      var a := answer(replies[pos]);
      Prepend(HintSays(a, w.extraHint(pos)), HintRun(HintStep(h, a), answer, replies, pos + 1, w))
  }

  lemma HintRunStep(h: HintTally, answer: string -> HintAnswer, replies: seq<string>, pos: nat, w: World)
    requires pos < |replies| && !HintsDone(h)
    ensures HintRun(h, answer, replies, pos, w) ==
      Prepend(HintSays(answer(replies[pos]), w.extraHint(pos)),
              HintRun(HintStep(h, answer(replies[pos])), answer, replies, pos + 1, w))
  {
  }

  /** How many of the replies ask for another hint. */
  function AskedCount(answer: string -> HintAnswer, rs: seq<string>): (n: nat)
    ensures n <= |rs|
  {
    if rs == [] then 0 else (if answer(rs[0]) == Asks then 1 else 0) + AskedCount(answer, rs[1..])
  }

  /** No more than three extra hints are given, one for each reply that asks. */
  lemma {:induction false} HintRunBounded(h: HintTally, answer: string -> HintAnswer, replies: seq<string>, pos: nat, w: World)
    requires pos <= |replies| && h.given <= MaxHints
    ensures var r := HintRun(h, answer, replies, pos, w);
      && r.tally.given <= MaxHints
      && r.tally.given == h.given + AskedCount(answer, replies[pos..r.pos])
    decreases |replies| - pos
  {
    var r := HintRun(h, answer, replies, pos, w);
    if HintsDone(h) || pos == |replies| {
      assert replies[pos..r.pos] == [];
    } else {
      HintRunBounded(HintStep(h, answer(replies[pos])), answer, replies, pos + 1, w);
      assert replies[pos..r.pos] == [replies[pos]] + replies[pos + 1..r.pos];
    }
  }

  /** The counters of the guessing loop. */
  datatype GuessTally = GuessTally(attempts: nat, guessed: bool)

  predicate GuessesDone(m: GuessTally)
  {
    m.guessed || m.attempts >= MaxAttempts
  }

  /** `target_word.lower() in guess.lower()` */
  predicate Names(reply: string, target: string)
  {
    Contains(Lower(reply), Lower(target))
  }

  function NamesTarget(target: string): string -> bool
  {
    (reply: string) => Names(reply, target)
  }

  /** One pass of the guessing loop on the person's reply; `named` tells
      whether a reply names the target. */
  function GuessStep(m: GuessTally, named: string -> bool, reply: string): GuessTally
  {
    if reply == "" then m
    else if named(reply) then m.(guessed := true)
    else m.(attempts := m.attempts + 1)
  }

  function GuessSays(m: GuessTally, named: string -> bool, reply: string): seq<Event>
  {
    if reply == "" then [Prompt(NotHeardGuess), NoHear]
    else if named(reply) then [Say(PersonGotIt), CorrectGuess]
    else if m.attempts + 1 < MaxAttempts then [WrongGuess, Say(TryAgain)]
    else []
  }

  function GuessRun(m: GuessTally, named: string -> bool, replies: seq<string>, pos: nat): (r: RoundEnd<GuessTally>)
    requires pos <= |replies|
    ensures pos <= r.pos <= |replies|
    ensures GuessesDone(r.tally) || r.pos == |replies|
    decreases |replies| - pos
  {
    if GuessesDone(m) || pos == |replies| then RoundEnd(m, pos, [])
    else
      Prepend(GuessSays(m, named, replies[pos]), GuessRun(GuessStep(m, named, replies[pos]), named, replies, pos + 1))
  }

  lemma GuessRunStep(m: GuessTally, named: string -> bool, replies: seq<string>, pos: nat)
    requires pos < |replies| && !GuessesDone(m)
    ensures GuessRun(m, named, replies, pos) ==
      Prepend(GuessSays(m, named, replies[pos]), GuessRun(GuessStep(m, named, replies[pos]), named, replies, pos + 1))
  {
  }

  /** How many replies are heard and do not name the target. */
  function MissCount(named: string -> bool, rs: seq<string>): (n: nat)
    ensures n <= |rs|
  {
    if rs == [] then 0 else (if rs[0] != "" && !named(rs[0]) then 1 else 0) + MissCount(named, rs[1..])
  }

  /** Only heard wrong guesses spend attempts, and at most three of them. */
  lemma {:induction false} GuessRunCounts(m: GuessTally, named: string -> bool, replies: seq<string>, pos: nat)
    requires pos <= |replies| && !m.guessed && m.attempts <= MaxAttempts
    ensures var r := GuessRun(m, named, replies, pos);
      && r.tally.attempts == m.attempts + MissCount(named, replies[pos..r.pos])
      && r.tally.attempts <= MaxAttempts
    decreases |replies| - pos
  {
    var r := GuessRun(m, named, replies, pos);
    if GuessesDone(m) || pos == |replies| {
      assert replies[pos..r.pos] == [];
    } else {
      var reply := replies[pos];
      var next := GuessStep(m, named, reply);
      var rest := GuessRun(next, named, replies, pos + 1);
      assert r.tally == rest.tally && r.pos == rest.pos;
      var read := replies[pos..r.pos];
      assert read[0] == reply && read[1..] == replies[pos + 1..r.pos];
      assert MissCount(named, read) == (if reply != "" && !named(reply) then 1 else 0) + MissCount(named, read[1..]);
      if next.guessed {
        assert rest == RoundEnd(next, pos + 1, []);
        assert read[1..] == [];
      } else {
        GuessRunCounts(next, named, replies, pos + 1);
      }
    }
  }

  /** The round is won exactly when the last reply read names the target. */
  lemma {:induction false} GuessRunWon(m: GuessTally, named: string -> bool, replies: seq<string>, pos: nat)
    requires pos <= |replies| && !m.guessed
    ensures var r := GuessRun(m, named, replies, pos);
      r.tally.guessed <==> pos < r.pos && replies[r.pos - 1] != "" && named(replies[r.pos - 1])
    decreases |replies| - pos
  {
    if !GuessesDone(m) && pos < |replies| {
      var reply := replies[pos];
      var next := GuessStep(m, named, reply);
      var rest := GuessRun(next, named, replies, pos + 1);
      GuessRunStep(m, named, replies, pos);
      if next.guessed {
        assert rest == RoundEnd(next, pos + 1, []);
      } else {
        GuessRunWon(next, named, replies, pos + 1);
        if rest.pos == pos + 1 {
          assert rest.tally == next;
        }
      }
    }
  }

  /** The matcher round for a chosen target, starting at reply `start`: the
      opening description, the extra hints, then the guesses. */
  function MatcherRound(target: string, replies: seq<string>, start: nat, w: World): (r: RoundEnd<GuessTally>)
    requires start <= |replies|
    ensures start <= r.pos <= |replies|
  {
    var opening := [Play(StandBehavior),
                    Say(MatcherIntro),
                    Describe(w.opening(start))];
    var hints := HintRun(HintTally(0, false), HintAnswerOf, replies, start, w);
    if !HintsDone(hints.tally) then RoundEnd(GuessTally(0, false), hints.pos, opening + hints.events)
    else
      var guesses := GuessRun(GuessTally(0, false), NamesTarget(target), replies, hints.pos);
      var closing := if GuessesDone(guesses.tally) && !guesses.tally.guessed
        then [Say(TheWordWas(target))] else [];
      Prepend(opening + hints.events + [Prompt(AskGuess)],
              RoundEnd(guesses.tally, guesses.pos, guesses.events + closing))
  }

  // ---------------------------------------------------------------------
  // Role choice and replay (main.py:165-182, 313-330)

  /** How a choosing loop ends: with a choice, with the person leaving, or
      with no replies left. */
  datatype Outcome<T> = Chosen(choice: T) | Quit | NoReplies

  /** How a reply to "director or guesser?" is taken. */
  datatype RoleReply = Leaving | Picks(role: Role) | Unparsed

  /** A "no" word is tested before the role is parsed. */
  function RoleReplyOf(reply: string): RoleReply
  {
    if WantsNoHint(Said(reply)) then Leaving
    else match ParseRoleChoice(Said(reply))
      case Some(role) => Picks(role)
      case None => Unparsed
  }

  /** A reply with a "no" word leaves even when it names a role; otherwise
      the parsed role, if any, is picked. */
  lemma RoleReplyCases(reply: string)
    ensures RoleReplyOf(reply) == Leaving <==> WantsNoHint(Said(reply))
    ensures forall role :: RoleReplyOf(reply) == Picks(role) <==>
      !WantsNoHint(Said(reply)) && ParseRoleChoice(Said(reply)) == Some(role)
  {
  }

  /** The role-choice loop: it asks until a reply leaves or picks a role. */
  function RoleRun(answer: string -> RoleReply, replies: seq<string>, pos: nat): (r: RoundEnd<Outcome<Role>>)
    requires pos <= |replies|
    ensures pos <= r.pos <= |replies|
    ensures r.tally.NoReplies? ==> r.pos == |replies|
    ensures !r.tally.NoReplies? ==> pos < r.pos
    ensures r.tally.Quit? ==> |r.events| >= 1 && r.events[|r.events| - 1] == Say(Goodbye)
    decreases |replies| - pos
  {
    if pos == |replies| then RoundEnd(NoReplies, pos, [])
    else
      var asked := [Prompt(AskRole)];
      match answer(replies[pos])
      case Leaving => RoundEnd(Quit, pos + 1, asked + [Say(Goodbye)])
      case Picks(role) => RoundEnd(Chosen(role), pos + 1, asked)
      case Unparsed => Prepend(asked + [Prompt(RepeatRole)], RoleRun(answer, replies, pos + 1))
  }

  /** The role loop re-asks, without bound, exactly over unclear replies, and
      ends on the first reply that leaves or picks a role. */
  lemma {:induction false} RoleRunEnds(answer: string -> RoleReply, replies: seq<string>, pos: nat)
    requires pos <= |replies|
    ensures var r := RoleRun(answer, replies, pos);
      && (forall i :: pos <= i < r.pos - 1 ==> answer(replies[i]) == Unparsed)
      && (r.tally.NoReplies? ==> forall i :: pos <= i < |replies| ==> answer(replies[i]) == Unparsed)
      && (r.tally.Quit? ==> answer(replies[r.pos - 1]) == Leaving)
      && (r.tally.Chosen? ==> answer(replies[r.pos - 1]) == Picks(r.tally.choice))
    decreases |replies| - pos
  {
    if pos < |replies| && answer(replies[pos]) == Unparsed {
      RoleRunEnds(answer, replies, pos + 1);
    }
  }

  /** `parse_replay_choice` on a reply. */
  function ReplayOf(reply: string): Option<Replay>
  {
    ParseReplayChoice(Said(reply))
  }

  /** The replay loop: it asks until the reply means a role or "stop". */
  function ReplayRun(parse: string -> Option<Replay>, replies: seq<string>, pos: nat): (r: RoundEnd<Outcome<Replay>>)
    requires pos <= |replies|
    ensures pos <= r.pos <= |replies|
    ensures r.tally.NoReplies? ==> r.pos == |replies|
    ensures !r.tally.NoReplies? ==> pos < r.pos
    ensures !r.tally.Quit?
    decreases |replies| - pos
  {
    if pos == |replies| then RoundEnd(NoReplies, pos, [])
    else
      var asked := [Prompt(AskReplay)];
      match parse(replies[pos])
      case Some(choice) => RoundEnd(Chosen(choice), pos + 1, asked)
      case None => Prepend(asked + [Prompt(RepeatReplay), NoHear], ReplayRun(parse, replies, pos + 1))
  }

  /** The replay loop ends on the first reply that means a role or "stop". */
  lemma {:induction false} ReplayRunEnds(parse: string -> Option<Replay>, replies: seq<string>, pos: nat)
    requires pos <= |replies|
    ensures var r := ReplayRun(parse, replies, pos);
      && (forall i :: pos <= i < r.pos - 1 ==> parse(replies[i]) == None)
      && (r.tally.NoReplies? ==> forall i :: pos <= i < |replies| ==> parse(replies[i]) == None)
      && (r.tally.Chosen? ==> parse(replies[r.pos - 1]) == Some(r.tally.choice))
    decreases |replies| - pos
  {
    if pos < |replies| && parse(replies[pos]) == None {
      ReplayRunEnds(parse, replies, pos + 1);
    }
  }

  // ---------------------------------------------------------------------
  // The loops as the controller runs them, each proved to follow its run above

  /** The director round (main.py:185-234). */
  method PlayDirector(replies: seq<string>, start: nat, w: World) returns (target: string, r: RoundEnd<DirectorTally>)
    requires start <= |replies|
    ensures target == TargetOf(w.typed(start))
    ensures r == DirectorRound(replies, start, w)
  {
    var intro := [Play(StandBehavior), Say(DirectorIntro), Prompt(AskTyped)];
    target := Strip(w.typed(start));
    if target == "" {
      target := DefaultTarget;
    }
    var run := DescribeAndGuess(SameWord(target), replies, start, w);
    var said := run.events;
    if !run.tally.guessed && run.tally.attempts >= MaxAttempts {
      said := said + [Say(RobotGaveUp)];
    }
    r := RoundEnd(run.tally, run.pos, intro + said);
  }

  /** One pass of the director loop's body (main.py:204-232) on a
      description already read and the guess the model gives for it. */
  method DirectorPass(attempts: nat, hintRequests: nat, guessed: bool, same: string -> bool, description: string, g: Guess)
    returns (attempts': nat, hintRequests': nat, guessed': bool, said: seq<Event>)
    ensures DirectorTally(attempts', hintRequests', guessed') ==
      DirectorStep(DirectorTally(attempts, hintRequests, guessed), same, description, g)
    ensures said == DirectorSays(DirectorTally(attempts, hintRequests, guessed), same, description, g)
  {
    attempts', hintRequests', guessed' := attempts, hintRequests, guessed;
    if description == "" {
      return attempts', hintRequests', guessed', [Prompt(AskDescription), Prompt(NotHeardDescription), NoHear];
    }
    if g.confidence < GuessThreshold && hintRequests < MaxHintRequests {
      hintRequests' := hintRequests + 1;
      return attempts', hintRequests', guessed', [Prompt(AskDescription), Prompt(AskHint)];
    }
    if same(g.word) {
      guessed' := true;
      said := [Prompt(AskDescription), Say(MyGuessIs(g.word)), Say(RobotGotIt), CorrectGuess];
    } else {
      attempts' := attempts + 1;
      if attempts' < MaxAttempts {
        said := [Prompt(AskDescription), Say(MyGuessIs(g.word)), WrongGuess, Prompt(TryAgainHint)];
      } else {
        said := [Prompt(AskDescription), Say(MyGuessIs(g.word))];
      }
    }
  }

  /** The loop of the director round (main.py:203-232): the person describes,
      the robot guesses, and `same` tells whether a guess is the target (the
      round passes `SameWord(target)`). It also stops when the replies run out. */
  method DescribeAndGuess(same: string -> bool, replies: seq<string>, start: nat, w: World) returns (r: RoundEnd<DirectorTally>)
    requires start <= |replies|
    ensures r == DirectorRun(DirectorTally(0, 0, false), same, replies, start, w)
  {
    var attempts: nat, hintRequests: nat, guessed := 0, 0, false;
    var pos := start;
    var said: seq<Event> := [];
    ghost var run := DirectorRun(DirectorTally(0, 0, false), same, replies, start, w);
    while !guessed && attempts < MaxAttempts
      invariant start <= pos <= |replies|
      invariant run == Prepend(said, DirectorRun(DirectorTally(attempts, hintRequests, guessed), same, replies, pos, w))
      decreases |replies| - pos
    {
      if pos == |replies| {
        break;
      }
      DirectorRunStep(said, DirectorTally(attempts, hintRequests, guessed), same, replies, pos, w);
      var description := replies[pos];
      var g := w.guessFor(pos);
      var pass;
      attempts, hintRequests, guessed, pass := DirectorPass(attempts, hintRequests, guessed, same, description, g);
      said := said + pass;
      pos := pos + 1;
    }
    r := RoundEnd(DirectorTally(attempts, hintRequests, guessed), pos, said);
  }

  /** One pass of the extra-hints loop (main.py:259-278): the robot offers a
      hint and acts on the answer. */
  method HintPass(hintsGiven: nat, a: HintAnswer, extra: string) returns (hintsGiven': nat, declined: bool, said: seq<Event>)
    ensures HintTally(hintsGiven', declined) == HintStep(HintTally(hintsGiven, false), a)
    ensures said == HintSays(a, extra)
  {
    hintsGiven', declined := hintsGiven, false;
    match a
    case Unheard =>
      said := [Prompt(OfferHint), Prompt(AskYesNo), NoHear];
    case Declines =>
      said := [Prompt(OfferHint)];
      declined := true;
    case Unclear =>
      said := [Prompt(OfferHint), Prompt(AskYesNo)];
    case Asks =>
      hintsGiven' := hintsGiven + 1;
      said := [Prompt(OfferHint), Describe(extra)];
  }

  /** The extra-hints loop of the matcher round (main.py:257-279), each reply
      taken by `answer` (the controller passes `HintAnswerOf`). */
  method OfferHints(answer: string -> HintAnswer, replies: seq<string>, start: nat, w: World) returns (r: RoundEnd<HintTally>)
    requires start <= |replies|
    ensures r == HintRun(HintTally(0, false), answer, replies, start, w)
  {
    var hintsGiven: nat, declined := 0, false;
    var pos := start;
    var said: seq<Event> := [];
    ghost var run := HintRun(HintTally(0, false), answer, replies, start, w);
    while hintsGiven < MaxHints
      invariant start <= pos <= |replies|
      invariant run == Prepend(said, HintRun(HintTally(hintsGiven, declined), answer, replies, pos, w))
      invariant !declined
      decreases |replies| - pos
    {
      if pos == |replies| {
        break;
      }
      HintRunStep(HintTally(hintsGiven, false), answer, replies, pos, w);
      var heard;
      hintsGiven, declined, heard := HintPass(hintsGiven, answer(replies[pos]), w.extraHint(pos));
      PrependTwice(said, heard, HintRun(HintTally(hintsGiven, declined), answer, replies, pos + 1, w));
      said := said + heard;
      pos := pos + 1;
      if declined {
        break;
      }
    }
    PrependNothing(said, HintTally(hintsGiven, declined), pos);
    r := RoundEnd(HintTally(hintsGiven, declined), pos, said);
  }

  /** One pass of the guessing loop of the matcher round (main.py:289-305). */
  method GuessPass(attempts: nat, named: string -> bool, guess: string) returns (attempts': nat, guessed: bool, said: seq<Event>)
    ensures GuessTally(attempts', guessed) == GuessStep(GuessTally(attempts, false), named, guess)
    ensures said == GuessSays(GuessTally(attempts, false), named, guess)
  {
    attempts', guessed, said := attempts, false, [];
    if guess == "" {
      return attempts', guessed, [Prompt(NotHeardGuess), NoHear];
    }
    if named(guess) {
      guessed := true;
      said := [Say(PersonGotIt), CorrectGuess];
    } else {
      attempts' := attempts + 1;
      if attempts' < MaxAttempts {
        said := [WrongGuess, Say(TryAgain)];
      }
    }
  }

  /** The guessing loop of the matcher round (main.py:284-305); `named` tells
      whether a reply names the target (the controller passes `NamesTarget`). */
  method TakeGuesses(named: string -> bool, replies: seq<string>, start: nat) returns (r: RoundEnd<GuessTally>)
    requires start <= |replies|
    ensures r == GuessRun(GuessTally(0, false), named, replies, start)
  {
    var attempts: nat, guessed := 0, false;
    var pos := start;
    var said: seq<Event> := [];
    ghost var run := GuessRun(GuessTally(0, false), named, replies, start);
    while !guessed && attempts < MaxAttempts
      invariant start <= pos <= |replies|
      invariant run == Prepend(said, GuessRun(GuessTally(attempts, guessed), named, replies, pos))
      decreases |replies| - pos
    {
      if pos == |replies| {
        break;
      }
      GuessRunStep(GuessTally(attempts, false), named, replies, pos);
      var heard;
      attempts, guessed, heard := GuessPass(attempts, named, replies[pos]);
      PrependTwice(said, heard, GuessRun(GuessTally(attempts, guessed), named, replies, pos + 1));
      said := said + heard;
      pos := pos + 1;
    }
    PrependNothing(said, GuessTally(attempts, guessed), pos);
    r := RoundEnd(GuessTally(attempts, guessed), pos, said);
  }

  lemma RoleRunStep(answer: string -> RoleReply, replies: seq<string>, pos: nat)
    requires pos < |replies|
    ensures RoleRun(answer, replies, pos) ==
      match answer(replies[pos])
      case Leaving => RoundEnd(Quit, pos + 1, [Prompt(AskRole), Say(Goodbye)])
      case Picks(role) => RoundEnd(Chosen(role), pos + 1, [Prompt(AskRole)])
      case Unparsed => Prepend([Prompt(AskRole), Prompt(RepeatRole)], RoleRun(answer, replies, pos + 1))
  {
  }

  /** The role-choice loop (main.py:167-182), each reply taken by `answer`
      (the controller passes `RoleReplyOf`). */
  method ChooseRole(answer: string -> RoleReply, replies: seq<string>, start: nat) returns (r: RoundEnd<Outcome<Role>>)
    requires start <= |replies|
    ensures r == RoleRun(answer, replies, start)
  {
    var roleChoice: Option<Role> := None;
    var pos := start;
    var said: seq<Event> := [];
    ghost var run := RoleRun(answer, replies, start);
    while roleChoice.None?
      invariant start <= pos <= |replies|
      invariant roleChoice.None? ==> run == Prepend(said, RoleRun(answer, replies, pos))
      invariant roleChoice.Some? ==> run == RoundEnd(Chosen(roleChoice.value), pos, said)
      decreases |replies| - pos
    {
      if pos == |replies| {
        return RoundEnd(NoReplies, pos, said);
      }
      var reply := replies[pos];
      RoleRunStep(answer, replies, pos);
      pos := pos + 1;
      match answer(reply)
      case Leaving =>
        return RoundEnd(Quit, pos, said + [Prompt(AskRole), Say(Goodbye)]);
      case Picks(role) =>
        said := said + [Prompt(AskRole)];
        roleChoice := Some(role);
      case Unparsed =>
        PrependTwice(said, [Prompt(AskRole), Prompt(RepeatRole)], RoleRun(answer, replies, pos));
        said := said + [Prompt(AskRole), Prompt(RepeatRole)];
    }
    r := RoundEnd(Chosen(roleChoice.value), pos, said);
  }

  lemma ReplayRunStep(parse: string -> Option<Replay>, replies: seq<string>, pos: nat)
    requires pos < |replies|
    ensures ReplayRun(parse, replies, pos) ==
      match parse(replies[pos])
      case Some(choice) => RoundEnd(Chosen(choice), pos + 1, [Prompt(AskReplay)])
      case None => Prepend([Prompt(AskReplay), Prompt(RepeatReplay), NoHear], ReplayRun(parse, replies, pos + 1))
  {
  }

  /** The replay loop (main.py:313-326), each reply read by `parse` (the
      controller passes `ReplayOf`). */
  method ChooseReplay(parse: string -> Option<Replay>, replies: seq<string>, start: nat) returns (r: RoundEnd<Outcome<Replay>>)
    requires start <= |replies|
    ensures r == ReplayRun(parse, replies, start)
  {
    var replayChoice: Option<Replay> := None;
    var pos := start;
    var said: seq<Event> := [];
    ghost var run := ReplayRun(parse, replies, start);
    while replayChoice.None?
      invariant start <= pos <= |replies|
      invariant replayChoice.None? ==> run == Prepend(said, ReplayRun(parse, replies, pos))
      invariant replayChoice.Some? ==> run == RoundEnd(Chosen(replayChoice.value), pos, said)
      decreases |replies| - pos, replayChoice.None?
    {
      if pos == |replies| {
        return RoundEnd(NoReplies, pos, said);
      }
      var reply := replies[pos];
      ReplayRunStep(parse, replies, pos);
      pos := pos + 1;
      replayChoice := parse(reply);
      if replayChoice.None? {
        PrependTwice(said, [Prompt(AskReplay), Prompt(RepeatReplay), NoHear], ReplayRun(parse, replies, pos));
        said := said + [Prompt(AskReplay), Prompt(RepeatReplay), NoHear];
      } else {
        said := said + [Prompt(AskReplay)];
      }
    }
    r := RoundEnd(Chosen(replayChoice.value), pos, said);
  }

  // ---------------------------------------------------------------------
  // The controller (main.py:147-332)

  /** Matcher targets over a session: each one a target word, and no two
      consecutive ones equal. */
  predicate Drawn(targets: seq<string>)
  {
    && (forall i :: 0 <= i < |targets| ==> targets[i] in TargetWords)
    && (forall i :: 0 < i < |targets| ==> targets[i] != targets[i - 1])
  }

  lemma DrawnSnoc(targets: seq<string>, t: string)
    requires Drawn(targets) && t in TargetWords
    requires targets != [] ==> t != targets[|targets| - 1]
    ensures Drawn(targets + [t])
  {
    var ts := targets + [t];
    forall i | 0 < i < |ts|
      ensures ts[i] != ts[i - 1]
    {
      if i < |targets| {
        assert ts[i] == targets[i] && ts[i - 1] == targets[i - 1];
      }
    }
  }

  /** `LAST_WORD` after the matcher targets `targets`, starting from `last`. */
  function LastDrawn(last: Option<string>, targets: seq<string>): Option<string>
  {
    if targets == [] then last else Some(targets[|targets| - 1])
  }

  lemma LastDrawnSnoc(last: Option<string>, targets: seq<string>, t: string)
    ensures LastDrawn(last, targets + [t]) == Some(t)
  {
  }

  /** How a session ends: a "no" at the role question, "stop" at the replay
      question, or the replies running out. */
  datatype Ending = LeftAtRoleChoice | Stopped | OutOfReplies

  /** A round of a session: its role and the position of its first reply. */
  datatype Played = Played(role: Role, start: nat)

  /** What a session, or its rest, ended with: how it ended, the position of
      the next unread reply, what it made the robot do and the rounds played. */
  datatype SessionEnd = SessionEnd(ending: Ending, pos: nat, events: seq<Event>, played: seq<Played>)

  function Join(said: seq<Event>, played: seq<Played>, s: SessionEnd): SessionEnd
  {
    SessionEnd(s.ending, s.pos, said + s.events, played + s.played)
  }

  /** The last two things done are `a`, then `b`. */
  predicate EndsWith(events: seq<Event>, a: Event, b: Event)
  {
    |events| >= 2 && events[|events| - 2] == a && events[|events| - 1] == b
  }

  /** One round in the given role from reply `start`: the director round, or
      the matcher round for `target`. The tally says whether the word was guessed. */
  function RoundOf(role: Role, target: string, replies: seq<string>, start: nat, w: World): (r: RoundEnd<bool>)
    requires start <= |replies|
    ensures start <= r.pos <= |replies|
  {
    if role == Director then
      var d := DirectorRound(replies, start, w);
      RoundEnd(d.tally.guessed, d.pos, d.events)
    else
      var m := MatcherRound(target, replies, start, w);
      RoundEnd(m.tally.guessed, m.pos, m.events)
  }

  /** The program's rounds for a reply script, as a function of the role, the
      matcher's word and the first reply of the round. */
  function Player(replies: seq<string>, w: World): (play: (Role, string, nat) -> RoundEnd<bool>)
    ensures Advances(play, |replies|)
  {
    (role: Role, target: string, start: nat) =>
      if start <= |replies| then RoundOf(role, target, replies, start, w) else RoundEnd(false, start, [])
  }

  /** A round read from `start` stops at or after it, within the replies. */
  ghost predicate Advances(play: (Role, string, nat) -> RoundEnd<bool>, n: nat)
  {
    forall role: Role, target: string, start: nat :: start <= n ==> start <= play(role, target, start).pos <= n
  }

  /** The program's round in `role`, drawing the words `t`: a director round
      ignores the words, a matcher round plays for the one it draws. */
  lemma PlayerIs(replies: seq<string>, w: World, role: Role, t: seq<string>, start: nat)
    requires start <= |replies|
    requires |t| == if role == Matcher then 1 else 0
    ensures var r := Player(replies, w)(role, Drawing(role, t), start);
      && (role == Director ==> r.events == DirectorRound(replies, start, w).events && r.pos == DirectorRound(replies, start, w).pos)
      && (role == Matcher ==> r.events == MatcherRound(t[0], replies, start, w).events && r.pos == MatcherRound(t[0], replies, start, w).pos)
  {
  }

  /** The number of matcher rounds among `ps`: each one draws a word. */
  function Matchers(ps: seq<Played>): nat
  {
    if ps == [] then 0
    else (if ps[0].role == Matcher then 1 else 0) + Matchers(ps[1..])
  }

  lemma MatchersSnoc(ps: seq<Played>, p: Played)
    ensures Matchers(ps + [p]) == Matchers(ps) + (if p.role == Matcher then 1 else 0)
  {
    if ps != [] {
      assert (ps + [p])[1..] == ps[1..] + [p];
      MatchersSnoc(ps[1..], p);
    }
  }

  /** The word a round in `role` draws from `draws`, and what is left. */
  function Drawing(role: Role, draws: seq<string>): string
  {
    if role == Matcher && draws != [] then draws[0] else DefaultTarget
  }

  function LeftOver(role: Role, draws: seq<string>): seq<string>
  {
    if role == Matcher && draws != [] then draws[1..] else draws
  }

  /** The replay question asked from reply `p`: it reads at or after `p`,
      within the replies; it never quits, and a clear answer is read at `p`
      or later while no answer means every reply was read. */
  ghost predicate Questions(ask: nat -> RoundEnd<Outcome<Replay>>, n: nat)
  {
    forall p: nat :: p <= n ==>
      && p <= ask(p).pos <= n
      && !ask(p).tally.Quit?
      && (ask(p).tally.NoReplies? ==> ask(p).pos == n)
      && (!ask(p).tally.NoReplies? ==> p < ask(p).pos)
  }

  /** What the replay question settles on is what `replayOf` reads in the
      last reply it took. */
  ghost predicate Hears(ask: nat -> RoundEnd<Outcome<Replay>>, replayOf: string -> Option<Replay>, replies: seq<string>)
    requires Questions(ask, |replies|)
  {
    forall p: nat :: p <= |replies| && ask(p).tally.Chosen? ==>
      replayOf(replies[ask(p).pos - 1]) == Some(ask(p).tally.choice)
  }

  /** The program's replay question for a reply script. */
  function Asker(replayOf: string -> Option<Replay>, replies: seq<string>): (ask: nat -> RoundEnd<Outcome<Replay>>)
    ensures Questions(ask, |replies|)
  {
    (p: nat) => if p <= |replies| then ReplayRun(replayOf, replies, p) else RoundEnd(NoReplies, p, [])
  }

  lemma AskerHears(replayOf: string -> Option<Replay>, replies: seq<string>)
    ensures Hears(Asker(replayOf, replies), replayOf, replies)
  {
    forall p: nat | p <= |replies| && Asker(replayOf, replies)(p).tally.Chosen?
      ensures replayOf(replies[Asker(replayOf, replies)(p).pos - 1]) == Some(Asker(replayOf, replies)(p).tally.choice)
    {
      ReplayRunEnds(replayOf, replies, p);
    }
  }

  /** The rounds of a session from reply `pos`, the first one in `role`: a
      round as `play` plays it, then the replay question as `ask` asks it from
      the reply after the round, then the next round in the role the reply names, until "stop" or the end of the replies.
      Matcher rounds draw their words from the front of `draws`. */
  function Rounds(ask: nat -> RoundEnd<Outcome<Replay>>, play: (Role, string, nat) -> RoundEnd<bool>, replies: seq<string>, pos: nat, role: Role, draws: seq<string>): (s: SessionEnd)
    requires pos <= |replies| && Questions(ask, |replies|) && Advances(play, |replies|)
    ensures pos <= s.pos <= |replies|
    decreases |replies| - pos
  {
    var round := play(role, Drawing(role, draws), pos);
    var replay := ask(round.pos);
    var said := round.events + replay.events;
    var here := [Played(role, pos)];
    if replay.tally.NoReplies? then SessionEnd(OutOfReplies, replay.pos, said, here)
    else if replay.tally.choice == Stop then SessionEnd(Stopped, replay.pos, said + [Say(Farewell), Leave], here)
    else Join(said, here, Rounds(ask, play, replies, replay.pos, replay.tally.choice.role, LeftOver(role, draws)))
  }

  /** A session whose role question ends as `chosen` and whose rounds `play`
      plays: the greeting, the role question, then the rounds; `draws` lists
      the matcher rounds' words. */
  function SessionWith(chosen: RoundEnd<Outcome<Role>>, ask: nat -> RoundEnd<Outcome<Replay>>, play: (Role, string, nat) -> RoundEnd<bool>, replies: seq<string>, draws: seq<string>): (s: SessionEnd)
    requires chosen.pos <= |replies| && Questions(ask, |replies|) && Advances(play, |replies|)
    ensures s.pos <= |replies|
  {
    var opening := [Play(WaveBehavior), Say(Greeting)];
    match chosen.tally
    case NoReplies => SessionEnd(OutOfReplies, chosen.pos, opening + chosen.events, [])
    case Quit => SessionEnd(LeftAtRoleChoice, chosen.pos, opening + chosen.events + [Leave], [])
    case Chosen(role) => Join(opening + chosen.events, [], Rounds(ask, play, replies, chosen.pos, role, draws))
  }

  /** The whole session (main.py:159-332), with the program's own rounds. */
  function SessionRun(roleReply: string -> RoleReply, replayOf: string -> Option<Replay>, replies: seq<string>, draws: seq<string>, w: World): (s: SessionEnd)
    ensures s.pos <= |replies|
  {
    SessionWith(RoleRun(roleReply, replies, 0), Asker(replayOf, replies), Player(replies, w), replies, draws)
  }

  /** Rounds in order, each between `lo` and `hi`, each after the first in
      the role the replay reply just before it named. */
  ghost predicate Chained(replayOf: string -> Option<Replay>, replies: seq<string>, ps: seq<Played>, lo: nat, hi: nat)
  {
    && hi <= |replies|
    && (forall i :: 0 <= i < |ps| ==> lo <= ps[i].start <= hi)
    && (forall i :: 0 < i < |ps| ==>
          && ps[i - 1].start < ps[i].start
          && replayOf(replies[ps[i].start - 1]) == Some(PlayAs(ps[i].role)))
  }

  lemma ChainedCons(replayOf: string -> Option<Replay>, replies: seq<string>, p: Played, ps: seq<Played>, lo: nat, mid: nat, hi: nat)
    requires Chained(replayOf, replies, ps, mid, hi)
    requires lo <= p.start < mid <= hi
    requires ps != [] ==> ps[0].start == mid && replayOf(replies[mid - 1]) == Some(PlayAs(ps[0].role))
    ensures Chained(replayOf, replies, [p] + ps, lo, hi)
  {
    var qs := [p] + ps;
    forall i | 0 < i < |qs|
      ensures qs[i] == ps[i - 1]
    {
    }
    forall i | 0 < i < |qs|
      ensures qs[i - 1].start < qs[i].start
      ensures replayOf(replies[qs[i].start - 1]) == Some(PlayAs(qs[i].role))
    {
      assert qs[i] == ps[i - 1];
      if i > 1 {
        assert qs[i - 1] == ps[i - 2];
      }
    }
  }

  /** Each round of a run of rounds after the first is played in the role
      named by the replay reply just before it, and they come in order. */
  lemma {:induction false} RoundsChained(ask: nat -> RoundEnd<Outcome<Replay>>, replayOf: string -> Option<Replay>, play: (Role, string, nat) -> RoundEnd<bool>,
                                         replies: seq<string>, pos: nat, role: Role, draws: seq<string>)
    requires pos <= |replies| && Questions(ask, |replies|) && Advances(play, |replies|)
    requires Hears(ask, replayOf, replies)
    ensures var s := Rounds(ask, play, replies, pos, role, draws);
      && s.played != [] && s.played[0] == Played(role, pos)
      && Chained(replayOf, replies, s.played, pos, s.pos)
    decreases |replies| - pos
  {
    var round := play(role, Drawing(role, draws), pos);
    var replay := ask(round.pos);
    if replay.tally.Chosen? && replay.tally.choice != Stop {
      var next := replay.tally.choice.role;
      var r := Rounds(ask, play, replies, replay.pos, next, LeftOver(role, draws));
      RoundsChained(ask, replayOf, play, replies, replay.pos, next, LeftOver(role, draws));
      ChainedCons(replayOf, replies, Played(role, pos), r.played, pos, replay.pos, r.pos);
    }
  }

  /** Rounds never end at the role question, and running out means every
      reply was read. */
  lemma {:induction false} RoundsEnding(ask: nat -> RoundEnd<Outcome<Replay>>, play: (Role, string, nat) -> RoundEnd<bool>,
                                        replies: seq<string>, pos: nat, role: Role, draws: seq<string>)
    requires pos <= |replies| && Questions(ask, |replies|) && Advances(play, |replies|)
    ensures var s := Rounds(ask, play, replies, pos, role, draws);
      && s.played != []
      && s.ending != LeftAtRoleChoice
      && (s.ending == OutOfReplies ==> s.pos == |replies|)
    decreases |replies| - pos
  {
    var round := play(role, Drawing(role, draws), pos);
    var replay := ask(round.pos);
    if replay.tally.Chosen? && replay.tally.choice != Stop {
      RoundsEnding(ask, play, replies, replay.pos, replay.tally.choice.role, LeftOver(role, draws));
    }
  }

  /** "stop" is the reply that ends a run of rounds, after the last round
      and with the farewell. */
  lemma {:induction false} RoundsStop(ask: nat -> RoundEnd<Outcome<Replay>>, replayOf: string -> Option<Replay>, play: (Role, string, nat) -> RoundEnd<bool>,
                                      replies: seq<string>, pos: nat, role: Role, draws: seq<string>)
    requires pos <= |replies| && Questions(ask, |replies|) && Advances(play, |replies|)
    requires Hears(ask, replayOf, replies)
    ensures var s := Rounds(ask, play, replies, pos, role, draws);
      s.ending == Stopped ==>
        && s.played != [] && s.played[|s.played| - 1].start < s.pos
        && replayOf(replies[s.pos - 1]) == Some(Stop)
        && EndsWith(s.events, Say(Farewell), Leave)
    decreases |replies| - pos
  {
    var round := play(role, Drawing(role, draws), pos);
    var replay := ask(round.pos);
    if replay.tally.Chosen? && replay.tally.choice != Stop {
      var r := Rounds(ask, play, replies, replay.pos, replay.tally.choice.role, LeftOver(role, draws));
      RoundsStop(ask, replayOf, play, replies, replay.pos, replay.tally.choice.role, LeftOver(role, draws));
      if r.ending == Stopped {
        JoinTail(round.events + replay.events, [Played(role, pos)], r, Say(Farewell), Leave);
      }
    }
  }

  /** Joining keeps the end of what follows. */
  lemma JoinTail(a: seq<Event>, p: seq<Played>, r: SessionEnd, x: Event, y: Event)
    requires EndsWith(r.events, x, y) && r.played != []
    ensures var s := Join(a, p, r);
      && EndsWith(s.events, x, y)
      && s.played != [] && s.played[|s.played| - 1] == r.played[|r.played| - 1]
  {
  }

  /** Joining twice is joining the concatenations. */
  lemma JoinJoin(a: seq<Event>, p: seq<Played>, b: seq<Event>, q: seq<Played>, r: SessionEnd)
    ensures Join(a, p, Join(b, q, r)) == Join(a + b, p + q, r)
  {
    assert a + (b + r.events) == (a + b) + r.events;
    assert p + (q + r.played) == (p + q) + r.played;
  }

  /** A round drawing `t`, answered at the replay question with a role,
      goes on with the rounds drawing what follows `t`. */
  lemma RoundsThen(ask: nat -> RoundEnd<Outcome<Replay>>, play: (Role, string, nat) -> RoundEnd<bool>, replies: seq<string>, pos: nat, role: Role, t: seq<string>, later: seq<string>)
    requires pos <= |replies| && Questions(ask, |replies|) && Advances(play, |replies|)
    requires |t| == if role == Matcher then 1 else 0
    ensures var round := play(role, Drawing(role, t), pos);
      var replay := ask(round.pos);
      replay.tally.Chosen? && replay.tally.choice.PlayAs? ==>
        Rounds(ask, play, replies, pos, role, t + later) ==
          Join(round.events + replay.events, [Played(role, pos)], Rounds(ask, play, replies, replay.pos, replay.tally.choice.role, later))
  {
    assert Drawing(role, t + later) == Drawing(role, t);
    assert LeftOver(role, t + later) == later;
  }

  /** A session opens with the wave and the greeting. */
  lemma SessionOpens(chosen: RoundEnd<Outcome<Role>>, ask: nat -> RoundEnd<Outcome<Replay>>, play: (Role, string, nat) -> RoundEnd<bool>, replies: seq<string>, draws: seq<string>)
    requires chosen.pos <= |replies| && Questions(ask, |replies|) && Advances(play, |replies|)
    ensures var s := SessionWith(chosen, ask, play, replies, draws);
      |s.events| >= 2 && s.events[..2] == [Play(WaveBehavior), Say(Greeting)]
  {
    var s := SessionWith(chosen, ask, play, replies, draws);
    assert s.events == [Play(WaveBehavior), Say(Greeting)] + s.events[2..];
  }

  /** What the role question settled on, read by `roleReply`: it stops
      within the replies; running out means every reply was read; leaving
      is read in the last reply taken and ends with goodbye; a role is read
      in the last reply taken. */
  ghost predicate Answered(chosen: RoundEnd<Outcome<Role>>, roleReply: string -> RoleReply, replies: seq<string>)
  {
    && chosen.pos <= |replies|
    && (chosen.tally.NoReplies? ==> chosen.pos == |replies|)
    && (chosen.tally.Quit? ==>
          && 0 < chosen.pos && roleReply(replies[chosen.pos - 1]) == Leaving
          && chosen.events != [] && chosen.events[|chosen.events| - 1] == Say(Goodbye))
    && (chosen.tally.Chosen? ==> 0 < chosen.pos && roleReply(replies[chosen.pos - 1]) == Picks(chosen.tally.choice))
  }

  /** The program's role question, asked from the first reply. */
  lemma RoleRunAnswers(roleReply: string -> RoleReply, replies: seq<string>)
    ensures Answered(RoleRun(roleReply, replies, 0), roleReply, replies)
  {
    RoleRunEnds(roleReply, replies, 0);
  }

  /** A session ends at the role question exactly when the role question
      ended with leaving, and then with goodbye and no round; running out
      of replies means every reply was read. */
  lemma SessionLeaves(chosen: RoundEnd<Outcome<Role>>, roleReply: string -> RoleReply, ask: nat -> RoundEnd<Outcome<Replay>>, play: (Role, string, nat) -> RoundEnd<bool>,
                      replies: seq<string>, draws: seq<string>)
    requires Answered(chosen, roleReply, replies) && Questions(ask, |replies|) && Advances(play, |replies|)
    ensures var s := SessionWith(chosen, ask, play, replies, draws);
      && (s.ending == LeftAtRoleChoice <==> chosen.tally == Quit)
      && (s.ending == LeftAtRoleChoice ==>
            && s.played == [] && 0 < s.pos && roleReply(replies[s.pos - 1]) == Leaving
            && EndsWith(s.events, Say(Goodbye), Leave))
      && (s.ending == OutOfReplies ==> s.pos == |replies|)
  {
    if chosen.tally.Quit? {
      var e := [Play(WaveBehavior), Say(Greeting)] + chosen.events;
      assert e[|e| - 1] == Say(Goodbye);
      assert EndsWith(e + [Leave], Say(Goodbye), Leave);
    } else if chosen.tally.Chosen? {
      RoundsEnding(ask, play, replies, chosen.pos, chosen.tally.choice, draws);
    }
  }

  /** The first round is in the role the role question settled on, read in
      the reply just before it, and each later round in the role the replay
      reply just before it named. */
  lemma SessionRoles(chosen: RoundEnd<Outcome<Role>>, roleReply: string -> RoleReply, ask: nat -> RoundEnd<Outcome<Replay>>, replayOf: string -> Option<Replay>,
                     play: (Role, string, nat) -> RoundEnd<bool>, replies: seq<string>, draws: seq<string>)
    requires Answered(chosen, roleReply, replies) && Questions(ask, |replies|) && Advances(play, |replies|)
    requires Hears(ask, replayOf, replies)
    ensures var s := SessionWith(chosen, ask, play, replies, draws);
      && (s.played != [] ==>
            && 0 < s.played[0].start <= |replies|
            && roleReply(replies[s.played[0].start - 1]) == Picks(s.played[0].role))
      && Chained(replayOf, replies, s.played, 0, s.pos)
  {
    if chosen.tally.Chosen? {
      RoundsChained(ask, replayOf, play, replies, chosen.pos, chosen.tally.choice, draws);
    }
  }

  /** A session stops only on a replay reply that means "stop", read after
      the last round, and then ends with the farewell. */
  lemma SessionStops(chosen: RoundEnd<Outcome<Role>>, ask: nat -> RoundEnd<Outcome<Replay>>, replayOf: string -> Option<Replay>, play: (Role, string, nat) -> RoundEnd<bool>,
                     replies: seq<string>, draws: seq<string>)
    requires chosen.pos <= |replies| && Questions(ask, |replies|) && Advances(play, |replies|)
    requires Hears(ask, replayOf, replies)
    ensures var s := SessionWith(chosen, ask, play, replies, draws);
      s.ending == Stopped ==>
        && s.played != [] && s.played[|s.played| - 1].start < s.pos
        && replayOf(replies[s.pos - 1]) == Some(Stop)
        && EndsWith(s.events, Say(Farewell), Leave)
  {
    if chosen.tally.Chosen? {
      var r := Rounds(ask, play, replies, chosen.pos, chosen.tally.choice, draws);
      RoundsStop(ask, replayOf, play, replies, chosen.pos, chosen.tally.choice, draws);
      if r.ending == Stopped {
        JoinTail([Play(WaveBehavior), Say(Greeting)] + chosen.events, [], r, Say(Farewell), Leave);
      }
    }
  }

  /** A reply to the replay question reads as "stop" only when it holds a "no" word. */
  lemma StopMeansNo(reply: string)
    ensures ReplayOf(reply) == Some(Stop) ==> WantsNoHint(Said(reply))
  {
    ReplayChoiceCases(Said(reply));
  }

  /** How the program's session opens and ends. */
  lemma SessionFacts(roleReply: string -> RoleReply, replayOf: string -> Option<Replay>, replies: seq<string>, draws: seq<string>, w: World)
    ensures var s := SessionRun(roleReply, replayOf, replies, draws, w);
      && |s.events| >= 2 && s.events[..2] == [Play(WaveBehavior), Say(Greeting)]
      && (s.ending == LeftAtRoleChoice ==> s.events[|s.events| - 2..] == [Say(Goodbye), Leave])
      && (s.ending == Stopped ==> s.events[|s.events| - 2..] == [Say(Farewell), Leave])
  {
    var chosen, ask, play := RoleRun(roleReply, replies, 0), Asker(replayOf, replies), Player(replies, w);
    var s := SessionWith(chosen, ask, play, replies, draws);
    RoleRunAnswers(roleReply, replies);
    AskerHears(replayOf, replies);
    SessionOpens(chosen, ask, play, replies, draws);
    SessionLeaves(chosen, roleReply, ask, play, replies, draws);
    SessionStops(chosen, ask, replayOf, play, replies, draws);
    if s.ending == LeftAtRoleChoice {
      assert s.events[|s.events| - 2..] == [Say(Goodbye), Leave];
    } else if s.ending == Stopped {
      assert s.events[|s.events| - 2..] == [Say(Farewell), Leave];
    }
  }

  /** The program's session ends at the role question only on a role reply
      read as leaving, before any round, and runs out only when every reply
      was read. */
  lemma SessionRunLeaves(roleReply: string -> RoleReply, replayOf: string -> Option<Replay>, replies: seq<string>, draws: seq<string>, w: World)
    ensures var s := SessionRun(roleReply, replayOf, replies, draws, w);
      && (s.ending == LeftAtRoleChoice ==> s.played == [] && 0 < s.pos && roleReply(replies[s.pos - 1]) == Leaving)
      && (s.ending == OutOfReplies ==> s.pos == |replies|)
  {
    RoleRunAnswers(roleReply, replies);
    SessionLeaves(RoleRun(roleReply, replies, 0), roleReply, Asker(replayOf, replies), Player(replies, w), replies, draws);
  }

  /** The program's session stops only on a replay reply read as "stop". */
  lemma SessionRunStops(roleReply: string -> RoleReply, replayOf: string -> Option<Replay>, replies: seq<string>, draws: seq<string>, w: World)
    ensures var s := SessionRun(roleReply, replayOf, replies, draws, w);
      s.ending == Stopped ==> 0 < s.pos && replayOf(replies[s.pos - 1]) == Some(Stop)
  {
    AskerHears(replayOf, replies);
    SessionStops(RoleRun(roleReply, replies, 0), Asker(replayOf, replies), replayOf, Player(replies, w), replies, draws);
  }

  /** In the program's session the first round is in the role the role reply
      picked, and each later one in the role the replay reply before it named. */
  lemma SessionRunRoles(roleReply: string -> RoleReply, replayOf: string -> Option<Replay>, replies: seq<string>, draws: seq<string>, w: World)
    ensures var s := SessionRun(roleReply, replayOf, replies, draws, w);
      && (s.played != [] ==> 0 < s.played[0].start && roleReply(replies[s.played[0].start - 1]) == Picks(s.played[0].role))
      && Chained(replayOf, replies, s.played, 0, s.pos)
  {
    RoleRunAnswers(roleReply, replies);
    AskerHears(replayOf, replies);
    SessionRoles(RoleRun(roleReply, replies, 0), roleReply, Asker(replayOf, replies), replayOf, Player(replies, w), replies, draws);
  }

  /** Where a session stands after the rounds so far: for any words drawn
      later, the session is what has been done so far followed by the rounds
      from reply `pos` in `role`. */
  ghost predicate Leads(chosen: RoundEnd<Outcome<Role>>, ask: nat -> RoundEnd<Outcome<Replay>>, play: (Role, string, nat) -> RoundEnd<bool>, replies: seq<string>,
                        drawn: seq<string>, events: seq<Event>, played: seq<Played>, pos: nat, role: Role)
    requires chosen.pos <= |replies| && pos <= |replies| && Questions(ask, |replies|) && Advances(play, |replies|)
  {
    forall later {:trigger Rounds(ask, play, replies, pos, role, later)} ::
      SessionWith(chosen, ask, play, replies, drawn + later) ==
      Join(events, played, Rounds(ask, play, replies, pos, role, later))
  }

  /** The role question either ends the session or leads to the first round. */
  lemma LeadsStart(chosen: RoundEnd<Outcome<Role>>, ask: nat -> RoundEnd<Outcome<Replay>>, play: (Role, string, nat) -> RoundEnd<bool>, replies: seq<string>)
    requires chosen.pos <= |replies| && Questions(ask, |replies|) && Advances(play, |replies|)
    ensures var events := [Play(WaveBehavior), Say(Greeting)] + chosen.events;
      && (chosen.tally.NoReplies? ==> SessionWith(chosen, ask, play, replies, []) == SessionEnd(OutOfReplies, chosen.pos, events, []))
      && (chosen.tally.Quit? ==> SessionWith(chosen, ask, play, replies, []) == SessionEnd(LeftAtRoleChoice, chosen.pos, events + [Leave], []))
      && (chosen.tally.Chosen? ==> Leads(chosen, ask, play, replies, [], events, [], chosen.pos, chosen.tally.choice))
  {
    if chosen.tally.Chosen? {
      forall later
        ensures SessionWith(chosen, ask, play, replies, [] + later) ==
          Join([Play(WaveBehavior), Say(Greeting)] + chosen.events, [], Rounds(ask, play, replies, chosen.pos, chosen.tally.choice, later))
      {
        assert [] + later == later;
      }
    }
  }

  /** One round in `role` drawing the words `t`, then a replay question
      that finds no reply left: the session ends there. */
  lemma LeadsOut(chosen: RoundEnd<Outcome<Role>>, ask: nat -> RoundEnd<Outcome<Replay>>, play: (Role, string, nat) -> RoundEnd<bool>, replies: seq<string>,
                 drawn: seq<string>, events: seq<Event>, played: seq<Played>, pos: nat, role: Role, t: seq<string>)
    requires chosen.pos <= |replies| && pos <= |replies| && Questions(ask, |replies|) && Advances(play, |replies|)
    requires Leads(chosen, ask, play, replies, drawn, events, played, pos, role)
    requires |t| == if role == Matcher then 1 else 0
    requires ask(play(role, Drawing(role, t), pos).pos).tally.NoReplies?
    ensures var round := play(role, Drawing(role, t), pos);
      var replay := ask(round.pos);
      SessionWith(chosen, ask, play, replies, drawn + t) ==
        SessionEnd(OutOfReplies, replay.pos, events + round.events + replay.events, played + [Played(role, pos)])
  {
    var round := play(role, Drawing(role, t), pos);
    var replay := ask(round.pos);
    var r := Rounds(ask, play, replies, pos, role, t);
    assert SessionWith(chosen, ask, play, replies, drawn + t) == Join(events, played, r);
    assert r.events == round.events + replay.events;
    assert events + r.events == events + round.events + replay.events;
  }

  /** One round in `role` drawing the words `t`, then a replay reply meaning
      "stop": the session ends there with the farewell. */
  lemma LeadsStop(chosen: RoundEnd<Outcome<Role>>, ask: nat -> RoundEnd<Outcome<Replay>>, play: (Role, string, nat) -> RoundEnd<bool>, replies: seq<string>,
                  drawn: seq<string>, events: seq<Event>, played: seq<Played>, pos: nat, role: Role, t: seq<string>)
    requires chosen.pos <= |replies| && pos <= |replies| && Questions(ask, |replies|) && Advances(play, |replies|)
    requires Leads(chosen, ask, play, replies, drawn, events, played, pos, role)
    requires |t| == if role == Matcher then 1 else 0
    requires ask(play(role, Drawing(role, t), pos).pos).tally == Chosen(Stop)
    ensures var round := play(role, Drawing(role, t), pos);
      var replay := ask(round.pos);
      SessionWith(chosen, ask, play, replies, drawn + t) ==
        SessionEnd(Stopped, replay.pos, events + round.events + replay.events + [Say(Farewell), Leave], played + [Played(role, pos)])
  {
    var round := play(role, Drawing(role, t), pos);
    var replay := ask(round.pos);
    var r := Rounds(ask, play, replies, pos, role, t);
    assert SessionWith(chosen, ask, play, replies, drawn + t) == Join(events, played, r);
    assert r.events == round.events + replay.events + [Say(Farewell), Leave];
    assert events + r.events == events + round.events + replay.events + [Say(Farewell), Leave];
  }

  /** One round in `role` drawing the words `t`, then a replay reply naming
      role `r`: the session goes on with a round in `r`. */
  lemma LeadsNext(chosen: RoundEnd<Outcome<Role>>, ask: nat -> RoundEnd<Outcome<Replay>>, play: (Role, string, nat) -> RoundEnd<bool>, replies: seq<string>,
                  drawn: seq<string>, events: seq<Event>, played: seq<Played>, pos: nat, role: Role, t: seq<string>, r: Role)
    requires chosen.pos <= |replies| && pos <= |replies| && Questions(ask, |replies|) && Advances(play, |replies|)
    requires Leads(chosen, ask, play, replies, drawn, events, played, pos, role)
    requires |t| == if role == Matcher then 1 else 0
    requires ask(play(role, Drawing(role, t), pos).pos).tally == Chosen(PlayAs(r))
    ensures var round := play(role, Drawing(role, t), pos);
      var replay := ask(round.pos);
      Leads(chosen, ask, play, replies, drawn + t, events + round.events + replay.events, played + [Played(role, pos)], replay.pos, r)
  {
    var round := play(role, Drawing(role, t), pos);
    var replay := ask(round.pos);
    var said := round.events + replay.events;
    forall later
      ensures SessionWith(chosen, ask, play, replies, (drawn + t) + later) ==
        Join(events + said, played + [Played(role, pos)], Rounds(ask, play, replies, replay.pos, r, later))
    {
      assert (drawn + t) + later == drawn + (t + later);
      RoundsThen(ask, play, replies, pos, role, t, later);
      JoinJoin(events, played, said, [Played(role, pos)], Rounds(ask, play, replies, replay.pos, r, later));
    }
    assert events + said == events + round.events + replay.events;
  }

  /** The controller's state across rounds: `LAST_WORD`, the last target of a
      matcher round. */
  class Controller {
    var lastWord: Option<string>

    constructor ()
      ensures lastWord == None
    {
      lastWord := None;
    }

    /** Matcher word selection (main.py:237-242): a word other than the last
        one, drawn in no fixed way, and remembered. */
    method PickTarget() returns (target: string)
      modifies this
      ensures target in Choices(old(lastWord))
      ensures target in TargetWords
      ensures old(lastWord).Some? ==> target != old(lastWord).value
      ensures lastWord == Some(target)
    {
      var choices := Choices(lastWord);
      target :| target in choices;
      lastWord := Some(target);
    }

    /** The matcher round (main.py:235-311). */
    method PlayMatcher(replies: seq<string>, start: nat, w: World) returns (target: string, r: RoundEnd<GuessTally>)
      requires start <= |replies|
      modifies this
      ensures target in TargetWords
      ensures old(lastWord).Some? ==> target != old(lastWord).value
      ensures lastWord == Some(target)
      ensures r == MatcherRound(target, replies, start, w)
    {
      target := PickTarget();
      var opening := [Play(StandBehavior), Say(MatcherIntro), Describe(w.opening(start))];
      var hints := OfferHints(HintAnswerOf, replies, start, w);
      if !HintsDone(hints.tally) {
        return target, RoundEnd(GuessTally(0, false), hints.pos, opening + hints.events);
      }
      var guesses := TakeGuesses(NamesTarget(target), replies, hints.pos);
      var closing: seq<Event> := [];
      if !guesses.tally.guessed && guesses.tally.attempts >= MaxAttempts {
        closing := [Say(TheWordWas(target))];
      }
      r := Prepend(opening + hints.events + [Prompt(AskGuess)], RoundEnd(guesses.tally, guesses.pos, guesses.events + closing));
    }

    /** One round in the given role; a matcher round gives its target. */
    method PlayRound(role: Role, replies: seq<string>, start: nat, w: World) returns (said: seq<Event>, pos: nat, target: Option<string>)
      requires start <= |replies|
      modifies this
      ensures start <= pos <= |replies|
      ensures role == Director ==> target == None && lastWord == old(lastWord)
      ensures role == Matcher ==> target.Some? && target.value in TargetWords && lastWord == target
      ensures role == Matcher && old(lastWord).Some? ==> target.value != old(lastWord).value
      ensures role == Director ==>
        said == DirectorRound(replies, start, w).events && pos == DirectorRound(replies, start, w).pos
      ensures role == Matcher ==>
        && target.Some?
        && said == MatcherRound(target.value, replies, start, w).events
        && pos == MatcherRound(target.value, replies, start, w).pos
    {
      if role == Director {
        var _, round := PlayDirector(replies, start, w);
        return round.events, round.pos, None;
      }
      var word, round := PlayMatcher(replies, start, w);
      return round.events, round.pos, Some(word);
    }

    /** One pass of the session loop (main.py:184-330): a round in `role`
        from reply `pos`, then the replay question. The session either ends
        there or goes on with a round in the role the reply names. */
    method SessionPass(roleReply: string -> RoleReply, replayOf: string -> Option<Replay>, replies: seq<string>, w: World, role: Role, pos: nat,
                       ghost drawn: seq<string>, ghost before: seq<Event>, ghost played: seq<Played>)
      returns (said: seq<Event>, target: Option<string>, replay: RoundEnd<Outcome<Replay>>)
      requires pos <= |replies|
      requires Leads(RoleRun(roleReply, replies, 0), Asker(replayOf, replies), Player(replies, w), replies, drawn, before, played, pos, role)
      modifies this
      ensures role == Director ==> target == None && lastWord == old(lastWord)
      ensures role == Matcher ==> target.Some? && target.value in TargetWords && lastWord == target
      ensures role == Matcher && old(lastWord).Some? ==> target.value != old(lastWord).value
      ensures pos <= replay.pos <= |replies| && !replay.tally.Quit?
      ensures replay.tally.Chosen? ==> pos < replay.pos
      ensures var drawn' := if target.Some? then drawn + [target.value] else drawn;
        var session := SessionWith(RoleRun(roleReply, replies, 0), Asker(replayOf, replies), Player(replies, w), replies, drawn');
        var events := before + said + replay.events;
        var played' := played + [Played(role, pos)];
        && (replay.tally.NoReplies? ==> session == SessionEnd(OutOfReplies, replay.pos, events, played'))
        && (replay.tally == Chosen(Stop) ==> session == SessionEnd(Stopped, replay.pos, events + [Say(Farewell), Leave], played'))
        && (forall r :: replay.tally == Chosen(PlayAs(r)) ==>
              Leads(RoleRun(roleReply, replies, 0), Asker(replayOf, replies), Player(replies, w), replies, drawn', events, played', replay.pos, r))
    {
      var next;
      said, next, target := PlayRound(role, replies, pos, w);
      ghost var t: seq<string> := if target.Some? then [target.value] else [];
      PlayerIs(replies, w, role, t, pos);
      assert drawn + t == if target.Some? then drawn + [target.value] else drawn;
      replay := ChooseReplay(replayOf, replies, next);
      if replay.tally.NoReplies? {
        LeadsOut(RoleRun(roleReply, replies, 0), Asker(replayOf, replies), Player(replies, w), replies, drawn, before, played, pos, role, t);
      } else if replay.tally == Chosen(Stop) {
        LeadsStop(RoleRun(roleReply, replies, 0), Asker(replayOf, replies), Player(replies, w), replies, drawn, before, played, pos, role, t);
      } else if replay.tally.Chosen? && replay.tally.choice.PlayAs? {
        LeadsNext(RoleRun(roleReply, replies, 0), Asker(replayOf, replies), Player(replies, w), replies, drawn, before, played, pos, role, t, replay.tally.choice.role);
      }
    }

    /** The session (main.py:147-332) as the controller runs it: the role
        and replay replies are read by `RoleReplyOf` and `ReplayOf`. */
    method Session(replies: seq<string>, w: World) returns (events: seq<Event>, ending: Ending, targets: seq<string>)
      modifies this
      ensures |events| >= 2 && events[..2] == [Play(WaveBehavior), Say(Greeting)]
      ensures ending == LeftAtRoleChoice ==> events[|events| - 2..] == [Say(Goodbye), Leave]
      ensures ending == Stopped ==> events[|events| - 2..] == [Say(Farewell), Leave]
      ensures Drawn(targets)
      ensures targets != [] && old(lastWord).Some? ==> targets[0] != old(lastWord).value
      ensures lastWord == LastDrawn(old(lastWord), targets)
      ensures var s := SessionRun(RoleReplyOf, ReplayOf, replies, targets, w);
        s.events == events && s.ending == ending && Matchers(s.played) == |targets|
    {
      events, ending, targets := Run(RoleReplyOf, ReplayOf, replies, w);
    }

    /** The session: greeting, role choice, rounds and replays, until the
        person leaves or stops, or the replies run out; `roleReply` and
        `replayOf` read the answers to the role and replay questions.
        `targets` lists the matcher rounds' words in order. */
    method Run(roleReply: string -> RoleReply, replayOf: string -> Option<Replay>, replies: seq<string>, w: World) returns (events: seq<Event>, ending: Ending, targets: seq<string>)
      modifies this
      ensures |events| >= 2 && events[..2] == [Play(WaveBehavior), Say(Greeting)]
      ensures ending == LeftAtRoleChoice ==> events[|events| - 2..] == [Say(Goodbye), Leave]
      ensures ending == Stopped ==> events[|events| - 2..] == [Say(Farewell), Leave]
      ensures Drawn(targets)
      ensures targets != [] && old(lastWord).Some? ==> targets[0] != old(lastWord).value
      ensures lastWord == LastDrawn(old(lastWord), targets)
      ensures var s := SessionRun(roleReply, replayOf, replies, targets, w);
        s.events == events && s.ending == ending && Matchers(s.played) == |targets|
    {
      events := [Play(WaveBehavior), Say(Greeting)];
      var chosen := ChooseRole(roleReply, replies, 0);
      LeadsStart(chosen, Asker(replayOf, replies), Player(replies, w), replies);
      events := events + chosen.events;
      match chosen.tally
      case NoReplies =>
        ending, targets := OutOfReplies, [];
      case Quit =>
        events, ending, targets := events + [Leave], LeftAtRoleChoice, [];
      case Chosen(role) =>
        events, ending, targets := PlayRounds(roleReply, replayOf, replies, w, role, chosen.pos, events);
      SessionFacts(roleReply, replayOf, replies, targets, w);
    }

    /** The session loop once a role is chosen (main.py:166-330): a round in
        the current role, then the replay question, until the person stops or
        the replies run out. The role question at the loop's head asks only
        on the first pass, so it is taken before the loop in `Run`. */
    method PlayRounds(roleReply: string -> RoleReply, replayOf: string -> Option<Replay>, replies: seq<string>, w: World, role: Role, start: nat, opening: seq<Event>)
      returns (events: seq<Event>, ending: Ending, targets: seq<string>)
      requires start <= |replies|
      requires Leads(RoleRun(roleReply, replies, 0), Asker(replayOf, replies), Player(replies, w), replies, [], opening, [], start, role)
      modifies this
      ensures Drawn(targets)
      ensures targets != [] && old(lastWord).Some? ==> targets[0] != old(lastWord).value
      ensures lastWord == LastDrawn(old(lastWord), targets)
      ensures ending != LeftAtRoleChoice
      ensures var s := SessionWith(RoleRun(roleReply, replies, 0), Asker(replayOf, replies), Player(replies, w), replies, targets);
        s.events == events && s.ending == ending && Matchers(s.played) == |targets|
    {
      ghost var played: seq<Played> := [];
      events, targets := opening, [];
      var pos, current := start, role;
      while true
        invariant pos <= |replies|
        invariant Drawn(targets)
        invariant targets != [] && old(lastWord).Some? ==> targets[0] != old(lastWord).value
        invariant lastWord == LastDrawn(old(lastWord), targets)
        invariant Matchers(played) == |targets|
        invariant Leads(RoleRun(roleReply, replies, 0), Asker(replayOf, replies), Player(replies, w), replies, targets, events, played, pos, current)
        decreases |replies| - pos
      {
        var said, target, replay := SessionPass(roleReply, replayOf, replies, w, current, pos, targets, events, played);
        MatchersSnoc(played, Played(current, pos));
        played := played + [Played(current, pos)];
        events, pos := events + said + replay.events, replay.pos;
        if target.Some? {
          DrawnSnoc(targets, target.value);
          LastDrawnSnoc(old(lastWord), targets, target.value);
          targets := targets + [target.value];
        }
        match replay.tally
        case NoReplies =>
          return events, OutOfReplies, targets;
        case Chosen(Stop) =>
          return events + [Say(Farewell), Leave], Stopped, targets;
        case Chosen(PlayAs(r)) =>
          current := r;
      }
    }
  }
}
