// The robot's speech listener (stt.py): the self-echo filter that tells the
// robot's own voice from the human's, and the polling loop that turns the
// hearing stream's word buffer into one utterance or a timeout.

module Hearing {
  import opened Text

  /** `_MIN_ECHO_LENGTH`: a heard text shorter than this is never taken for a
      fragment of the robot's phrase, so short answers such as "yes" survive. */
  const MinEchoLength: nat := 12

  /** Texts whose lengths differ by this much or more are never echo of each other. */
  const MaxLengthGap: nat := 20

  /** `str(x).lower().strip()` */
  function Fold(s: string): string
  {
    Strip(Lower(s))
  }

  /** The three rules of stt.py:53-61, for a folded heard text `h` and a folded,
      non-empty phrase `p`. */
  predicate EchoOf(h: string, p: string)
  {
    || h == p
    || (Contains(h, p) && |h| - |p| < MaxLengthGap)
    || (Contains(p, h) && |p| - |h| < MaxLengthGap && |h| >= MinEchoLength)
  }

  /** Phrase `phrase` marks the folded heard text `h` as echo: it is not blank
      once folded, and one of the three rules holds. */
  predicate PhraseEcho(h: string, phrase: string)
  {
    var p := Fold(phrase);
    p != [] && EchoOf(h, p)
  }

  /** The loop of stt.py:49-62 over the remaining phrases: the first phrase
      that matches returns true; phrases that fold to "" are skipped. */
  function AnyPhraseEcho(h: string, phrases: seq<string>): bool
  {
    if phrases == [] then false
    else if PhraseEcho(h, phrases[0]) then true
    else AnyPhraseEcho(h, phrases[1..])
  }

  /** `_is_robot_self_heard(heard_text, ignore_phrases)` (stt.py:44-62);
      `None` and an empty list of phrases are both falsy. */
  function IsRobotSelfHeard(heard: string, ignore: Option<seq<string>>): (echo: bool)
    ensures heard == "" ==> !echo
    ensures ignore == None || ignore == Some([]) ==> !echo
  {
    if ignore.None? || ignore.value == [] || heard == "" then false
    else AnyPhraseEcho(Fold(heard), ignore.value)
  }

  lemma {:induction false} AnyPhraseEchoIff(h: string, phrases: seq<string>)
    ensures AnyPhraseEcho(h, phrases) <==> exists i :: 0 <= i < |phrases| && PhraseEcho(h, phrases[i])
    decreases |phrases|
  {
    if phrases != [] {
      AnyPhraseEchoIff(h, phrases[1..]);
      assert forall i :: 0 < i < |phrases| ==> phrases[i] == phrases[1..][i - 1];
    }
  }

  /** The loop with early returns is an existential: the heard text is echo
      exactly when it is non-empty and SOME non-blank phrase matches it by one
      of the three rules. */
  lemma SelfHeardIff(heard: string, ignore: Option<seq<string>>)
    ensures IsRobotSelfHeard(heard, ignore) <==>
      && heard != ""
      && ignore.Some?
      && exists i :: 0 <= i < |ignore.value| && PhraseEcho(Fold(heard), ignore.value[i])
  {
    if ignore.Some? {
      AnyPhraseEchoIff(Fold(heard), ignore.value);
    }
  }

  /** A heard text that folds to something shorter than the minimum is echo
      only by equalling or containing a phrase: being a fragment of the
      robot's prompt is not enough. */
  lemma ShortAnswerNeverFragmentEcho(heard: string, ignore: Option<seq<string>>)
    requires |Fold(heard)| < MinEchoLength
    requires ignore.Some? ==> forall i :: 0 <= i < |ignore.value| ==>
      Fold(heard) != Fold(ignore.value[i]) && !Contains(Fold(heard), Fold(ignore.value[i]))
    ensures !IsRobotSelfHeard(heard, ignore)
  {
    SelfHeardIff(heard, ignore);
  }

  /** A heard text equal, after folding, to some non-blank phrase is echo. */
  lemma ExactPhraseIsEcho(heard: string, phrases: seq<string>, i: int)
    requires 0 <= i < |phrases| && heard != ""
    requires Fold(heard) == Fold(phrases[i]) != []
    ensures IsRobotSelfHeard(heard, Some(phrases))
  {
    SelfHeardIff(heard, Some(phrases));
  }

  // ---------------------------------------------------------------------
  // The word buffer and the listen loop

  /** An entry of the recognizer's word list: a transcript, or a list/tuple
      whose first element is the transcript. */
  datatype Word = Single(v: Value) | Group(items: seq<Value>)

  /** stt.py:88-91: the text of the last buffered entry, stripped; a falsy
      entry gives "". */
  function WordText(w: Word): (text: string)
    ensures Trimmed(text)
  {
    var v :=
      match w
      case Single(v) => v
      case Group(items) => if items == [] then Str("") else items[0];
    if Truthy(v) then Strip(Show(v)) else ""
  }

  /** The hearing stream's buffer (`robot_stt.audio`): the recognized words and
      the flag the recognizer raises when it appends some. */
  class SpeechBuffer {
    var words: seq<Word>
    var newWords: bool

    /** The recognizer raises the flag only when it appends words. */
    ghost predicate Valid()
      reads this
    {
      newWords ==> words != []
    }

    constructor ()
      ensures Valid() && words == [] && !newWords
    {
      words := [];
      newWords := false;
    }

    /** `words = []; new_words = False` */
    method Clear()
      modifies this
      ensures Valid() && words == [] && !newWords
    {
      words := [];
      newWords := false;
    }

    /** The recognizer appending what it heard while the controller slept. */
    method Receive(heard: seq<Word>)
      requires Valid()
      modifies this
      ensures Valid()
      ensures words == old(words) + heard
      ensures newWords == (old(newWords) || heard != [])
    {
      words := words + heard;
      newWords := newWords || heard != [];
    }
  }

  /** The number of half-second polls before `listen_from_robot` gives up:
      the counter is tested after each poll, so there is always one. */
  function Polls(timeoutHalves: int): (n: nat)
    ensures n >= 1 && n >= timeoutHalves
    ensures timeoutHalves >= 1 ==> n == timeoutHalves
    ensures timeoutHalves < 1 ==> n == 1
  {
    if timeoutHalves <= 1 then 1 else timeoutHalves
  }

  /** What the loop makes of the newest buffered entry (stt.py:88-98): its
      text, or `None` when that text is the robot's own voice. */
  function Screen(ignore: Option<seq<string>>, w: Word): (r: Option<string>)
    ensures r.Some? ==> r.value == WordText(w) && !IsRobotSelfHeard(r.value, ignore) && Trimmed(r.value)
    ensures r.None? <==> IsRobotSelfHeard(WordText(w), ignore)
  {
    var text := WordText(w);
    if IsRobotSelfHeard(text, ignore) then None else Some(text)
  }

  /** `Screen` for one list of phrases, as the value the poll loop is given. */
  function Screener(ignore: Option<seq<string>>): Word -> Option<string>
  {
    w => Screen(ignore, w)
  }

  /** What one call of `listen_from_robot` returns, the text ("" when nothing
      usable was heard) and how many half seconds it polled, together with
      the buffer it leaves behind: its words and its flag. */
  datatype Heard = Heard(text: string, waited: nat, left: seq<Word>, raised: bool)

  /** The poll loop of stt.py:76-98 from a given state. `arrivals(k)` is what
      the recognizer appends during the k-th half-second poll, and `screen`
      the echo filter applied to the newest entry (`Screener(ignore)` in the
      program); keeping it a parameter keeps the loop's proofs apart from the
      filter's. */
  function Listen(screen: Word -> Option<string>, timeoutHalves: int, arrivals: nat -> seq<Word>,
                  waited: nat, words: seq<Word>, newWords: bool): Heard
    requires waited < Polls(timeoutHalves)
    requires newWords ==> words != []
    decreases Polls(timeoutHalves) - waited, if newWords then 1 else 0
  {
    if !newWords then
      var heard := arrivals(waited);
      if waited + 1 >= timeoutHalves then Heard("", waited + 1, words + heard, heard != [])
      else Listen(screen, timeoutHalves, arrivals, waited + 1, words + heard, heard != [])
    else
      match screen(words[|words| - 1])
      case None => Listen(screen, timeoutHalves, arrivals, waited, [], false)
      case Some(text) => Heard(text, waited, words, true)
  }

  /** The listener returns "" or what the filter let through from the newest
      entry of the buffer it leaves, and took at most the timeout, at least
      one poll when it started with the flag down. */
  lemma {:induction false} ListenResult(screen: Word -> Option<string>, timeoutHalves: int,
                                        arrivals: nat -> seq<Word>, waited: nat, words: seq<Word>, newWords: bool)
    requires waited < Polls(timeoutHalves)
    requires newWords ==> words != []
    ensures var r := Listen(screen, timeoutHalves, arrivals, waited, words, newWords);
      && (r.text == "" || (r.left != [] && screen(r.left[|r.left| - 1]) == Some(r.text)))
      && waited <= r.waited <= Polls(timeoutHalves)
      && (!newWords ==> waited < r.waited)
    decreases Polls(timeoutHalves) - waited, if newWords then 1 else 0
  {
    if !newWords {
      var heard := arrivals(waited);
      if waited + 1 < timeoutHalves {
        ListenResult(screen, timeoutHalves, arrivals, waited + 1, words + heard, heard != []);
      }
    } else if screen(words[|words| - 1]).None? {
      ListenResult(screen, timeoutHalves, arrivals, waited, [], false);
    }
  }

  /** The buffer the listener leaves: after an answer, the answer is what the
      filter made of its newest entry and the flag is still raised; after a
      timeout, it holds exactly what the last poll brought. This holds from
      any state the loop reaches: an empty buffer with the flag down, or new
      words before the deadline. */
  lemma {:induction false} ListenLeaves(screen: Word -> Option<string>, timeoutHalves: int,
                                        arrivals: nat -> seq<Word>, waited: nat, words: seq<Word>, newWords: bool)
    requires waited < Polls(timeoutHalves)
    requires newWords ==> words != [] && 1 <= waited < timeoutHalves
    requires !newWords ==> words == []
    ensures var r := Listen(screen, timeoutHalves, arrivals, waited, words, newWords);
      && 1 <= r.waited
      && (r.waited < timeoutHalves ==>
            r.raised && r.left != [] && screen(r.left[|r.left| - 1]) == Some(r.text))
      && (r.waited >= timeoutHalves ==> r.text == "" && r.left == arrivals(r.waited - 1))
    decreases Polls(timeoutHalves) - waited, if newWords then 1 else 0
  {
    if !newWords {
      var heard := arrivals(waited);
      assert words + heard == heard;
      if waited + 1 < timeoutHalves {
        ListenLeaves(screen, timeoutHalves, arrivals, waited + 1, heard, heard != []);
      }
    } else if screen(words[|words| - 1]).None? {
      ListenLeaves(screen, timeoutHalves, arrivals, waited, [], false);
    }
  }

  /** `screen` lets through only the stripped text of an entry that is not
      the robot's own voice. */
  ghost predicate Filters(screen: Word -> Option<string>, ignore: Option<seq<string>>)
  {
    forall w :: screen(w).Some? ==>
      screen(w).value == WordText(w) && !IsRobotSelfHeard(screen(w).value, ignore) && Trimmed(screen(w).value)
  }

  /** The program's echo filter is such a filter. */
  lemma ScreenerFilters(ignore: Option<seq<string>>)
    ensures Filters(Screener(ignore), ignore)
  {
    forall w ensures Screener(ignore)(w) == Screen(ignore, w) {
    }
  }

  /** The listener from a cleared buffer, with such a filter: its text is
      never the robot's own voice and is stripped; it polled between once and
      the timeout; after an answer, the answer is the text of the buffer's
      newest entry and the flag is still raised; after a timeout, the buffer
      holds what the last poll brought. */
  lemma ListenAnswer(ignore: Option<seq<string>>, screen: Word -> Option<string>,
                     timeoutHalves: int, arrivals: nat -> seq<Word>)
    requires Filters(screen, ignore)
    ensures var r := Listen(screen, timeoutHalves, arrivals, 0, [], false);
      && !IsRobotSelfHeard(r.text, ignore) && Trimmed(r.text)
      && 1 <= r.waited <= Polls(timeoutHalves)
      && (r.waited < timeoutHalves ==>
            r.raised && r.left != [] && WordText(r.left[|r.left| - 1]) == r.text)
      && (r.waited >= timeoutHalves ==> r.text == "" && r.left == arrivals(r.waited - 1))
  {
    ListenResult(screen, timeoutHalves, arrivals, 0, [], false);
    ListenLeaves(screen, timeoutHalves, arrivals, 0, [], false);
  }

  /** Silence until the deadline gives "" after exactly the timeout, and
      leaves the buffer as it was. */
  lemma {:induction false} SilenceTimesOut(screen: Word -> Option<string>, timeoutHalves: int,
                                           arrivals: nat -> seq<Word>, waited: nat, words: seq<Word>)
    requires waited < Polls(timeoutHalves)
    requires forall k :: waited <= k < Polls(timeoutHalves) ==> arrivals(k) == []
    ensures Listen(screen, timeoutHalves, arrivals, waited, words, false) == Heard("", Polls(timeoutHalves), words, false)
    decreases Polls(timeoutHalves) - waited
  {
    assert words + arrivals(waited) == words;
    if waited + 1 < timeoutHalves {
      SilenceTimesOut(screen, timeoutHalves, arrivals, waited + 1, words);
    }
  }

  /** An echo is dropped without spending time: when the robot's own phrase
      arrives in one poll and the human's answer in the next, the answer is
      returned after two polls, and is the buffer's only entry. */
  lemma EchoThenAnswer(ignore: Option<seq<string>>, timeoutHalves: int, arrivals: nat -> seq<Word>,
                       echo: Word, answer: Word)
    requires timeoutHalves > 2
    requires arrivals(0) == [echo] && arrivals(1) == [answer]
    requires IsRobotSelfHeard(WordText(echo), ignore)
    requires !IsRobotSelfHeard(WordText(answer), ignore)
    ensures Listen(Screener(ignore), timeoutHalves, arrivals, 0, [], false) == Heard(WordText(answer), 2, [answer], true)
  {
    var screen := Screener(ignore);
    assert screen(echo) == None;
    assert screen(answer) == Some(WordText(answer));
    assert Listen(screen, timeoutHalves, arrivals, 0, [], false)
        == Listen(screen, timeoutHalves, arrivals, 1, [echo], true);
    assert Listen(screen, timeoutHalves, arrivals, 1, [echo], true)
        == Listen(screen, timeoutHalves, arrivals, 1, [], false);
    assert Listen(screen, timeoutHalves, arrivals, 1, [], false)
        == Listen(screen, timeoutHalves, arrivals, 2, [answer], true);
  }

  /** One half-second poll of `listen_from_robot` (stt.py:78-85) with the
      flag down: the recognizer's words land in the buffer, and the loop
      either goes on from there or gives up at the deadline. */
  method Poll(stt: SpeechBuffer, timeoutHalves: int, screen: Word -> Option<string>,
              arrivals: nat -> seq<Word>, waited: nat)
    requires stt.Valid() && !stt.newWords
    requires waited < Polls(timeoutHalves)
    modifies stt
    ensures stt.Valid()
    ensures stt.words == old(stt.words) + arrivals(waited) && stt.newWords == (arrivals(waited) != [])
    ensures Listen(screen, timeoutHalves, arrivals, waited, old(stt.words), false) ==
      if waited + 1 >= timeoutHalves then Heard("", waited + 1, stt.words, stt.newWords)
      else Listen(screen, timeoutHalves, arrivals, waited + 1, stt.words, stt.newWords)
  {
    stt.Receive(arrivals(waited));
  }

  /** The newest buffered entry of `listen_from_robot` (stt.py:86-98): echo
      empties the buffer and the loop goes on; anything else is the answer,
      and the buffer is left as it is. */
  method Inspect(stt: SpeechBuffer, timeoutHalves: int, screen: Word -> Option<string>,
                 arrivals: nat -> seq<Word>, waited: nat) returns (text: string, echo: bool)
    requires stt.Valid() && stt.newWords
    requires waited < Polls(timeoutHalves)
    modifies stt
    ensures stt.Valid()
    ensures echo ==> stt.words == [] && !stt.newWords
    ensures !echo ==> stt.words == old(stt.words) && stt.newWords
    ensures Listen(screen, timeoutHalves, arrivals, waited, old(stt.words), true) ==
      if echo then Listen(screen, timeoutHalves, arrivals, waited, [], false)
      else Heard(text, waited, stt.words, true)
  {
    var words := stt.words;
    match screen(words[|words| - 1]) {
      case None =>
        text, echo := "", true;
        stt.Clear();
      case Some(t) =>
        text, echo := t, false;
    }
  }

  /** The poll loop of `listen_from_robot` (stt.py:76-98) on a cleared
      buffer: what it returns and the buffer it leaves are exactly what
      `Listen` describes. */
  method Await(stt: SpeechBuffer, timeoutHalves: int, screen: Word -> Option<string>,
               arrivals: nat -> seq<Word>) returns (text: string, waited: nat)
    requires stt.Valid() && stt.words == [] && !stt.newWords
    modifies stt
    ensures stt.Valid()
    ensures Listen(screen, timeoutHalves, arrivals, 0, [], false) == Heard(text, waited, stt.words, stt.newWords)
  {
    waited := 0;
    ghost var goal := Listen(screen, timeoutHalves, arrivals, 0, [], false);
    while true
      invariant stt.Valid()
      invariant waited < Polls(timeoutHalves)
      invariant Listen(screen, timeoutHalves, arrivals, waited, stt.words, stt.newWords) == goal
      decreases Polls(timeoutHalves) - waited, if stt.newWords then 1 else 0
    {
      if !stt.newWords {
        Poll(stt, timeoutHalves, screen, arrivals, waited);
        waited := waited + 1;
        if waited >= timeoutHalves {
          return "", waited;
        }
        continue;
      }
      var echo;
      text, echo := Inspect(stt, timeoutHalves, screen, arrivals, waited);
      if !echo {
        return text, waited;
      }
    }
  }

  /** `listen_from_robot(session, robot_stt, timeout_seconds, ignore_phrases)`
      (stt.py:65-98). The timeout is counted in half seconds; `grace` is what
      the recognizer appends during the two-second grace sleep and `arrivals(k)`
      what it appends during the k-th half-second poll. The text, the time
      waited and the buffer left behind are exactly what `Listen` describes
      from a cleared buffer: after an answer, the answer is the text of the
      buffer's newest entry and the flag is still raised; after a timeout,
      the buffer holds what the last poll brought. */
  method ListenFromRobot(stt: SpeechBuffer, timeoutHalves: int, ignore: Option<seq<string>>,
                         grace: seq<Word>, arrivals: nat -> seq<Word>) returns (text: string, waited: nat)
    modifies stt
    ensures stt.Valid()
    ensures Listen(Screener(ignore), timeoutHalves, arrivals, 0, [], false) == Heard(text, waited, stt.words, stt.newWords)
    ensures !IsRobotSelfHeard(text, ignore) && Trimmed(text)
    ensures 1 <= waited <= Polls(timeoutHalves)
    ensures waited < timeoutHalves ==>
      stt.newWords && stt.words != [] && WordText(stt.words[|stt.words| - 1]) == text
    ensures waited >= timeoutHalves ==> text == "" && stt.words == arrivals(waited - 1)
  {
    // stale words from before the call are dropped
    stt.Clear();
    // grace period: whatever the robot's own speech leaves is dropped as well
    stt.Receive(grace);
    stt.Clear();
    text, waited := Await(stt, timeoutHalves, Screener(ignore), arrivals);
    ScreenerFilters(ignore);
    ListenAnswer(ignore, Screener(ignore), timeoutHalves, arrivals);
  }
}
