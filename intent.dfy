// The intent classifier of the game controller (main.py): turning what the
// recognizer returned into a string, and that string into a game decision.
// Matching is plain substring matching on the lower-cased, stripped text.

module Intent {
  import opened Text

  /** What `normalize_text` may be handed: a single value, or a list/tuple
      of values (a transcript paired with a confidence, say). */
  datatype Recognized = Scalar(v: Value) | Items(vs: seq<Value>)

  datatype Role = Director | Matcher

  datatype Replay = PlayAs(role: Role) | Stop

  /** A plain string, as `listen_text` hands it to the classifiers. */
  function Said(s: string): Recognized
  {
    Scalar(Str(s))
  }

  /** `normalize_text` (main.py:86-93): a list or tuple is replaced by its
      LAST element; `None` gives the empty string; anything else is `str()`-ed. */
  function NormalizeText(t: Recognized): (r: string)
    ensures t == Scalar(Null) || t == Items([]) ==> r == ""
    ensures t.Items? && t.vs != [] ==>
      r == (if t.vs[|t.vs| - 1] == Null then "" else Show(t.vs[|t.vs| - 1]))
    ensures t.Scalar? && t.v != Null ==> r == Show(t.v)
  {
    var v :=
      match t
      case Scalar(v) => v
      case Items(vs) => if vs == [] then Null else vs[|vs| - 1];
    if v.Null? then "" else Show(v)
  }

  /** `normalize_text(text).lower().strip()`, the form every classifier tests. */
  function Canon(t: Recognized): string
  {
    Strip(Lower(NormalizeText(t)))
  }

  const YesWords: set<string> := {"yes", "yeah", "yep", "sure", "ok", "okay", "more", "hint"}
  const NoWords: set<string> := {"no", "nope", "nah", "stop", "quit", "enough", "exit"}

  /** Some keyword of `words` occurs anywhere in `n` (not necessarily as a word). */
  predicate MentionsAny(n: string, words: set<string>)
  {
    exists w :: w in words && Contains(n, w)
  }

  /** A canonical text holding a "yes" word. */
  predicate AsksMore(n: string)
  {
    n != [] && MentionsAny(n, YesWords)
  }

  /** A canonical text holding a "no" word. */
  predicate SaysNo(n: string)
  {
    n != [] && MentionsAny(n, NoWords)
  }

  /** The role a canonical text names, the director cues tested first. */
  function RoleNamed(n: string): Option<Role>
  {
    if Contains(n, "director") || Contains(n, "direct") || Contains(n, "leader") then Some(Director)
    else if Contains(n, "matcher") || Contains(n, "match") then Some(Matcher)
    else if Contains(n, "guesser") || Contains(n, "guess") then Some(Matcher)
    else None
  }

  /** `wants_more_hint` (main.py:70-75) */
  predicate WantsMoreHint(t: Recognized)
  {
    AsksMore(Canon(t))
  }

  /** `wants_no_hint` (main.py:78-83) */
  predicate WantsNoHint(t: Recognized)
  {
    SaysNo(Canon(t))
  }

  /** `parse_role_choice` (main.py:96-104) */
  function ParseRoleChoice(t: Recognized): Option<Role>
  {
    RoleNamed(Canon(t))
  }

  /** `parse_replay_choice` (main.py:107-116): a "no" word means stop, even
      when a role word is present too. */
  function ParseReplayChoice(t: Recognized): Option<Replay>
  {
    var n := Canon(t);
    if n == [] then None
    else if WantsNoHint(Said(n)) then Some(Stop)
    else match ParseRoleChoice(Said(n))
      case Some(role) => Some(PlayAs(role))
      case None => None
  }

  // ---------------------------------------------------------------------
  // Properties

  lemma NormalizeString(s: string)
    ensures NormalizeText(Said(s)) == s
    ensures forall vs: seq<Value> :: NormalizeText(Items(vs + [Str(s)])) == s
  {
  }

  /** The canonical form is a fixed point: classifying it again sees the same text. */
  lemma CanonIdempotent(t: Recognized)
    ensures Canon(Said(Canon(t))) == Canon(t)
  {
    var n := Canon(t);
    var l := Lower(NormalizeText(t));
    assert NoUpper(l);
    LowerOfStrip(l);
    assert Lower(n) == n;
    StripIdempotent(l);
  }

  /** Both keyword tests are false on empty or whitespace-only input. */
  lemma BlankIsNoIntent(t: Recognized)
    requires forall k :: 0 <= k < |NormalizeText(t)| ==> IsSpace(NormalizeText(t)[k])
    ensures !WantsMoreHint(t) && !WantsNoHint(t)
    ensures ParseReplayChoice(t) == None
  {
    var l := Lower(NormalizeText(t));
    StripEmptyIff(l);
  }

  /** Every keyword is non-empty, so the emptiness test in front of the
      keyword search decides nothing: each test holds exactly when one of
      its keywords occurs somewhere in the canonical text. */
  lemma KeywordTests(t: Recognized)
    ensures WantsNoHint(t) <==> exists w :: w in NoWords && Contains(Canon(t), w)
    ensures WantsMoreHint(t) <==> exists w :: w in YesWords && Contains(Canon(t), w)
  {
    var n := Canon(t);
    KeywordsNonEmpty();
    MentionsNonEmpty(n, NoWords);
    MentionsNonEmpty(n, YesWords);
  }

  /** No keyword is empty. */
  lemma KeywordsNonEmpty()
    ensures forall w :: w in NoWords ==> w != []
    ensures forall w :: w in YesWords ==> w != []
  {
  }

  /** Only a non-empty text holds one of a set of non-empty keywords. */
  lemma MentionsNonEmpty(n: string, words: set<string>)
    requires forall w :: w in words ==> w != []
    ensures MentionsAny(n, words) ==> n != []
  {
    if MentionsAny(n, words) {
      var w :| w in words && Contains(n, w);
      ContainsLength(n, w);
    }
  }

  /** A text holding a word holds every prefix of it. */
  lemma HoldsPrefix(n: string, word: string, cue: string)
    requires StartsWith(word, cue) && Contains(n, word)
    ensures Contains(n, cue)
  {
    assert OccursAt(word, cue, 0);
    ContainsAt(word, cue, 0);
    ContainsTransitive(n, word, cue);
  }

  /** The role cues of a canonical text, by their shortest forms: "director"
      holds "direct", "matcher" holds "match" and "guesser" holds "guess". */
  lemma RoleNamedByCues(n: string)
    ensures RoleNamed(n) == Some(Director) <==> Contains(n, "direct") || Contains(n, "leader")
    ensures RoleNamed(n) == Some(Matcher) <==>
      !Contains(n, "direct") && !Contains(n, "leader") && (Contains(n, "match") || Contains(n, "guess"))
    ensures RoleNamed(n) == None <==>
      !Contains(n, "direct") && !Contains(n, "leader") && !Contains(n, "match") && !Contains(n, "guess")
  {
    if Contains(n, "director") { HoldsPrefix(n, "director", "direct"); }
    if Contains(n, "matcher") { HoldsPrefix(n, "matcher", "match"); }
    if Contains(n, "guesser") { HoldsPrefix(n, "guesser", "guess"); }
  }

  /** `parse_role_choice`, stated by its shortest cues. */
  lemma RoleChoiceByCues(t: Recognized)
    ensures var n := Canon(t);
      && (ParseRoleChoice(t) == Some(Director) <==> Contains(n, "direct") || Contains(n, "leader"))
      && (ParseRoleChoice(t) == Some(Matcher) <==>
            !Contains(n, "direct") && !Contains(n, "leader") && (Contains(n, "match") || Contains(n, "guess")))
      && (ParseRoleChoice(t) == None <==>
            !Contains(n, "direct") && !Contains(n, "leader") && !Contains(n, "match") && !Contains(n, "guess"))
  {
    RoleNamedByCues(Canon(t));
  }

  /** No first letter of a role cue occurs. */
  predicate NoCueIn(n: string)
  {
    forall i :: 0 <= i < |n| ==> n[i] != 'd' && n[i] != 'l' && n[i] != 'm' && n[i] != 'g'
  }

  /** Text without any of the cues' first letters names no role. */
  lemma NoCueLetters(n: string)
    requires NoCueIn(n)
    ensures RoleNamed(n) == None
  {
    NotContainsFirstChar(n, "director");
    NotContainsFirstChar(n, "direct");
    NotContainsFirstChar(n, "leader");
    NotContainsFirstChar(n, "matcher");
    NotContainsFirstChar(n, "match");
    NotContainsFirstChar(n, "guesser");
    NotContainsFirstChar(n, "guess");
  }

  /** An utterance holding both a director cue and a matcher cue picks director. */
  lemma DirectorWinsTies(t: Recognized)
    requires Contains(Canon(t), "director")
    ensures ParseRoleChoice(t) == Some(Director)
  {
  }

  /** Replay choice: empty means nothing, a "no" word means stop whatever else
      is said, and otherwise the role parser decides. */
  lemma ReplayChoiceCases(t: Recognized)
    ensures Canon(t) == [] ==> ParseReplayChoice(t) == None
    ensures Canon(t) != [] && WantsNoHint(t) ==> ParseReplayChoice(t) == Some(Stop)
    ensures Canon(t) != [] && !WantsNoHint(t) ==>
      ParseReplayChoice(t) == (match ParseRoleChoice(t) case Some(r) => Some(PlayAs(r)) case None => None)
  {
    var n := Canon(t);
    CanonIdempotent(t);
    assert Canon(Said(n)) == n;
    assert WantsNoHint(Said(n)) == WantsNoHint(t);
    assert ParseRoleChoice(Said(n)) == ParseRoleChoice(t);
  }

  /** The canonical form of text that is already lower-case and trimmed is the text. */
  lemma CanonOfPlain(s: string)
    requires NoUpper(s) && Trimmed(s)
    ensures Canon(Said(s)) == s
  {
    LowerIdempotent(s);
    StripTrimmed(s);
  }

  /** Lower-case, trimmed text is taken as it is. */
  lemma RoleOfPlain(s: string)
    requires NoUpper(s) && Trimmed(s)
    ensures ParseRoleChoice(Said(s)) == RoleNamed(s)
  {
    CanonOfPlain(s);
  }

  /** A lower-case text holding "no" anywhere, whatever surrounds it, wants
      no hint. */
  lemma NoInside(s: string, i: int)
    requires NoUpper(s) && OccursAt(s, "no", i)
    ensures WantsNoHint(Said(s))
  {
    LowerIdempotent(s);
    assert Canon(Said(s)) == Strip(s);
    OccursInStrip(s, "no", i);
    ContainsAt(Strip(s), "no", i - StripStart(s));
    assert "no" in NoWords;
  }
}
