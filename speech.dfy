// What the robot says (tts.py): cleaning a line before it is spoken, and
// turning a script with `[TAG]` gesture cues into an ordered trace of
// speech, gesture, idle and pause actions.

module Speech {
  import opened Text

  /** The characters both cleaners delete: double quote, single quote, backtick. */
  const Quotes: set<char> := {'"', '\'', '`'}

  /** What the robot does, in order. Pauses are in hundredths of a second. */
  datatype Action = Say(text: string) | Gesture(name: string) | Idle | Pause(hundredths: nat)

  predicate NoQuotes(s: string)
  {
    forall i :: 0 <= i < |s| ==> s[i] !in Quotes
  }

  /** Every character of `Strip(s)` is a character of `s`. */
  lemma StripChars(s: string)
    ensures forall i :: 0 <= i < |Strip(s)| ==> Strip(s)[i] in s
  {
    forall i | 0 <= i < |Strip(s)| ensures Strip(s)[i] in s {
      StripCharAt(s, i);
    }
  }

  /** A non-space character survives collapsing exactly when it was there. */
  lemma CollapseChar(s: string, c: char)
    requires !IsSpace(c)
    ensures c in Collapse(s) <==> c in s
  {
    CollapseKeepsNonSpace(s);
    assert c in KeepOnly(Collapse(s), NonSpace) <==> c in Collapse(s);
    assert c in KeepOnly(s, NonSpace) <==> c in s;
  }

  // ---------------------------------------------------------------------
  // say_text

  /** The cleaning of `say_text` (tts.py:14-17): strip, delete quotes and
      backticks, then collapse whitespace. */
  function CleanSay(text: string): string
  {
    Collapse(RemoveAll(Strip(text), Quotes))
  }

  /** The speaking step of `say_text` (tts.py:19-35) for an already cleaned
      line: nothing at all for a line shorter than two characters; otherwise
      the gesture (when one is given) starts with the line, and a 0.3 s pause
      follows it. */
  function Utter(clean: string, gesture: Option<string>): (actions: seq<Action>)
    ensures |clean| < 2 <==> actions == []
    ensures actions != [] ==>
      && |actions| >= 2
      && actions[|actions| - 2] == Say(clean)
      && actions[|actions| - 1] == Pause(30)
      && (|actions| == 3 <==> gesture.Some? && gesture.value != "")
      && (|actions| == 3 ==> actions[0] == Gesture(gesture.value))
  {
    if |clean| < 2 then []
    else (if gesture.Some? && gesture.value != "" then [Gesture(gesture.value)] else []) + [Say(clean), Pause(30)]
  }

  /** `say_text(session, text, gesture)` (tts.py:11-35): `str(text)` is
      cleaned, then spoken when it is long enough. */
  function SayText(text: Value, gesture: Option<string>): (actions: seq<Action>)
    ensures |CleanSay(Show(text))| < 2 <==> actions == []
    ensures actions != [] ==>
      && |actions| >= 2
      && actions[|actions| - 2] == Say(CleanSay(Show(text)))
      && actions[|actions| - 1] == Pause(30)
      && (|actions| == 3 <==> gesture.Some? && gesture.value != "")
  {
    Utter(CleanSay(Show(text)), gesture)
  }

  /** Collapsing whitespace brings in no quote or backtick. */
  lemma CollapseNoQuotes(x: string)
    requires NoQuotes(x)
    ensures NoQuotes(Collapse(x))
  {
    forall i | 0 <= i < |Collapse(x)| ensures Collapse(x)[i] !in Quotes {
      var c := Collapse(x)[i];
      if c in Quotes {
        CollapseChar(x, c);
      }
    }
  }

  /** The line `say_text` speaks has no quotes or backticks, is trimmed, and
      has single spaces between its words. */
  lemma CleanSayIsClean(text: string)
    ensures SingleSpaced(CleanSay(text)) && NoQuotes(CleanSay(text))
  {
    var x := RemoveAll(Strip(text), Quotes);
    assert NoQuotes(x);
    CollapseSingleSpaced(x);
    CollapseNoQuotes(x);
  }

  /** A character `say_text` keeps: neither whitespace nor a quote. */
  predicate SaidChar(c: char)
  {
    NonSpace(c) && c !in Quotes
  }

  /** Cleaning keeps every character of the line other than whitespace and
      quotes, in order; only whitespace is added, between words. */
  lemma CleanSayKeeps(text: string)
    ensures KeepOnly(CleanSay(text), NonSpace) == KeepOnly(text, SaidChar)
  {
    var x := Strip(text);
    var y := RemoveAll(x, Quotes);
    CollapseKeepsNonSpace(y);
    KeepOnlyBoth(x, NotIn(Quotes), NonSpace, SaidChar);
    KeepOnlyNested(x, NonSpace, SaidChar);
    StripKeepsNonSpace(text);
    KeepOnlyNested(text, NonSpace, SaidChar);
  }

  /** Cleaning a line that was already cleaned changes nothing. */
  lemma CleanSayIdempotent(text: string)
    ensures CleanSay(CleanSay(text)) == CleanSay(text)
  {
    var c := CleanSay(text);
    CleanSayIsClean(text);
    StripTrimmed(c);
    CollapseIdempotent(RemoveAll(Strip(text), Quotes));
  }

  // ---------------------------------------------------------------------
  // The tag tokenizer: re.split(r'(\[[A-Z_]+\])', s)

  predicate TagChar(c: char)
  {
    'A' <= c <= 'Z' || c == '_'
  }

  /** A whole `[A-Z_]+` tag in brackets. */
  predicate IsTag(t: string)
  {
    && |t| >= 3 && t[0] == '[' && t[|t| - 1] == ']'
    && forall i :: 1 <= i < |t| - 1 ==> TagChar(t[i])
  }

  /** The length of the longest prefix of tag characters. */
  function TagRun(s: string): (n: nat)
    ensures n <= |s|
    ensures forall i :: 0 <= i < n ==> TagChar(s[i])
    ensures n < |s| ==> !TagChar(s[n])
  {
    if s == [] || !TagChar(s[0]) then 0 else 1 + TagRun(s[1..])
  }

  /** The tag run is decided by the characters up to its end. */
  lemma {:induction false} TagRunOfPrefix(s: string, n: nat)
    requires n < |s| && !TagChar(s[n])
    requires forall i :: 0 <= i < n ==> TagChar(s[i])
    ensures TagRun(s) == n
  {
    if n > 0 {
      TagRunOfPrefix(s[1..], n - 1);
    }
  }

  /** Whenever `s` starts with a whole tag, the match at its head is that tag. */
  lemma TagLenFinds(s: string, m: nat)
    requires 3 <= m <= |s| && IsTag(s[..m])
    ensures TagLen(s) == m
  {
    assert s[..m][0] == s[0];
    assert s[..m][m - 1] == s[m - 1];
    forall i | 0 <= i < m - 2 ensures TagChar(s[1..][i]) {
      assert s[1..][i] == s[..m][i + 1];
    }
    TagRunOfPrefix(s[1..], m - 2);
  }

  /** The length of the tag match starting at the head of `s`, or 0 when the
      pattern does not match there. */
  function TagLen(s: string): (n: nat)
    ensures n == 0 || (3 <= n <= |s| && IsTag(s[..n]))
  {
    if s == [] || s[0] != '[' then 0
    else
      var k := TagRun(s[1..]);
      if k >= 1 && k + 1 < |s| && s[k + 1] == ']' then k + 2 else 0
  }

  /** A match at the head of `t` stays the same match whatever follows `t`. */
  lemma TagLenOfPrefix(t: string, u: string)
    requires TagLen(t) > 0
    ensures TagLen(t + u) == TagLen(t)
  {
    var k := TagRun(t[1..]);
    var s := t + u;
    assert s[1..][k] == t[k + 1] == ']';
    forall i | 0 <= i < k ensures TagChar(s[1..][i]) {
      assert s[1..][i] == t[1..][i];
    }
    TagRunOfPrefix(s[1..], k);
  }

  /** No tag match starts anywhere inside `p` and ends inside it. */
  predicate NoTagInside(p: string)
  {
    forall j :: 0 <= j < |p| ==> TagLen(p[j..]) == 0
  }

  /** `re.split` with one capturing group: the text between matches and the
      matched tags, alternating, starting and ending with text; matches are
      found left to right and never overlap. */
  function SplitTags(s: string): (parts: seq<string>)
    ensures |parts| % 2 == 1
    decreases |s|
  {
    if s == [] then [""]
    else
      var n := TagLen(s);
      if n > 0 then [""] + [s[..n]] + SplitTags(s[n..])
      else
        var rest := SplitTags(s[1..]);
        [[s[0]] + rest[0]] + rest[1..]
  }

  lemma FlattenCons(ps: seq<string>)
    requires ps != []
    ensures Flatten(ps) == ps[0] + Flatten(ps[1..])
  {
  }

  lemma FlattenTagStep(t: string, rest: seq<string>)
    ensures Flatten([""] + [t] + rest) == t + Flatten(rest)
  {
    var parts := [""] + [t] + rest;
    FlattenCons(parts);
    assert parts[1..] == [t] + rest;
    FlattenCons([t] + rest);
    assert ([t] + rest)[1..] == rest;
  }

  lemma FlattenTextStep(x: string, rest: seq<string>)
    requires rest != []
    ensures Flatten([x + rest[0]] + rest[1..]) == x + Flatten(rest)
  {
    var parts := [x + rest[0]] + rest[1..];
    assert parts[0] == x + rest[0] && parts[1..] == rest[1..];
    FlattenCons(parts);
    FlattenCons(rest);
    AppendAssoc(x, rest[0], Flatten(rest[1..]));
  }

  lemma FlattenTagHead(s: string, n: nat)
    requires 0 < n == TagLen(s) && Flatten(SplitTags(s[n..])) == s[n..]
    ensures Flatten(SplitTags(s)) == s
  {
    FlattenTagStep(s[..n], SplitTags(s[n..]));
    assert s == s[..n] + s[n..];
  }

  lemma FlattenTextHead(s: string)
    requires s != [] && TagLen(s) == 0 && Flatten(SplitTags(s[1..])) == s[1..]
    ensures Flatten(SplitTags(s)) == s
  {
    FlattenTextStep([s[0]], SplitTags(s[1..]));
    assert s == [s[0]] + s[1..];
  }

  /** Nothing is lost or reordered: the pieces put back together are the script. */
  lemma {:induction false} SplitTagsFlatten(s: string)
    ensures Flatten(SplitTags(s)) == s
    decreases |s|
  {
    if s != [] {
      var n := TagLen(s);
      if n > 0 {
        SplitTagsFlatten(s[n..]);
        FlattenTagHead(s, n);
      } else {
        SplitTagsFlatten(s[1..]);
        FlattenTextHead(s);
      }
    }
  }

  /** The pieces at odd positions are whole tags. */
  predicate TagsAtOdd(parts: seq<string>)
  {
    forall i :: 0 <= i < |parts| && i % 2 == 1 ==> IsTag(parts[i])
  }

  /** The pieces at even positions hold no complete tag. */
  predicate TextAtEven(parts: seq<string>)
  {
    forall i :: 0 <= i < |parts| && i % 2 == 0 ==> NoTagInside(parts[i])
  }

  lemma TagsAtOddTag(t: string, rest: seq<string>)
    requires IsTag(t) && TagsAtOdd(rest)
    ensures TagsAtOdd([""] + [t] + rest)
  {
    var parts := [""] + [t] + rest;
    forall i | 0 <= i < |parts| && i % 2 == 1 ensures IsTag(parts[i]) {
      if i > 1 {
        assert parts[i] == rest[i - 2];
      }
    }
  }

  lemma TagsAtOddText(head: string, rest: seq<string>)
    requires rest != [] && TagsAtOdd(rest)
    ensures TagsAtOdd([head] + rest[1..])
  {
    var parts := [head] + rest[1..];
    forall i | 0 <= i < |parts| && i % 2 == 1 ensures IsTag(parts[i]) {
      assert parts[i] == rest[i];
    }
  }

  lemma TextAtEvenTag(t: string, rest: seq<string>)
    requires TextAtEven(rest)
    ensures TextAtEven([""] + [t] + rest)
  {
    var parts := [""] + [t] + rest;
    forall i | 0 <= i < |parts| && i % 2 == 0 ensures NoTagInside(parts[i]) {
      if i >= 2 {
        assert parts[i] == rest[i - 2];
      }
    }
  }

  lemma TextAtEvenText(head: string, rest: seq<string>)
    requires rest != [] && TextAtEven(rest) && NoTagInside(head)
    ensures TextAtEven([head] + rest[1..])
  {
    var parts := [head] + rest[1..];
    forall i | 0 <= i < |parts| && i % 2 == 0 ensures NoTagInside(parts[i]) {
      if i > 0 {
        assert parts[i] == rest[i];
      }
    }
  }

  /** The pieces at odd positions are whole tags. */
  lemma {:induction false} SplitTagsTags(s: string)
    ensures TagsAtOdd(SplitTags(s))
    decreases |s|
  {
    if s != [] {
      var n := TagLen(s);
      if n > 0 {
        SplitTagsTags(s[n..]);
        TagsAtOddTag(s[..n], SplitTags(s[n..]));
      } else {
        SplitTagsTags(s[1..]);
        TagsAtOddText([s[0]] + SplitTags(s[1..])[0], SplitTags(s[1..]));
      }
    }
  }

  /** The first text piece holds no complete tag when no match starts at the
      head of the script. */
  lemma HeadHasNoTag(s: string, rest: seq<string>)
    requires s != [] && TagLen(s) == 0 && rest != []
    requires NoTagInside(rest[0])
    requires s[1..] == Flatten(rest)
    ensures NoTagInside([s[0]] + rest[0])
  {
    var head := [s[0]] + rest[0];
    FlattenCons(rest);
    assert s == head + Flatten(rest[1..]);
    forall j | 0 <= j < |head| ensures TagLen(head[j..]) == 0 {
      if j == 0 {
        if TagLen(head) > 0 {
          TagLenOfPrefix(head, Flatten(rest[1..]));
          assert false;
        }
      } else {
        assert head[j..] == rest[0][j - 1..];
      }
    }
  }

  /** The text pieces hold no complete tag: every tag of the script is split out. */
  lemma {:induction false} SplitTagsText(s: string)
    ensures TextAtEven(SplitTags(s))
    decreases |s|
  {
    if s != [] {
      var n := TagLen(s);
      if n > 0 {
        SplitTagsText(s[n..]);
        TextAtEvenTag(s[..n], SplitTags(s[n..]));
      } else {
        var rest := SplitTags(s[1..]);
        SplitTagsText(s[1..]);
        SplitTagsFlatten(s[1..]);
        HeadHasNoTag(s, rest);
        TextAtEvenText([s[0]] + rest[0], rest);
      }
    }
  }

  // ---------------------------------------------------------------------
  // Cleaning one piece of a script

  predicate IsBracket(c: char)
  {
    c == '[' || c == ']'
  }

  /** The brackets of `s`, in order. */
  function Brackets(s: string): string
  {
    KeepOnly(s, IsBracket)
  }

  /** In a run of brackets, no `[` comes before a `]`. */
  predicate OpensAfterCloses(b: string)
  {
    forall i, j :: 0 <= i < j < |b| ==> !(b[i] == '[' && b[j] == ']')
  }

  /** No `[` is followed, anywhere later, by a `]`: the string holds no
      `[...]` group. */
  predicate NoGroup(s: string)
  {
    OpensAfterCloses(Brackets(s))
  }

  /** The index just past the first `]` of `s`, when there is one. */
  function CloseAfter(s: string): (k: nat)
    requires ']' in s
    ensures 0 < k <= |s| && s[k - 1] == ']' && ']' !in s[..k - 1]
  {
    if s[0] == ']' then 1 else 1 + CloseAfter(s[1..])
  }

  /** `re.sub(r"\[[^\]]*\]", " ", s)`: each `[` that has a `]` after it starts
      a group up to that first `]`, and the group becomes one space. */
  function RemoveGroups(s: string): (r: string)
    ensures forall i :: 0 <= i < |r| ==> r[i] == ' ' || r[i] in s
    ensures '[' !in s ==> r == s
    decreases |s|
  {
    if s == [] then []
    else if s[0] == '[' && ']' in s[1..] then " " + RemoveGroups(s[1..][CloseAfter(s[1..])..])
    else assert s == [s[0]] + s[1..]; [s[0]] + RemoveGroups(s[1..])
  }

  /** The first `]` after a stretch without one is the one that ends it. */
  lemma {:induction false} CloseAfterFirst(g: string, b: string)
    requires ']' !in g
    ensures ']' in g + "]" + b && CloseAfter(g + "]" + b) == |g| + 1
  {
    var t := g + "]" + b;
    assert t[|g|] == ']';
    if g != [] {
      assert t[0] == g[0] && t[1..] == g[1..] + "]" + b;
      CloseAfterFirst(g[1..], b);
    }
  }

  /** Text before the first group is kept as it is, the group becomes one
      space, and the substitution goes on after the group's `]`. */
  lemma {:induction false} RemoveGroupsKeeps(a: string, g: string, b: string)
    requires '[' !in a && ']' !in g
    ensures RemoveGroups(a + "[" + g + "]" + b) == a + " " + RemoveGroups(b)
    decreases |a|
  {
    var s := a + "[" + g + "]" + b;
    if a == [] {
      assert s == "[" + (g + "]" + b);
      assert s[1..] == g + "]" + b;
      CloseAfterFirst(g, b);
      assert s[1..][|g| + 1..] == b;
    } else {
      assert s[0] == a[0] && s[1..] == a[1..] + "[" + g + "]" + b;
      RemoveGroupsKeeps(a[1..], g, b);
    }
  }

  lemma OpensAfterClosesCons(c: char, b: string)
    requires OpensAfterCloses(b)
    requires c == '[' ==> ']' !in b
    ensures OpensAfterCloses([c] + b)
  {
    var cb := [c] + b;
    forall i, j | 0 <= i < j < |cb| ensures !(cb[i] == '[' && cb[j] == ']') {
      assert cb[j] == b[j - 1];
      if i > 0 {
        assert cb[i] == b[i - 1];
      }
    }
  }

  lemma NoGroupCons(c: char, s: string)
    requires NoGroup(s)
    requires c == '[' ==> ']' !in s
    ensures NoGroup([c] + s)
  {
    KeepOnlyConcat([c], s, IsBracket);
    if IsBracket(c) {
      assert Brackets([c]) == [c];
      OpensAfterClosesCons(c, Brackets(s));
    } else {
      assert Brackets([c]) == [];
      assert Brackets([c] + s) == Brackets(s);
    }
  }

  /** After the substitution no group is left. */
  lemma {:induction false} RemoveGroupsNoGroup(s: string)
    ensures NoGroup(RemoveGroups(s))
    decreases |s|
  {
    if s != [] {
      if s[0] == '[' && ']' in s[1..] {
        var t := s[1..][CloseAfter(s[1..])..];
        RemoveGroupsNoGroup(t);
        NoGroupCons(' ', RemoveGroups(t));
      } else {
        var r := RemoveGroups(s[1..]);
        RemoveGroupsNoGroup(s[1..]);
        if s[0] == '[' {
          assert ']' !in r;
        }
        NoGroupCons(s[0], r);
      }
    }
  }

  lemma {:induction false} RemoveAllBrackets(s: string, drop: set<char>)
    requires '[' !in drop && ']' !in drop
    ensures Brackets(RemoveAll(s, drop)) == Brackets(s)
  {
    if s != [] {
      var head := if s[0] in drop then [] else [s[0]];
      KeepOnlyConcat(head, RemoveAll(s[1..], drop), IsBracket);
      KeepOnlyConcat([s[0]], s[1..], IsBracket);
      assert s == [s[0]] + s[1..];
      RemoveAllBrackets(s[1..], drop);
    }
  }

  /** Collapsing whitespace keeps the brackets in order. */
  lemma CollapseKeepsBrackets(s: string)
    ensures Brackets(Collapse(s)) == Brackets(s)
  {
    CollapseKeepsNonSpace(s);
    KeepOnlyNested(Collapse(s), NonSpace, IsBracket);
    KeepOnlyNested(s, NonSpace, IsBracket);
  }

  /** Stripping keeps the brackets in order. */
  lemma StripKeepsBrackets(s: string)
    ensures Brackets(Strip(s)) == Brackets(s)
  {
    StripKeepsNonSpace(s);
    KeepOnlyNested(Strip(s), NonSpace, IsBracket);
    KeepOnlyNested(s, NonSpace, IsBracket);
  }

  /** The cleaning of a text piece (tts.py:60-64): groups become spaces,
      whitespace is collapsed, quotes and backticks are deleted, and the
      result is stripped. */
  function CleanSegment(p: string): string
  {
    Strip(RemoveAll(Collapse(RemoveGroups(p)), Quotes))
  }

  /** Whitespace in `s` is only the plain space. */
  predicate PlainSpaces(s: string)
  {
    forall i :: 0 <= i < |s| && IsSpace(s[i]) ==> s[i] == ' '
  }

  /** What a spoken segment looks like. */
  predicate Speakable(t: string)
  {
    |t| >= 2 && Trimmed(t) && NoQuotes(t) && PlainSpaces(t) && NoGroup(t)
  }

  /** The collapse step: plain spaces, and still no group. */
  lemma CollapseStep(g: string)
    requires NoGroup(g)
    ensures PlainSpaces(Collapse(g)) && NoGroup(Collapse(g))
  {
    CollapseSingleSpaced(g);
    CollapseKeepsBrackets(g);
  }

  /** The quote-deleting step: no quotes, and nothing else is lost. */
  lemma RemoveQuotesStep(x: string)
    requires PlainSpaces(x) && NoGroup(x)
    ensures var y := RemoveAll(x, Quotes);
      NoQuotes(y) && PlainSpaces(y) && NoGroup(y)
  {
    var y := RemoveAll(x, Quotes);
    forall i | 0 <= i < |y| && IsSpace(y[i]) ensures y[i] == ' ' {
      var k :| 0 <= k < |x| && x[k] == y[i];
    }
    RemoveAllBrackets(x, Quotes);
  }

  /** The final strip keeps all of it and trims the ends. */
  lemma StripStep(y: string)
    requires NoQuotes(y) && PlainSpaces(y) && NoGroup(y)
    ensures var c := Strip(y);
      Trimmed(c) && NoQuotes(c) && PlainSpaces(c) && NoGroup(c)
  {
    var c := Strip(y);
    StripChars(y);
    forall i | 0 <= i < |c| ensures c[i] !in Quotes && (IsSpace(c[i]) ==> c[i] == ' ') {
      var k :| 0 <= k < |y| && y[k] == c[i];
    }
    StripKeepsBrackets(y);
  }

  /** A cleaned piece holds no group, no quotes or backticks, no whitespace
      other than plain spaces, and no leading or trailing space. */
  lemma CleanSegmentProperties(p: string)
    ensures var c := CleanSegment(p);
      Trimmed(c) && NoQuotes(c) && PlainSpaces(c) && NoGroup(c)
  {
    var g := RemoveGroups(p);
    RemoveGroupsNoGroup(p);
    CollapseStep(g);
    RemoveQuotesStep(Collapse(g));
    StripStep(RemoveAll(Collapse(g), Quotes));
  }

  // ---------------------------------------------------------------------
  // speak_with_gestures

  /** The pause after a spoken piece of `n` characters, in hundredths of a
      second: 0.04 s per character, clamped to [0.2 s, 1.2 s] (tts.py:78). */
  function PauseFor(n: nat): (h: nat)
    ensures 20 <= h <= 120
    ensures 5 <= n <= 30 ==> h == 4 * n
    ensures n < 5 ==> h == 20
    ensures n > 30 ==> h == 120
  {
    if 4 * n < 20 then 20 else if 4 * n > 120 then 120 else 4 * n
  }

  /** A stripped piece that starts with `[` and ends with `]`. */
  predicate Bracketed(p: string)
  {
    p != [] && p[0] == '[' && p[|p| - 1] == ']'
  }

  /** The gesture key of a bracketed piece (tts.py:54-55): the inside,
      stripped, upper-cased, spaces to underscores, then everything but
      `A-Z` and `_` deleted. */
  function KeyOf(p: string): (key: string)
    requires Bracketed(p)
    ensures forall i :: 0 <= i < |key| ==> TagChar(key[i])
  {
    KeepOnly(ReplaceChar(Upper(Strip(p[1..|p| - 1])), ' ', '_'), TagChar)
  }

  /** What a bracketed piece does: the mapped gesture and a 0.5 s pause, or
      nothing for a key the map lacks. */
  function GestureActions(key: string, gestureMap: map<string, string>): (acts: seq<Action>)
    ensures key in gestureMap <==> acts != []
    ensures acts != [] ==> acts == [Gesture(gestureMap[key]), Pause(50)]
  {
    if key in gestureMap then [Gesture(gestureMap[key]), Pause(50)] else []
  }

  /** What a text piece `p` (stripped, non-empty) does once cleaned to
      `clean`: nothing when shorter than two characters; otherwise it is
      said, the idle gesture may follow, and then a pause. */
  function SpeechActions(clean: string, p: string, idle: bool): (acts: seq<Action>)
    ensures |clean| < 2 <==> acts == []
    ensures acts != [] ==>
      && acts[0] == Say(clean)
      && acts[|acts| - 1] == Pause(PauseFor(|p|))
      && (|acts| == 3 <==> idle)
      && (|acts| == 3 ==> acts[1] == Idle)
  {
    if |clean| < 2 then []
    else [Say(clean)] + (if idle then [Idle] else []) + [Pause(PauseFor(|p|))]
  }

  /** The actions for one piece of the split script (tts.py:50-79); `idle`
      is the outcome of the idle-gesture coin for this piece. */
  function PartActions(part: string, gestureMap: map<string, string>, idle: bool): seq<Action>
  {
    var p := Strip(part);
    if p == [] then []
    else if Bracketed(p) then GestureActions(KeyOf(p), gestureMap)
    else SpeechActions(CleanSegment(p), p, idle)
  }

  /** The actions for a list of pieces, in order: `actOf(part, k)` is what
      the piece at position `k` of the whole list does. */
  function Trace(parts: seq<string>, actOf: (string, nat) -> seq<Action>, at: nat): seq<Action>
    decreases |parts|
  {
    if parts == [] then []
    else actOf(parts[0], at) + Trace(parts[1..], actOf, at + 1)
  }

  /** The script with newlines turned into spaces and whitespace collapsed (tts.py:47). */
  function NormalizeScript(script: string): string
  {
    Collapse(ReplaceChar(script, '\n', ' '))
  }

  /** `speak_with_gestures(session, script, gesture_map, idle_chance)`
      (tts.py:45-79) as the trace of what the robot does; `idle(k)` is the
      outcome of the idle-gesture coin for the piece at position `k`. */
  function SpeakWithGestures(script: string, gestureMap: map<string, string>, idle: nat -> bool): seq<Action>
  {
    Trace(SplitTags(NormalizeScript(script)), (part: string, k: nat) => PartActions(part, gestureMap, idle(k)), 0)
  }

  /** Actions follow the script's order: the trace of two runs of pieces is
      the trace of the first followed by the trace of the second. */
  lemma {:induction false} TraceConcat(a: seq<string>, b: seq<string>, actOf: (string, nat) -> seq<Action>, at: nat)
    ensures Trace(a + b, actOf, at) == Trace(a, actOf, at) + Trace(b, actOf, at + |a|)
    decreases |a|
  {
    if a == [] {
      assert a + b == b;
    } else {
      assert (a + b)[0] == a[0] && (a + b)[1..] == a[1..] + b;
      TraceConcat(a[1..], b, actOf, at + 1);
    }
  }

  /** The key of a well-formed tag is the name between its brackets. */
  lemma KeyOfTag(t: string)
    requires IsTag(t)
    ensures KeyOf(t) == t[1..|t| - 1]
  {
    var name := t[1..|t| - 1];
    forall i | 0 <= i < |name| ensures TagChar(name[i]) && !IsLowerLetter(name[i]) && !IsSpace(name[i]) {
      assert name[i] == t[i + 1];
    }
    var spaced := ReplaceChar(name, ' ', '_');
    forall i | 0 <= i < |name| ensures spaced[i] == name[i] {
      assert name[i] != ' ';
    }
    assert spaced == name;
    assert KeepOnly(name, TagChar) == name;
    UpperIdempotent(name);
    StripTrimmed(name);
  }

  /** A tag piece of the split script plays exactly the mapped gesture of
      its name, or nothing when the name is not in the map. */
  lemma TagPartActions(t: string, gestureMap: map<string, string>, idle: bool)
    requires IsTag(t)
    ensures PartActions(t, gestureMap, idle) == GestureActions(t[1..|t| - 1], gestureMap)
  {
    KeyOfTag(t);
    TagIsStripped(t);
  }

  /** A tag is bracketed and already stripped. */
  lemma TagIsStripped(t: string)
    requires IsTag(t)
    ensures Bracketed(t) && Strip(t) == t
  {
    assert Trimmed(t);
    StripTrimmed(t);
  }

  /** Gestures played are values of the map, and text spoken is speakable. */
  predicate ActionsOk(acts: seq<Action>, gestureMap: map<string, string>)
  {
    forall k :: 0 <= k < |acts| ==>
      && (acts[k].Gesture? ==> acts[k].name in gestureMap.Values)
      && (acts[k].Say? ==> Speakable(acts[k].text))
  }

  lemma SpeechActionsOk(clean: string, p: string, idle: bool, gestureMap: map<string, string>)
    requires Trimmed(clean) && NoQuotes(clean) && PlainSpaces(clean) && NoGroup(clean)
    ensures ActionsOk(SpeechActions(clean, p, idle), gestureMap)
  {
  }

  /** One piece's actions are sound, and a piece whose stripped form starts
      with `[` and ends with `]` is never spoken, even when it is not a
      well-formed tag. */
  lemma PartActionsOk(part: string, gestureMap: map<string, string>, idle: bool)
    ensures ActionsOk(PartActions(part, gestureMap, idle), gestureMap)
    ensures Bracketed(Strip(part)) ==> forall a :: a in PartActions(part, gestureMap, idle) ==> !a.Say?
  {
    var p := Strip(part);
    var acts := PartActions(part, gestureMap, idle);
    if p == [] {
      assert acts == [];
    } else if Bracketed(p) {
      GestureActionsOk(KeyOf(p), gestureMap);
      assert acts == GestureActions(KeyOf(p), gestureMap);
    } else {
      CleanSegmentProperties(p);
      SpeechActionsOk(CleanSegment(p), p, idle, gestureMap);
      assert acts == SpeechActions(CleanSegment(p), p, idle);
    }
  }

  /** A tag's actions play a value of the map and say nothing. */
  lemma GestureActionsOk(key: string, gestureMap: map<string, string>)
    ensures ActionsOk(GestureActions(key, gestureMap), gestureMap)
    ensures forall a :: a in GestureActions(key, gestureMap) ==> !a.Say?
  {
  }

  /** A trace is sound when every piece's actions are. */
  lemma {:induction false} TraceOk(parts: seq<string>, actOf: (string, nat) -> seq<Action>, at: nat,
                                   gestureMap: map<string, string>)
    requires forall part, k :: ActionsOk(actOf(part, k), gestureMap)
    ensures ActionsOk(Trace(parts, actOf, at), gestureMap)
    decreases |parts|
  {
    if parts != [] {
      TraceOk(parts[1..], actOf, at + 1, gestureMap);
      var head := actOf(parts[0], at);
      var tail := Trace(parts[1..], actOf, at + 1);
      var acts: seq<Action> := head + tail;
      assert ActionsOk(head, gestureMap);
      forall k | 0 <= k < |acts|
        ensures acts[k].Gesture? ==> acts[k].name in gestureMap.Values
        ensures acts[k].Say? ==> Speakable(acts[k].text)
      {
        if k >= |head| {
          assert acts[k] == tail[k - |head|];
        } else {
          assert acts[k] == head[k];
        }
      }
    }
  }

  /** Everything the robot does for a script is sound: every gesture is a
      value of the map, and every spoken segment is cleaned. */
  lemma SpeakWithGesturesOk(script: string, gestureMap: map<string, string>, idle: nat -> bool)
    ensures ActionsOk(SpeakWithGestures(script, gestureMap, idle), gestureMap)
  {
    var actOf := (part: string, k: nat) => PartActions(part, gestureMap, idle(k));
    forall part, k ensures ActionsOk(actOf(part, k), gestureMap) {
      PartActionsOk(part, gestureMap, idle(k));
    }
    TraceOk(SplitTags(NormalizeScript(script)), actOf, 0, gestureMap);
  }
}
