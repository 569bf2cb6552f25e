// String primitives shared by the dialogue controller: the ASCII subset of
// Python's str.lower/str.upper/str.strip/str.split/`in`, and the dynamic
// values a speech recognizer may hand back.

module Text {

  datatype Option<T> = None | Some(value: T)

  /** A Python value as far as the controller looks at it: `None`, a `str`,
      or any other object, known by what `str()` prints for it and by its
      truthiness (`0`, `0.0`, `[]` and `False` are falsy). */
  datatype Value = Null | Str(s: string) | Obj(repr: string, truthy: bool)

  /** `str(v)` */
  function Show(v: Value): string
  {
    match v
    case Null => "None"
    case Str(s) => s
    case Obj(repr, _) => repr
  }

  /** `bool(v)` */
  predicate Truthy(v: Value)
  {
    match v
    case Null => false
    case Str(s) => s != []
    case Obj(_, t) => t
  }

  // ---------------------------------------------------------------------
  // Characters

  /** The ASCII characters Python's str.isspace() accepts: \t \n \v \f \r,
      the separators 0x1C-0x1F, and the space. */
  predicate IsSpace(c: char)
  {
    9 <= c as int <= 13 || 28 <= c as int <= 32
  }

  predicate IsUpper(c: char) { 'A' <= c <= 'Z' }

  predicate IsLowerLetter(c: char) { 'a' <= c <= 'z' }

  function LowerChar(c: char): (d: char)
    ensures !IsUpper(d)
    ensures IsSpace(d) <==> IsSpace(c)
    ensures !IsUpper(c) ==> d == c
  {
    if IsUpper(c) then (c as int + 32) as char else c
  }

  function UpperChar(c: char): (d: char)
    ensures !IsLowerLetter(d)
    ensures IsSpace(d) <==> IsSpace(c)
    ensures !IsLowerLetter(c) ==> d == c
  {
    if IsLowerLetter(c) then (c as int - 32) as char else c
  }

  /** str.lower() on ASCII letters */
  function Lower(s: string): (r: string)
    ensures |r| == |s|
    ensures forall i :: 0 <= i < |s| ==> r[i] == LowerChar(s[i])
  {
    seq(|s|, i requires 0 <= i < |s| => LowerChar(s[i]))
  }

  /** str.upper() on ASCII letters */
  function Upper(s: string): (r: string)
    ensures |r| == |s|
    ensures forall i :: 0 <= i < |s| ==> r[i] == UpperChar(s[i])
  {
    seq(|s|, i requires 0 <= i < |s| => UpperChar(s[i]))
  }

  predicate NoUpper(s: string)
  {
    forall i :: 0 <= i < |s| ==> !IsUpper(s[i])
  }

  lemma LowerIdempotent(s: string)
    requires NoUpper(s)
    ensures Lower(s) == s
  {
  }

  predicate NoLower(s: string)
  {
    forall i :: 0 <= i < |s| ==> !IsLowerLetter(s[i])
  }

  lemma UpperIdempotent(s: string)
    requires NoLower(s)
    ensures Upper(s) == s
  {
  }

  // ---------------------------------------------------------------------
  // Stripping

  /** The length of the leading run of whitespace. */
  function LeadingSpaces(s: string): (n: nat)
    ensures n <= |s|
    ensures forall k :: 0 <= k < n ==> IsSpace(s[k])
    ensures n < |s| ==> !IsSpace(s[n])
  {
    if s == [] || !IsSpace(s[0]) then 0 else 1 + LeadingSpaces(s[1..])
  }

  /** The length of `s` without its trailing run of whitespace. */
  function TextEnd(s: string): (n: nat)
    ensures n <= |s|
    ensures forall k :: n <= k < |s| ==> IsSpace(s[k])
    ensures n > 0 ==> !IsSpace(s[n - 1])
  {
    if s == [] || !IsSpace(s[|s| - 1]) then |s| else TextEnd(s[..|s| - 1])
  }

  /** str.lstrip(): drops the leading run of whitespace, nothing else. */
  function LStrip(s: string): (r: string)
    ensures |r| <= |s| && r == s[|s| - |r|..]
    ensures forall k :: 0 <= k < |s| - |r| ==> IsSpace(s[k])
    ensures r != [] ==> !IsSpace(r[0])
  {
    s[LeadingSpaces(s)..]
  }

  /** str.rstrip(): drops the trailing run of whitespace, nothing else. */
  function RStrip(s: string): (r: string)
    ensures |r| <= |s| && r == s[..|r|]
    ensures forall k :: |r| <= k < |s| ==> IsSpace(s[k])
    ensures r != [] ==> !IsSpace(r[|r| - 1])
  {
    s[..TextEnd(s)]
  }

  predicate Trimmed(s: string)
  {
    s != [] ==> !IsSpace(s[0]) && !IsSpace(s[|s| - 1])
  }

  /** Where str.strip()'s result begins in `s`. */
  function StripStart(s: string): nat
  {
    |s| - |LStrip(s)|
  }

  /** `s[i..][..n]` is `s[i..i + n]`. */
  lemma SliceOfSuffix(s: string, i: nat, n: nat)
    requires i + n <= |s|
    ensures s[i..][..n] == s[i..i + n]
  {
    var a, b := s[i..][..n], s[i..i + n];
    forall k | 0 <= k < n ensures a[k] == b[k] {
      assert a[k] == s[i + k];
    }
  }

  /** str.strip() */
  function Strip(s: string): (r: string)
    ensures Trimmed(r)
    ensures StripStart(s) + |r| <= |s| && r == s[StripStart(s)..StripStart(s) + |r|]
  {
    StripParts(s);
    RStrip(LStrip(s))
  }

  /** Stripping the right end keeps the left end trimmed, and the result
      is a slice of `s`. */
  lemma StripParts(s: string)
    ensures var l := LStrip(s); var r := RStrip(l);
      && Trimmed(r)
      && |s| - |l| + |r| <= |s| && r == s[|s| - |l|..|s| - |l| + |r|]
  {
    var l := LStrip(s);
    var r := RStrip(l);
    SliceOfSuffix(s, |s| - |l|, |r|);
    if r != [] {
      assert r[0] == l[0];
    }
  }

  /** The k-th character of `Strip(s)`, found in `s`. */
  lemma StripCharAt(s: string, k: nat)
    requires k < |Strip(s)|
    ensures StripStart(s) + k < |s| && Strip(s)[k] == s[StripStart(s) + k]
  {
  }

  lemma StripEmptyIff(s: string)
    ensures Strip(s) == [] <==> forall k :: 0 <= k < |s| ==> IsSpace(s[k])
  {
    if Strip(s) != [] {
      StripCharAt(s, 0);
    }
  }

  /** A piece that begins and ends with non-space characters and occurs in
      `s` survives stripping, at the same place relative to the kept part. */
  lemma OccursInStrip(s: string, sub: string, i: int)
    requires OccursAt(s, sub, i) && sub != []
    requires !IsSpace(sub[0]) && !IsSpace(sub[|sub| - 1])
    ensures OccursAt(Strip(s), sub, i - StripStart(s))
  {
    var l := LStrip(s);
    var r := RStrip(l);
    var a := |s| - |l|;
    assert s[i] == sub[0];
    var e := i + |sub| - 1;
    assert s[e] == sub[|sub| - 1];
    assert l[e - a] == s[e];
    forall k | 0 <= k < |sub| ensures r[i - a + k] == sub[k] {
      assert s[i + k] == sub[k];
      assert r[i - a + k] == l[i - a + k] == s[i + k];
    }
    assert r[i - a..i - a + |sub|] == sub;
  }

  lemma StripTrimmed(s: string)
    requires Trimmed(s)
    ensures Strip(s) == s
  {
  }

  lemma StripIdempotent(s: string)
    ensures Strip(Strip(s)) == Strip(s)
  {
    StripTrimmed(Strip(s));
  }

  lemma LowerOfStrip(s: string)
    requires NoUpper(s)
    ensures NoUpper(Strip(s)) && Lower(Strip(s)) == Strip(s)
  {
    forall k | 0 <= k < |Strip(s)| ensures !IsUpper(Strip(s)[k]) {
      StripCharAt(s, k);
    }
  }

  // ---------------------------------------------------------------------
  // Substrings

  predicate StartsWith(s: string, prefix: string)
  {
    |prefix| <= |s| && s[..|prefix|] == prefix
  }

  predicate OccursAt(s: string, sub: string, i: int)
  {
    0 <= i <= |s| - |sub| && s[i..i + |sub|] == sub
  }

  /** Python's `sub in s`; the empty string occurs in every string. */
  predicate Contains(s: string, sub: string)
    decreases |s|
  {
    StartsWith(s, sub) || (s != [] && Contains(s[1..], sub))
  }

  lemma SliceOfTail(s: string, i: int, n: int)
    requires 1 <= i && 0 <= n && i + n <= |s|
    ensures s[1..][i - 1..i - 1 + n] == s[i..i + n]
  {
    var a, b := s[1..][i - 1..i - 1 + n], s[i..i + n];
    forall k | 0 <= k < n ensures a[k] == b[k] {
      assert s[1..][i - 1 + k] == s[i + k];
    }
  }

  lemma {:induction false} ContainsIff(s: string, sub: string)
    ensures Contains(s, sub) <==> exists i :: OccursAt(s, sub, i)
    decreases |s|
  {
    if StartsWith(s, sub) {
      assert OccursAt(s, sub, 0);
    } else if s == [] {
      assert sub != [];
    } else {
      ContainsIff(s[1..], sub);
      if Contains(s[1..], sub) {
        var i :| OccursAt(s[1..], sub, i);
        SliceOfTail(s, i + 1, |sub|);
        assert OccursAt(s, sub, i + 1);
      } else {
        forall i | OccursAt(s, sub, i) ensures OccursAt(s[1..], sub, i - 1) {
          assert i != 0;
          SliceOfTail(s, i, |sub|);
        }
      }
    }
  }

  lemma ContainsLength(s: string, sub: string)
    requires Contains(s, sub)
    ensures |sub| <= |s|
  {
    ContainsIff(s, sub);
  }

  lemma ContainsAt(s: string, sub: string, i: int)
    requires OccursAt(s, sub, i)
    ensures Contains(s, sub)
  {
    ContainsIff(s, sub);
  }

  lemma ContainsSuffix(x: string, y: string)
    ensures Contains(x + y, y)
  {
    assert (x + y)[|x|..|x| + |y|] == y;
    ContainsAt(x + y, y, |x|);
  }

  /** A string lacking the first character of `sub` does not contain `sub`. */
  lemma NotContainsFirstChar(s: string, sub: string)
    requires sub != []
    requires forall i :: 0 <= i < |s| ==> s[i] != sub[0]
    ensures !Contains(s, sub)
  {
    ContainsIff(s, sub);
    forall i | 0 <= i <= |s| - |sub| ensures !OccursAt(s, sub, i) {
      assert s[i..i + |sub|][0] == s[i];
    }
  }

  /** `a in s` and `b in a` give `b in s`. */
  lemma ContainsTransitive(s: string, a: string, b: string)
    requires Contains(s, a) && Contains(a, b)
    ensures Contains(s, b)
  {
    ContainsIff(s, a);
    ContainsIff(a, b);
    var i :| OccursAt(s, a, i);
    var j :| OccursAt(a, b, j);
    forall k | 0 <= k < |b| ensures s[i + j..i + j + |b|][k] == b[k] {
      assert b[k] == a[j + k] == s[i + j + k];
    }
    assert s[i + j..i + j + |b|] == b;
    ContainsAt(s, b, i + j);
  }

  // ---------------------------------------------------------------------
  // Words: str.split() with no argument, and " ".join(...)

  predicate NoSpace(w: string)
  {
    forall i :: 0 <= i < |w| ==> !IsSpace(w[i])
  }

  predicate AreWords(ws: seq<string>)
  {
    forall k :: 0 <= k < |ws| ==> ws[k] != [] && NoSpace(ws[k])
  }

  /** The longest prefix of `s` holding no whitespace. */
  function TakeWord(s: string): (w: string)
    ensures StartsWith(s, w) && NoSpace(w)
    ensures |w| < |s| ==> IsSpace(s[|w|])
  {
    if s == [] || IsSpace(s[0]) then [] else [s[0]] + TakeWord(s[1..])
  }

  /** str.split(): the maximal runs of non-whitespace, in order. */
  function Words(s: string): (ws: seq<string>)
    ensures AreWords(ws)
    decreases |s|
  {
    var t := LStrip(s);
    if t == [] then [] else
      var w := TakeWord(t);
      assert w != [] by {
        assert !IsSpace(t[0]);
      }
      var rest := Words(t[|w|..]);
      AreWordsCons(w, rest);
      [w] + rest
  }

  lemma AreWordsCons(w: string, ws: seq<string>)
    requires w != [] && NoSpace(w) && AreWords(ws)
    ensures AreWords([w] + ws)
  {
    var all := [w] + ws;
    forall k | 0 <= k < |all| ensures all[k] != [] && NoSpace(all[k]) {
      if k > 0 {
        assert all[k] == ws[k - 1];
      }
    }
  }

  /** " ".join(ws) */
  function JoinSpaces(ws: seq<string>): string
  {
    if ws == [] then []
    else if |ws| == 1 then ws[0]
    else ws[0] + " " + JoinSpaces(ws[1..])
  }

  /** " ".join(s.split()): every run of whitespace becomes one space and the
      ends are trimmed. */
  function Collapse(s: string): string
  {
    JoinSpaces(Words(s))
  }

  /** Whitespace only as single ' ' characters strictly between other characters. */
  predicate SingleSpaced(s: string)
  {
    && Trimmed(s)
    && (forall i :: 0 <= i < |s| && IsSpace(s[i]) ==> s[i] == ' ')
    && (forall i :: 0 <= i < |s| - 1 ==> !(IsSpace(s[i]) && IsSpace(s[i + 1])))
  }

  lemma TakeWordOfJoin(w: string, rest: string)
    requires w != [] && NoSpace(w)
    requires rest == [] || IsSpace(rest[0])
    ensures TakeWord(w + rest) == w
    decreases |w|
  {
    var s := w + rest;
    assert s[0] == w[0];
    assert TakeWord(s) == [s[0]] + TakeWord(s[1..]);
    if |w| == 1 {
      assert s[1..] == rest;
    } else {
      assert s[1..] == w[1..] + rest;
      TakeWordOfJoin(w[1..], rest);
      assert w == [w[0]] + w[1..];
    }
  }

  lemma WordsAfterSpace(s: string)
    requires s != [] && IsSpace(s[0])
    ensures Words(s) == Words(s[1..])
  {
  }

  lemma WordsCons(w: string, rest: string)
    requires w != [] && NoSpace(w)
    requires rest == [] || IsSpace(rest[0])
    ensures Words(w + rest) == [w] + Words(rest)
  {
    var s := w + rest;
    assert s[0] == w[0];
    assert LStrip(s) == s;
    TakeWordOfJoin(w, rest);
    assert s[|w|..] == rest;
  }

  lemma JoinSpacesCons(ws: seq<string>)
    requires |ws| > 1
    ensures JoinSpaces(ws) == ws[0] + (" " + JoinSpaces(ws[1..]))
  {
    AppendAssoc(ws[0], " ", JoinSpaces(ws[1..]));
  }

  /** A word, a space, then more text: the word comes first. */
  lemma WordsOfSpaced(w: string, tail: string)
    requires w != [] && NoSpace(w)
    ensures Words(w + (" " + tail)) == [w] + Words(tail)
  {
    var rest := " " + tail;
    WordsCons(w, rest);
    assert rest[1..] == tail;
    WordsAfterSpace(rest);
  }

  lemma WordsOfJoinStep(ws: seq<string>)
    requires AreWords(ws) && |ws| > 1
    requires Words(JoinSpaces(ws[1..])) == ws[1..]
    ensures Words(JoinSpaces(ws)) == ws
  {
    JoinSpacesCons(ws);
    WordsOfSpaced(ws[0], JoinSpaces(ws[1..]));
    assert [ws[0]] + ws[1..] == ws;
  }

  lemma WordsOfWord(w: string)
    requires w != [] && NoSpace(w)
    ensures Words(w) == [w]
  {
    WordsCons(w, []);
    assert w + [] == w;
  }

  /** Splitting a joined list of words gives the words back. */
  lemma {:induction false} WordsOfJoin(ws: seq<string>)
    requires AreWords(ws)
    ensures Words(JoinSpaces(ws)) == ws
    decreases |ws|
  {
    if |ws| == 1 {
      WordsOfWord(ws[0]);
      assert [ws[0]] == ws;
    } else if |ws| > 1 {
      WordsOfJoin(ws[1..]);
      WordsOfJoinStep(ws);
    }
  }

  lemma {:induction false} JoinSingleSpaced(ws: seq<string>)
    requires AreWords(ws)
    ensures SingleSpaced(JoinSpaces(ws))
    decreases |ws|
  {
    if |ws| > 1 {
      JoinSingleSpaced(ws[1..]);
      var w := ws[0];
      var t := JoinSpaces(ws[1..]);
      var s := w + " " + t;
      assert s == JoinSpaces(ws);
      assert t != [] by { assert ws[1] != []; JoinStartsWithFirst(ws[1..]); }
      forall i | 0 <= i < |s| && IsSpace(s[i]) ensures s[i] == ' ' {
        if i > |w| { assert s[i] == t[i - |w| - 1]; }
      }
      forall i | 0 <= i < |s| - 1 ensures !(IsSpace(s[i]) && IsSpace(s[i + 1])) {
        if i > |w| { assert s[i] == t[i - |w| - 1] && s[i + 1] == t[i - |w|]; }
        else if i == |w| { assert s[i + 1] == t[0]; }
        else if i == |w| - 1 { assert s[i] == w[i]; }
        else { assert s[i] == w[i]; }
      }
      assert s[|s| - 1] == t[|t| - 1];
    }
  }

  lemma {:induction false} JoinStartsWithFirst(ws: seq<string>)
    requires ws != []
    ensures StartsWith(JoinSpaces(ws), ws[0])
  {
    if |ws| > 1 {
      assert JoinSpaces(ws) == ws[0] + (" " + JoinSpaces(ws[1..]));
    }
  }

  lemma CollapseSingleSpaced(s: string)
    ensures SingleSpaced(Collapse(s))
  {
    JoinSingleSpaced(Words(s));
  }

  /** Collapsing twice is collapsing once. */
  lemma CollapseIdempotent(s: string)
    ensures Collapse(Collapse(s)) == Collapse(s)
  {
    WordsOfJoin(Words(s));
  }

  // ---------------------------------------------------------------------
  // Character removal and replacement

  /** The test that holds of the characters outside `drop`. */
  function NotIn(drop: set<char>): char -> bool
  {
    c => c !in drop
  }

  /** Removes every character in `drop` (a chain of str.replace(c, '')). */
  function RemoveAll(s: string, drop: set<char>): (r: string)
    ensures forall i :: 0 <= i < |r| ==> r[i] !in drop && r[i] in s
    ensures (forall i :: 0 <= i < |s| ==> s[i] !in drop) ==> r == s
    ensures r == KeepOnly(s, NotIn(drop))
  {
    if s == [] then []
    else (if s[0] in drop then [] else [s[0]]) + RemoveAll(s[1..], drop)
  }

  /** str.replace(a, b) for single characters */
  function ReplaceChar(s: string, a: char, b: char): (r: string)
    ensures |r| == |s|
    ensures forall i :: 0 <= i < |s| ==> r[i] == (if s[i] == a then b else s[i])
  {
    seq(|s|, i requires 0 <= i < |s| => if s[i] == a then b else s[i])
  }

  /** Keeps only the characters satisfying `keep` (re.sub(r"[^...]", "", s)). */
  function KeepOnly(s: string, keep: char -> bool): (r: string)
    ensures forall i :: 0 <= i < |r| ==> keep(r[i])
    ensures forall c :: c in r <==> c in s && keep(c)
    ensures (forall i :: 0 <= i < |s| ==> keep(s[i])) ==> r == s
  {
    if s == [] then []
    else (if keep(s[0]) then [s[0]] else []) + KeepOnly(s[1..], keep)
  }

  lemma {:induction false} KeepOnlyConcat(a: string, b: string, keep: char -> bool)
    ensures KeepOnly(a + b, keep) == KeepOnly(a, keep) + KeepOnly(b, keep)
  {
    if a == [] {
      assert a + b == b;
    } else {
      assert (a + b)[0] == a[0] && (a + b)[1..] == a[1..] + b;
      KeepOnlyConcat(a[1..], b, keep);
    }
  }

  /** Filtering by a weaker test first changes nothing. */
  lemma {:induction false} KeepOnlyNested(s: string, p: char -> bool, q: char -> bool)
    requires forall c :: q(c) ==> p(c)
    ensures KeepOnly(KeepOnly(s, p), q) == KeepOnly(s, q)
  {
    if s != [] {
      var head := if p(s[0]) then [s[0]] else [];
      KeepOnlyConcat(head, KeepOnly(s[1..], p), q);
      KeepOnlyNested(s[1..], p, q);
    }
  }

  /** Filtering by one test and then another is filtering by both. */
  lemma {:induction false} KeepOnlyBoth(s: string, p: char -> bool, q: char -> bool, both: char -> bool)
    requires forall c :: both(c) == (p(c) && q(c))
    ensures KeepOnly(KeepOnly(s, p), q) == KeepOnly(s, both)
  {
    if s != [] {
      var head := if p(s[0]) then [s[0]] else [];
      KeepOnlyConcat(head, KeepOnly(s[1..], p), q);
      KeepOnlyBoth(s[1..], p, q, both);
    }
  }

  // ---------------------------------------------------------------------
  // What whitespace handling leaves alone

  predicate NonSpace(c: char)
  {
    !IsSpace(c)
  }

  lemma AppendAssoc<T>(a: seq<T>, b: seq<T>, c: seq<T>)
    ensures (a + b) + c == a + (b + c)
  {
  }

  /** The concatenation of a sequence of strings. */
  function Flatten(ss: seq<string>): string
  {
    if ss == [] then [] else ss[0] + Flatten(ss[1..])
  }

  lemma DropsAllSpaces(s: string)
    requires forall i :: 0 <= i < |s| ==> IsSpace(s[i])
    ensures KeepOnly(s, NonSpace) == []
  {
    if KeepOnly(s, NonSpace) != [] {
      assert KeepOnly(s, NonSpace)[0] in KeepOnly(s, NonSpace);
    }
  }

  /** Dropping a leading run of whitespace keeps the non-space characters. */
  lemma KeepNonSpaceLStrip(s: string)
    ensures KeepOnly(LStrip(s), NonSpace) == KeepOnly(s, NonSpace)
  {
    var t := LStrip(s);
    var pre := s[..|s| - |t|];
    assert s == pre + t;
    KeepOnlyConcat(pre, t, NonSpace);
    DropsAllSpaces(pre);
  }

  /** Dropping a trailing run of whitespace keeps the non-space characters. */
  lemma KeepNonSpaceRStrip(s: string)
    ensures KeepOnly(RStrip(s), NonSpace) == KeepOnly(s, NonSpace)
  {
    var r := RStrip(s);
    var post := s[|r|..];
    assert s == r + post;
    KeepOnlyConcat(r, post, NonSpace);
    DropsAllSpaces(post);
  }

  lemma KeepNonSpaceTakeWord(t: string)
    ensures KeepOnly(t, NonSpace) == TakeWord(t) + KeepOnly(t[|TakeWord(t)|..], NonSpace)
  {
    var w := TakeWord(t);
    assert t == w + t[|w|..];
    KeepOnlyConcat(w, t[|w|..], NonSpace);
  }

  /** The non-space characters of a string are its words, in order. */
  lemma {:induction false} KeepNonSpaceWords(s: string)
    ensures KeepOnly(s, NonSpace) == Flatten(Words(s))
    decreases |s|
  {
    var t := LStrip(s);
    KeepNonSpaceLStrip(s);
    if t != [] {
      var w := TakeWord(t);
      var rest := t[|w|..];
      KeepNonSpaceTakeWord(t);
      KeepNonSpaceWords(rest);
      assert Words(s) == [w] + Words(rest);
    }
  }

  lemma JoinCons(ws: seq<string>)
    requires |ws| > 1
    ensures JoinSpaces(ws) == ws[0] + (" " + JoinSpaces(ws[1..]))
  {
  }

  lemma KeepNonSpaceSpace(tail: string)
    ensures KeepOnly(" " + tail, NonSpace) == KeepOnly(tail, NonSpace)
  {
    KeepOnlyConcat(" ", tail, NonSpace);
    DropsAllSpaces(" ");
  }

  lemma KeepNonSpaceJoinStep(ws: seq<string>)
    requires AreWords(ws) && |ws| > 1
    ensures KeepOnly(JoinSpaces(ws), NonSpace) == ws[0] + KeepOnly(JoinSpaces(ws[1..]), NonSpace)
  {
    var w, tail := ws[0], JoinSpaces(ws[1..]);
    JoinCons(ws);
    KeepOnlyConcat(w, " " + tail, NonSpace);
    KeepNonSpaceSpace(tail);
    assert NoSpace(w);
  }

  lemma {:induction false} KeepNonSpaceJoin(ws: seq<string>)
    requires AreWords(ws)
    ensures KeepOnly(JoinSpaces(ws), NonSpace) == Flatten(ws)
  {
    if |ws| == 1 {
      assert Flatten(ws) == ws[0] + Flatten([]);
    } else if |ws| > 1 {
      KeepNonSpaceJoinStep(ws);
      KeepNonSpaceJoin(ws[1..]);
    }
  }

  /** Collapsing whitespace keeps every other character, in order. */
  lemma CollapseKeepsNonSpace(s: string)
    ensures KeepOnly(Collapse(s), NonSpace) == KeepOnly(s, NonSpace)
  {
    KeepNonSpaceWords(s);
    KeepNonSpaceJoin(Words(s));
  }

  /** Stripping keeps every non-space character, in order. */
  lemma StripKeepsNonSpace(s: string)
    ensures KeepOnly(Strip(s), NonSpace) == KeepOnly(s, NonSpace)
  {
    KeepNonSpaceLStrip(s);
    KeepNonSpaceRStrip(LStrip(s));
  }
}
