// Concrete utterances and what the classifiers of main.py make of them.

module Scenarios {
  import opened Text
  import opened Intent

  // Raw substring matching: "know", "piano" and "another" all hold "no".

  lemma IDontKnowMeansNo()
    ensures WantsNoHint(Said("i don't know"))
  {
    NoInside("i don't know", 9);
  }

  lemma PianoMeansNo()
    ensures WantsNoHint(Said("piano"))
  {
    NoInside("piano", 3);
  }

  lemma AnotherHintMeansNo()
    ensures WantsNoHint(Said("another hint"))
  {
    NoInside("another hint", 1);
  }

  lemma DirectorExample()
    ensures ParseRoleChoice(Said("i'll be the director")) == Some(Director)
  {
    var x, y := "i'll be the ", "director";
    assert x + y == "i'll be the director";
    ContainsSuffix(x, y);
    CanonOfPlain(x + y);
  }

  lemma GuesserExample()
    ensures ParseRoleChoice(Said("i want to be the guesser")) == Some(Matcher)
  {
    var x, y := "i want to be the ", "guesser";
    assert x + y == "i want to be the guesser";
    ContainsSuffix(x, y);
    CanonOfPlain(x + y);
    GuesserLacksDirectorCues();
    RoleChoiceByCues(Said(x + y));
  }

  lemma GuesserLacksDirectorCues()
    ensures !Contains("i want to be the guesser", "leader")
    ensures !Contains("i want to be the guesser", "direct")
  {
    var s := "i want to be the guesser";
    forall i | 0 <= i < |s| ensures s[i] != 'l' && s[i] != 'd' {}
    NotContainsFirstChar(s, "leader");
    NotContainsFirstChar(s, "direct");
  }

  lemma BananaExample()
    ensures ParseRoleChoice(Said("banana")) == None
  {
    var c := "banana";
    assert NoUpper(c) && Trimmed(c) && NoCueIn(c) by {
      forall i | 0 <= i < |c| ensures c[i] in "ban" {}
    }
    NoCueLetters(c);
    RoleOfPlain(c);
  }
}
