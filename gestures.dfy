// The robot's gesture names (gestures.py): the fixed name tables, the set of
// behaviours the robot reports it can play, and how a wanted behaviour name
// is resolved against that set, by keywords when the exact name is missing.

module Gestures {
  import opened Text

  /** `GESTURE_MAP`: script tags to behaviour names. */
  const GestureMap: map<string, string> := map[
    "WAVE" := "BlocklyWaveRightArm",
    "STAND" := "BlocklyStand",
    "NOD" := "BlocklyBow",
    "LOOK_DOWN" := "BlocklyLookAtChild"
  ]

  /** `IDLE_GESTURES`: what `play_idle` picks from. */
  const IdleGestures: seq<string> := ["BlocklyLookAtChild", "BlocklyLookingUp", "BlocklyShrug", "BlocklyWaveRightArm"]

  const HeadScratch: string := "BlocklyTouchHead"
  const ShakeHead: string := "BlocklyShrug"
  const Celebrate: string := "BlocklyApplause"

  /** `_fallback_keywords`: for each fallback key, the keywords a substitute
      behaviour name should contain. */
  const FallbackKeywords: map<string, seq<string>> := map[
    "HEAD_SCRATCH" := ["touch", "head"],
    "SHAKE_HEAD" := ["shrug"],
    "CELEBRATE" := ["applause", "clap", "cheer", "dance"],
    "WAVE" := ["wave"],
    "NOD" := ["bow"],
    "LOOK_DOWN" := ["look", "child", "down"],
    "STAND" := ["stand", "standup", "stand_up"]
  ]

  /** What the robot's behaviour-info call gives back: it fails, or it gives a
      reply whose "behaviors" and "list" entries may be missing. */
  datatype BehaviorInfo = CallFailed | Info(behaviors: Option<seq<Value>>, list: Option<seq<Value>>)

  /** A missing entry and an empty list are both falsy. */
  predicate Given(entry: Option<seq<Value>>)
  {
    entry.Some? && entry.value != []
  }

  /** `info.get("behaviors") or info.get("list") or []` */
  function Listed(info: BehaviorInfo): (vs: seq<Value>)
    requires info.Info?
    ensures Given(info.behaviors) ==> vs == info.behaviors.value
    ensures !Given(info.behaviors) && Given(info.list) ==> vs == info.list.value
    ensures !Given(info.behaviors) && !Given(info.list) ==> vs == []
  {
    if Given(info.behaviors) then info.behaviors.value
    else if Given(info.list) then info.list.value
    else []
  }

  /** The set `init_gestures` builds (gestures.py:37-46): the string entries of
      the listed behaviours, or the empty set when the call fails. */
  function BehaviorNames(info: BehaviorInfo): (names: set<string>)
    ensures info.CallFailed? ==> names == {}
    ensures info.Info? ==> forall n :: n in names <==> Str(n) in Listed(info)
  {
    if info.CallFailed? then {}
    else set v | v in Listed(info) && v.Str? :: v.s
  }

  /** `all(key in name.lower() for key in keywords)` */
  predicate HasAll(name: string, keywords: seq<string>)
  {
    forall k :: 0 <= k < |keywords| ==> Contains(Lower(name), keywords[k])
  }

  /** `any(key in name.lower() for key in keywords)` */
  predicate HasAny(name: string, keywords: seq<string>)
  {
    exists k :: 0 <= k < |keywords| && Contains(Lower(name), keywords[k])
  }

  /** Every fallback entry lists at least one keyword and no empty one. */
  lemma FallbackKeywordsNonEmpty(key: string)
    requires key in FallbackKeywords
    ensures FallbackKeywords[key] != []
    ensures forall k :: 0 <= k < |FallbackKeywords[key]| ==> FallbackKeywords[key][k] != []
  {
  }

  /** A name holding some non-empty keyword is itself non-empty. */
  lemma KeywordNameNonEmpty(name: string, keywords: seq<string>)
    requires forall k :: 0 <= k < |keywords| ==> keywords[k] != []
    requires HasAny(name, keywords)
    ensures name != []
  {
    var k :| 0 <= k < |keywords| && Contains(Lower(name), keywords[k]);
    ContainsLength(Lower(name), keywords[k]);
  }

  /** With at least one keyword, holding all of them means holding one. */
  lemma AllImpliesAny(name: string, keywords: seq<string>)
    requires keywords != [] && HasAll(name, keywords)
    ensures HasAny(name, keywords)
  {
    assert Contains(Lower(name), keywords[0]);
  }

  /** The module state `_available_behaviors`: `None` until the behaviour
      info has been fetched. */
  class Registry {
    var available: Option<set<string>>

    constructor ()
      ensures available == None
    {
      available := None;
    }

    /** `init_gestures(session)`, with the call's outcome as `info`. */
    method InitGestures(info: BehaviorInfo)
      modifies this
      ensures available == Some(BehaviorNames(info))
    {
      available := Some(BehaviorNames(info));
    }

    /** `_resolve_by_keywords(keywords)` (gestures.py:49-60): a name holding
        every keyword wins over one holding some; the set is visited in no
        fixed order. */
    method ResolveByKeywords(keywords: seq<string>) returns (r: Option<string>)
      ensures available.None? || available.value == {} ==> r == None
      ensures r.Some? ==> available.Some? && r.value in available.value
      ensures r.Some? ==> HasAll(r.value, keywords) || HasAny(r.value, keywords)
      ensures available.Some? && (exists n :: n in available.value && HasAll(n, keywords)) ==>
        r.Some? && HasAll(r.value, keywords)
      ensures r.None? <==>
        available.None? || forall n :: n in available.value ==> !HasAll(n, keywords) && !HasAny(n, keywords)
    {
      if available.None? || available.value == {} {
        return None;
      }
      var names := available.value;
      var rest := names;
      while rest != {}
        invariant rest <= names
        invariant forall n :: n in names - rest ==> !HasAll(n, keywords)
        decreases rest
      {
        var n :| n in rest;
        if HasAll(n, keywords) {
          return Some(n);
        }
        rest := rest - {n};
      }
      rest := names;
      while rest != {}
        invariant rest <= names
        invariant forall n :: n in names ==> !HasAll(n, keywords)
        invariant forall n :: n in names - rest ==> !HasAny(n, keywords)
        decreases rest
      {
        var n :| n in rest;
        if HasAny(n, keywords) {
          return Some(n);
        }
        rest := rest - {n};
      }
      return None;
    }

    /** `resolve_behavior(name, fallback_key)` (gestures.py:63-72). */
    method ResolveBehavior(name: string, fallbackKey: Option<string>) returns (r: string)
      ensures available.None? ==> r == name
      ensures available.Some? && name in available.value ==> r == name
      ensures r == name || (available.Some? && r in available.value)
      ensures fallbackKey.None? || fallbackKey.value !in FallbackKeywords ==> r == name
      ensures r != name ==> HasAny(r, FallbackKeywords[fallbackKey.value])
      ensures available.Some? && name !in available.value && fallbackKey.Some? && fallbackKey.value in FallbackKeywords ==>
        var keywords := FallbackKeywords[fallbackKey.value];
        && ((exists n :: n in available.value && HasAny(n, keywords)) ==> r in available.value && HasAny(r, keywords))
        && ((exists n :: n in available.value && HasAll(n, keywords)) ==> r in available.value && HasAll(r, keywords))
        && ((forall n :: n in available.value ==> !HasAny(n, keywords)) ==> r == name)
    {
      if available.None? {
        return name;
      }
      if name in available.value {
        return name;
      }
      if fallbackKey.Some? && fallbackKey.value != "" && fallbackKey.value in FallbackKeywords {
        var keywords := FallbackKeywords[fallbackKey.value];
        FallbackKeywordsNonEmpty(fallbackKey.value);
        var replacement := ResolveByKeywords(keywords);
        if replacement.Some? {
          if HasAll(replacement.value, keywords) {
            AllImpliesAny(replacement.value, keywords);
          }
          KeywordNameNonEmpty(replacement.value, keywords);
        }
        if replacement.Some? && replacement.value != "" {
          return replacement.value;
        }
        forall n | n in available.value && HasAll(n, keywords) ensures HasAny(n, keywords) {
          AllImpliesAny(n, keywords);
        }
      }
      return name;
    }

    /** `play_behavior(session, name, fallback_key)` (gestures.py:75-84): the
        behaviour info is fetched on first use, and the resolved name is the
        one played. */
    method PlayBehavior(info: BehaviorInfo, name: string, fallbackKey: Option<string>) returns (played: string)
      modifies this
      ensures old(available).Some? ==> available == old(available)
      ensures old(available).None? ==> available == Some(BehaviorNames(info))
      ensures available.Some?
      ensures name in available.value ==> played == name
      ensures played == name || played in available.value
      ensures fallbackKey.None? || fallbackKey.value !in FallbackKeywords ==> played == name
      ensures played != name ==> HasAny(played, FallbackKeywords[fallbackKey.value])
      ensures name !in available.value && fallbackKey.Some? && fallbackKey.value in FallbackKeywords ==>
        var keywords := FallbackKeywords[fallbackKey.value];
        && ((exists n :: n in available.value && HasAny(n, keywords)) ==> played in available.value && HasAny(played, keywords))
        && ((exists n :: n in available.value && HasAll(n, keywords)) ==> played in available.value && HasAll(played, keywords))
        && ((forall n :: n in available.value ==> !HasAny(n, keywords)) ==> played == name)
    {
      if available.None? {
        InitGestures(info);
      }
      played := ResolveBehavior(name, fallbackKey);
    }
  }
}
