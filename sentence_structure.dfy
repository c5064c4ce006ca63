/** The sentence-structure lesson (src/components/SentenceStructure.tsx): ten
    sentence patterns shown one at a time, with Previous, Next and a row of
    dots to move between them, a button that shows or hides the Russian
    translation, and clickable examples. */
module SentenceStructure {
  import opened Common

  /** `sentencePatterns.length`. */
  const PatternCount := 10

  /** The `pattern` field of each entry of `sentencePatterns` (examples,
      explanations and difficulty are only displayed or spoken). */
  function Patterns(): (ps: seq<string>)
    ensures |ps| == PatternCount
  {
    ["My flight number is...",
     "I am traveling to...",
     "My final destination is...",
     "I am staying in a hotel.",
     "I need to check in.",
     "Where is the...?",
     "I have a connecting flight.",
     "Could you help me with...?",
     "My flight is delayed.",
     "I need to change my flight."]
  }

  /** `translations`, keyed by pattern text. */
  function Translations(): map<string, string> {
    map["My flight number is..." := "Мой номер рейса...",
        "I am traveling to..." := "Я путешествую в...",
        "My final destination is..." := "Мой конечный пункт назначения...",
        "I am staying in a hotel." := "Я остановлюсь в отеле.",
        "I need to check in." := "Мне нужно зарегистрироваться.",
        "Where is the...?" := "Где находится...?",
        "I have a connecting flight." := "У меня стыковочный рейс.",
        "Can you help me with...?" := "Можете помочь мне с...?",
        "I would like to..." := "Я хотел бы...",
        "Thank you for your help." := "Спасибо за помощь."]
  }

  /** `translations[pattern]`, `None` where the lookup gives `undefined`. */
  function TranslationOf(pattern: string): (r: Option<string>)
    ensures r.Some? <==> pattern in Translations()
    ensures r.Some? ==> r.value == Translations()[pattern]
  {
    if pattern in Translations() then Some(Translations()[pattern]) else None
  }

  /** The first seven patterns have a translation; the last three are worded
      differently from every key ("Could you" where the key says "Can you",
      and two patterns with no key at all), so their translation box is
      empty. */
  lemma TranslationCoverage(k: nat)
    requires k < PatternCount
    ensures TranslationOf(Patterns()[k]).Some? <==> k < 7
  {
    if k < 7 {
      TranslatedPattern(k);
    } else {
      UntranslatedPattern(k);
    }
  }

  lemma TranslatedPattern(k: nat)
    requires k < 7
    ensures Patterns()[k] in Translations()
  {
  }

  lemma UntranslatedPattern(k: nat)
    requires 7 <= k < PatternCount
    ensures Patterns()[k] !in Translations()
  {
  }

  /** The Previous button: `Math.max(0, currentPattern - 1)`. */
  function PreviousIndex(p: int): int {
    if p - 1 > 0 then p - 1 else 0
  }

  /** The Next button: `Math.min(sentencePatterns.length - 1, currentPattern + 1)`. */
  function NextIndex(p: int): int {
    if p + 1 < PatternCount - 1 then p + 1 else PatternCount - 1
  }

  /** Both buttons keep the index among the patterns, stop at the ends, and
      undo each other away from the ends. */
  lemma NavigationSpec(p: int)
    requires 0 <= p < PatternCount
    ensures 0 <= PreviousIndex(p) < PatternCount && 0 <= NextIndex(p) < PatternCount
    ensures PreviousIndex(p) == (if p == 0 then 0 else p - 1)
    ensures NextIndex(p) == (if p == PatternCount - 1 then p else p + 1)
    ensures p > 0 ==> NextIndex(PreviousIndex(p)) == p
    ensures p < PatternCount - 1 ==> PreviousIndex(NextIndex(p)) == p
  {
  }

  /** The state of the `SentenceStructure` component. */
  class Structure {
    var currentPattern: int
    var selectedExample: string
    var completedPatterns: set<int>
    var showTranslation: bool

    /** The index names a pattern, and so does every completed index. */
    predicate Valid()
      reads this
    {
      0 <= currentPattern < PatternCount &&
      forall p :: p in completedPatterns ==> 0 <= p < PatternCount
    }

    constructor ()
      ensures Valid()
      ensures currentPattern == 0 && selectedExample == "" && completedPatterns == {} && !showTranslation
    {
      currentPattern := 0;
      selectedExample := "";
      completedPatterns := {};
      showTranslation := false;
    }

    /** The translation shown under the current pattern: present exactly for
        the first seven patterns. */
    function CurrentTranslation(): (r: Option<string>)
      reads this
      requires Valid()
      ensures r.Some? <==> currentPattern < 7
      ensures r.Some? ==> r.value == Translations()[Patterns()[currentPattern]]
    {
      TranslationCoverage(currentPattern);
      TranslationOf(Patterns()[currentPattern])
    }

    /** The Previous button. */
    method Previous()
      requires Valid()
      modifies this
      ensures Valid()
      ensures currentPattern == PreviousIndex(old(currentPattern))
      ensures selectedExample == old(selectedExample) && completedPatterns == old(completedPatterns)
      ensures showTranslation == old(showTranslation)
    {
      NavigationSpec(currentPattern);
      currentPattern := PreviousIndex(currentPattern);
    }

    /** The Next button. */
    method Next()
      requires Valid()
      modifies this
      ensures Valid()
      ensures currentPattern == NextIndex(old(currentPattern))
      ensures selectedExample == old(selectedExample) && completedPatterns == old(completedPatterns)
      ensures showTranslation == old(showTranslation)
    {
      NavigationSpec(currentPattern);
      currentPattern := NextIndex(currentPattern);
    }

    /** A progress dot: `setCurrentPattern(index)` for one of the ten dots. */
    method GoToPattern(index: int)
      requires Valid() && 0 <= index < PatternCount
      modifies this
      ensures Valid()
      ensures currentPattern == index
      ensures selectedExample == old(selectedExample) && completedPatterns == old(completedPatterns)
      ensures showTranslation == old(showTranslation)
    {
      currentPattern := index;
    }

    /** The translation button: `setShowTranslation(!showTranslation)`, so
        two presses restore the flag. */
    method ToggleTranslation()
      requires Valid()
      modifies this
      ensures Valid()
      ensures showTranslation == !old(showTranslation)
      ensures currentPattern == old(currentPattern) && selectedExample == old(selectedExample)
      ensures completedPatterns == old(completedPatterns)
    {
      showTranslation := !showTranslation;
    }

    /** `handleExampleClick(example)`: the clicked example becomes the
        highlighted one. */
    method HandleExampleClick(example: string)
      requires Valid()
      modifies this
      ensures Valid()
      ensures selectedExample == example
      ensures currentPattern == old(currentPattern) && completedPatterns == old(completedPatterns)
      ensures showTranslation == old(showTranslation)
    {
      selectedExample := example;
    }

    /** `handlePatternComplete`: add the current index to the completed set. */
    method HandlePatternComplete()
      requires Valid()
      modifies this
      ensures Valid()
      ensures completedPatterns == old(completedPatterns) + {currentPattern}
      ensures old(completedPatterns) <= completedPatterns && currentPattern in completedPatterns
      ensures old(currentPattern in completedPatterns) ==> completedPatterns == old(completedPatterns)
      ensures currentPattern == old(currentPattern) && selectedExample == old(selectedExample)
      ensures showTranslation == old(showTranslation)
    {
      completedPatterns := completedPatterns + {currentPattern};
    }
  }
}
