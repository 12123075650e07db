/** The local feedback synthesizer (`generateFeedback`): five keyword and
    length rules, checked in a fixed order, each add at most one item; when
    none fires, one of three encouraging items is added, chosen by `pick`
    (the source's random index). */
module Feedback {
  import opened Wrappers
  import opened Text

  datatype Kind = Grammar | Vocabulary | Pronunciation | Fluency | Cultural

  datatype FeedbackItem = FeedbackItem(
    kind: Kind,
    title: string,
    content: string,
    suggestion: Option<string>,
    lessonLink: Option<string>)

  /** The rules in the order the source checks them. */
  const RuleOrder: seq<Kind> := [Grammar, Vocabulary, Pronunciation, Fluency, Cultural]

  /** Position of a kind's rule in `RuleOrder`. */
  function Rank(k: Kind): (n: nat)
    ensures n < |RuleOrder| && RuleOrder[n] == k
  {
    match k
    case Grammar => 0
    case Vocabulary => 1
    case Pronunciation => 2
    case Fluency => 3
    case Cultural => 4
  }

  /** The phrases the rules look for in the lower-cased utterance. */
  const PresentMisuse: string := "i am go"
  const SimplePresentGo: string := "i go to"
  const Good: string := "good"
  const Great: string := "great"
  const LetterL: string := "l"
  const LetterR: string := "r"
  const Please: string := "please"
  const Thank: string := "thank"

  /** Utterances shorter than this (in characters) get the fluency item. */
  const ShortUtterance: nat := 10

  lemma RankOfRuleOrder(n: nat)
    requires n < |RuleOrder|
    ensures Rank(RuleOrder[n]) == n
  {
    if n == 0 {} else if n == 1 {} else if n == 2 {} else if n == 3 {} else {}
  }

  /** The condition of each rule. Only the fluency rule looks at the raw
      utterance; the others look at its lower-cased form. */
  predicate Fires(k: Kind, userInput: string)
  {
    var lower := LowerStr(userInput);
    match k
    case Grammar => Contains(lower, PresentMisuse) || Contains(lower, SimplePresentGo)
    case Vocabulary => Contains(lower, Good) && !Contains(lower, Great)
    case Pronunciation => Contains(lower, LetterL) || Contains(lower, LetterR)
    case Fluency => |userInput| < ShortUtterance
    case Cultural => Contains(lower, Please) || Contains(lower, Thank)
  }

  const GrammarItem: FeedbackItem := FeedbackItem(Grammar, "文法修正 Grammar Correction",
    "Present continuous tense should use \"I am going\" instead of \"I am go\"",
    Some("Try: \"I am going to the store\" instead of \"I am go to the store\""),
    Some("/grammar/present-continuous"))
  const VocabularyItem: FeedbackItem := FeedbackItem(Vocabulary, "語彙提案 Vocabulary Suggestion",
    "Consider using more varied adjectives to express positive feelings",
    Some("Instead of \"good\", try: \"excellent\", \"wonderful\", \"fantastic\", or \"amazing\""),
    Some("/vocabulary/adjectives"))
  const PronunciationItem: FeedbackItem := FeedbackItem(Pronunciation, "発音のコツ Pronunciation Tip",
    "Pay attention to L and R sounds - common challenge for Japanese speakers",
    Some("Practice: \"light\" vs \"right\", \"play\" vs \"pray\". Tongue position is key!"),
    Some("/pronunciation/l-r-sounds"))
  const FluencyItem: FeedbackItem := FeedbackItem(Fluency, "流暢さ向上 Fluency Enhancement",
    "Try to elaborate more on your thoughts for better conversation flow",
    Some("Add details like \"because...\", \"for example...\", or \"I think that...\""),
    Some("/fluency/conversation-fillers"))
  const CulturalItem: FeedbackItem := FeedbackItem(Cultural, "文化的コンテキスト Cultural Context",
    "Great use of polite expressions! This shows good cultural awareness",
    Some("In casual settings, you can also use \"thanks\" or \"cheers\" (British)"),
    Some("/culture/politeness-levels"))

  /** The item each rule adds. */
  function RuleItem(k: Kind): (item: FeedbackItem)
    ensures item.kind == k
  {
    match k
    case Grammar => GrammarItem
    case Vocabulary => VocabularyItem
    case Pronunciation => PronunciationItem
    case Fluency => FluencyItem
    case Cultural => CulturalItem
  }

  /** The encouraging items, one of which is given when no rule fires. */
  const PositiveItems: seq<FeedbackItem> := [
    FeedbackItem(Fluency, "素晴らしい！ Excellent!",
      "Your English is clear and natural. Keep up the great work!",
      Some("Continue practicing to build confidence in longer conversations"),
      Some("/progress/confidence-building")),
    FeedbackItem(Vocabulary, "語彙力 Vocabulary Strength",
      "Good word choice! You're using appropriate vocabulary for the context",
      Some("Try incorporating some idiomatic expressions to sound more natural"),
      Some("/vocabulary/idioms")),
    FeedbackItem(Grammar, "文法正確 Grammar Accuracy",
      "Your sentence structure is correct and easy to understand",
      Some("Experiment with more complex sentence patterns when you feel ready"),
      Some("/grammar/complex-sentences"))
  ]

  /** Items are in strictly increasing rule order, so no kind occurs twice. */
  predicate InRuleOrder(items: seq<FeedbackItem>)
  {
    forall i, j :: 0 <= i < j < |items| ==> Rank(items[i].kind) < Rank(items[j].kind)
  }

  /** Reference definition: the items of those of the first `n` rules of
      `RuleOrder` that `fires` selects, in rule order. */
  function FiredBy(fires: Kind -> bool, n: nat): (items: seq<FeedbackItem>)
    requires n <= |RuleOrder|
    ensures |items| <= n
    ensures forall i :: 0 <= i < |items| ==>
      Rank(items[i].kind) < n && items[i] == RuleItem(items[i].kind) && fires(items[i].kind)
  {
    if n == 0 then []
    else
      var k := RuleOrder[n - 1];
      FiredBy(fires, n - 1) + if fires(k) then [RuleItem(k)] else []
  }

  /** Fired items come in strictly increasing rule order. */
  lemma {:induction false} FiredSorted(fires: Kind -> bool, n: nat)
    requires n <= |RuleOrder|
    ensures InRuleOrder(FiredBy(fires, n))
  {
    if n > 0 {
      FiredSorted(fires, n - 1);
      var prev := FiredBy(fires, n - 1);
      var items := FiredBy(fires, n);
      var k := RuleOrder[n - 1];
      assert items == prev + if fires(k) then [RuleItem(k)] else [];
      RankOfRuleOrder(n - 1);
      forall i, j | 0 <= i < j < |items|
        ensures Rank(items[i].kind) < Rank(items[j].kind)
      {
        if j < |prev| {
          assert items[i] == prev[i] && items[j] == prev[j];
          assert Rank(prev[i].kind) < Rank(prev[j].kind);
        } else {
          assert items[i] == prev[i] && items[j] == RuleItem(k);
          assert Rank(prev[i].kind) < n - 1;
          assert Rank(items[j].kind) == n - 1;
        }
      }
    }
  }

  /** Every rule among the first `n` that `fires` selects contributes its item. */
  lemma {:induction false} FiredComplete(fires: Kind -> bool, n: nat, kind: Kind)
    requires Rank(kind) < n <= |RuleOrder| && fires(kind)
    ensures RuleItem(kind) in FiredBy(fires, n)
  {
    if Rank(kind) < n - 1 {
      FiredComplete(fires, n - 1, kind);
    }
  }

  /** A rule's item is among all fired items exactly when `fires` selects it. */
  lemma FiredMembership(fires: Kind -> bool, k: Kind)
    ensures RuleItem(k) in FiredBy(fires, |RuleOrder|) <==> fires(k)
  {
    var fired := FiredBy(fires, |RuleOrder|);
    if fires(k) {
      FiredComplete(fires, |RuleOrder|, k);
    }
    if RuleItem(k) in fired {
      var i :| 0 <= i < |fired| && fired[i] == RuleItem(k);
      assert fires(fired[i].kind);
    }
  }

  /** The rules that fire on an utterance. */
  function FiringOn(userInput: string): Kind -> bool
  {
    k => Fires(k, userInput)
  }

  /** Reference definition of the whole list: the fired rules' items, or the
      encouraging item `pick` when none fires. */
  function FeedbackFor(userInput: string, pick: nat): (items: seq<FeedbackItem>)
    requires pick < |PositiveItems|
    ensures 1 <= |items| <= |RuleOrder|
  {
    var fired := FiredBy(FiringOn(userInput), |RuleOrder|);
    if fired == [] then [PositiveItems[pick]] else fired
  }

  /** `generateFeedback(userInput)`: the list is built by successive appends,
      one guarded append per rule, as in the source. */
  method GenerateFeedback(userInput: string, pick: nat) returns (feedback: seq<FeedbackItem>)
    requires pick < |PositiveItems|
    ensures feedback == FeedbackFor(userInput, pick)
  {
    ghost var fires := FiringOn(userInput);
    var lower := LowerStr(userInput);
    feedback := [];
    if Contains(lower, PresentMisuse) || Contains(lower, SimplePresentGo) {
      feedback := feedback + [GrammarItem];
    }
    assert feedback == FiredBy(fires, 1);
    if Contains(lower, Good) && !Contains(lower, Great) {
      feedback := feedback + [VocabularyItem];
    }
    assert feedback == FiredBy(fires, 2);
    if Contains(lower, LetterL) || Contains(lower, LetterR) {
      feedback := feedback + [PronunciationItem];
    }
    assert feedback == FiredBy(fires, 3);
    if |userInput| < ShortUtterance {
      feedback := feedback + [FluencyItem];
    }
    assert feedback == FiredBy(fires, 4);
    if Contains(lower, Please) || Contains(lower, Thank) {
      feedback := feedback + [CulturalItem];
    }
    assert feedback == FiredBy(fires, 5);
    if |feedback| == 0 {
      feedback := feedback + [PositiveItems[pick]];
    }
  }

  /** No encouraging item is the item of a rule. */
  lemma PositiveNotRuleItem(pick: nat, k: Kind)
    requires pick < |PositiveItems|
    ensures PositiveItems[pick] != RuleItem(k)
  {
    var p := PositiveItems[pick];
    if p.kind == k {
      assert p.title[2] != RuleItem(k).title[2] || p.title[0] != RuleItem(k).title[0];
    }
  }

  /** A rule's item is in the list exactly when that rule fires. */
  lemma FeedbackMembership(userInput: string, pick: nat, k: Kind)
    requires pick < |PositiveItems|
    ensures RuleItem(k) in FeedbackFor(userInput, pick) <==> Fires(k, userInput)
  {
    PositiveNotRuleItem(pick, k);
    FiredMembership(FiringOn(userInput), k);
  }

  /** The encouraging item is given exactly when no rule fires, and then it is
      the only item. */
  lemma FeedbackFallback(userInput: string, pick: nat)
    requires pick < |PositiveItems|
    ensures (forall k :: !Fires(k, userInput)) <==> FeedbackFor(userInput, pick) == [PositiveItems[pick]]
  {
    var fired := FiredBy(FiringOn(userInput), |RuleOrder|);
    if fired != [] {
      assert Fires(fired[0].kind, userInput);
    }
    if exists k :: Fires(k, userInput) {
      var k :| Fires(k, userInput);
      FiredMembership(FiringOn(userInput), k);
      PositiveNotRuleItem(pick, k);
    }
  }

  /** Items come in rule order, so each kind appears at most once; when some
      rule fires every item is that of a firing rule. */
  lemma FeedbackOrdered(userInput: string, pick: nat)
    requires pick < |PositiveItems|
    ensures InRuleOrder(FeedbackFor(userInput, pick))
    ensures (exists k :: Fires(k, userInput)) ==>
      var fb := FeedbackFor(userInput, pick);
      forall i :: 0 <= i < |fb| ==> fb[i] == RuleItem(fb[i].kind) && Fires(fb[i].kind, userInput)
  {
    FiredSorted(FiringOn(userInput), |RuleOrder|);
    if exists k :: Fires(k, userInput) {
      var k :| Fires(k, userInput);
      FiredComplete(FiringOn(userInput), |RuleOrder|, k);
    }
  }

  /** A two-letter greeting gets the fluency item, whatever else fires. */
  lemma ShortUtteranceExample(pick: nat)
    requires pick < |PositiveItems|
    ensures FluencyItem in FeedbackFor("Hi", pick)
  {
    FeedbackMembership("Hi", pick, Fluency);
  }

  /** "I am good" contains "i am go", so it gets the grammar correction meant
      for "I am go". */
  lemma GoodGetsGrammarCorrection(userInput: string, pick: nat)
    requires pick < |PositiveItems| && Contains(LowerStr(userInput), "i am good")
    ensures GrammarItem in FeedbackFor(userInput, pick)
  {
    var phrase := "i am good";
    assert OccursAt(phrase, PresentMisuse, 0) by {
      assert phrase[0..7] == PresentMisuse;
    }
    ContainsTransitive(LowerStr(userInput), phrase, PresentMisuse);
    FeedbackMembership(userInput, pick, Grammar);
  }
}
