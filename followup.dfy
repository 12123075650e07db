/** The follow-up generator (`generateFollowUpQuestion`): the utterance is
    put in one of five topic buckets by the first keyword rule that fires,
    and one question of that bucket's pool of four is returned. The random
    choice is the parameter `pick`. */
module FollowUp {
  import opened Wrappers
  import opened Text
  import opened Rules

  datatype Topic = Business | Travel | Casual | Cultural | Restaurant

  /** Question `i` of the fixed pool of topic `t`. */
  function Question(t: Topic, i: nat): string
    requires i < 4
  {
    match t
    case Business =>
      if i == 0 then "What challenges do you think you might face in that situation?"
      else if i == 1 then "How would you handle a disagreement in that context?"
      else if i == 2 then "Can you tell me more about your experience with similar situations?"
      else "What would be your next step if that didn't work out as planned?"
    case Travel =>
      if i == 0 then "What's the most interesting place you've visited recently?"
      else if i == 1 then "How do you usually prepare for trips to new places?"
      else if i == 2 then "What would you do if you encountered that problem while traveling?"
      else "Can you describe a memorable travel experience you've had?"
    case Casual =>
      if i == 0 then "What do you think about that topic?"
      else if i == 1 then "How does that compare to your experience in Japan?"
      else if i == 2 then "What would you do differently in that situation?"
      else "Can you elaborate on why you feel that way?"
    case Cultural =>
      if i == 0 then "How do you think foreigners perceive that aspect of Japanese culture?"
      else if i == 1 then "What's something about Japanese culture that you're particularly proud of?"
      else if i == 2 then "How would you explain that cultural difference to someone from another country?"
      else "What questions do foreigners usually ask you about Japan?"
    case Restaurant =>
      if i == 0 then "What's your favorite type of cuisine and why?"
      else if i == 1 then "How would you recommend that dish to someone who's never tried it?"
      else if i == 2 then "What dining etiquette differences have you noticed between countries?"
      else "Can you describe the atmosphere of your favorite restaurant?"
  }

  /** The fixed question pool of each topic, in the source's order. */
  function Questions(t: Topic): (qs: seq<string>)
    ensures |qs| == 4
  {
    [Question(t, 0), Question(t, 1), Question(t, 2), Question(t, 3)]
  }

  /** The topic bucket, as the source's `if`/`else if` chain computes it. */
  function TopicOf(userInput: string): Topic
  {
    var lower := LowerStr(userInput);
    if Contains(lower, "business") || Contains(lower, "work") || Contains(lower, "job") then Business
    else if Contains(lower, "travel") || Contains(lower, "trip") || Contains(lower, "station") then Travel
    else if Contains(lower, "culture") || Contains(lower, "japanese") || Contains(lower, "tradition") then Cultural
    else if Contains(lower, "restaurant") || Contains(lower, "food") || Contains(lower, "order") then Restaurant
    else Casual
  }

  /** The same four keyword rules as a table, in evaluation order; `Casual`
      is the default. */
  const TopicTable: seq<(Topic, Trigger)> := [
    (Business, AnyOf(["business", "work", "job"])),
    (Travel, AnyOf(["travel", "trip", "station"])),
    (Cultural, AnyOf(["culture", "japanese", "tradition"])),
    (Restaurant, AnyOf(["restaurant", "food", "order"]))
  ]

  lemma AnyOfThree(text: string, a: string, b: string, c: string)
    ensures Matches(AnyOf([a, b, c]), text) <==> Contains(text, a) || Contains(text, b) || Contains(text, c)
  {
    var ps := [a, b, c];
    assert ps[0] == a && ps[1] == b && ps[2] == c;
  }

  lemma TopicRows(lower: string)
    ensures Matches(TopicTable[0].1, lower) <==> Contains(lower, "business") || Contains(lower, "work") || Contains(lower, "job")
    ensures Matches(TopicTable[1].1, lower) <==> Contains(lower, "travel") || Contains(lower, "trip") || Contains(lower, "station")
    ensures Matches(TopicTable[2].1, lower) <==> Contains(lower, "culture") || Contains(lower, "japanese") || Contains(lower, "tradition")
    ensures Matches(TopicTable[3].1, lower) <==> Contains(lower, "restaurant") || Contains(lower, "food") || Contains(lower, "order")
  {
    AnyOfThree(lower, "business", "work", "job");
    AnyOfThree(lower, "travel", "trip", "station");
    AnyOfThree(lower, "culture", "japanese", "tradition");
    AnyOfThree(lower, "restaurant", "food", "order");
  }

  /** The `if` chain is the first-match classification by the rule table. */
  lemma {:induction false} TopicByTable(userInput: string)
    ensures TopicOf(userInput) == Classify(TopicTable, LowerStr(userInput), Casual)
  {
    var lower := LowerStr(userInput);
    var t := TopicTable;
    TopicRows(lower);
    var m3 := FirstMatchFrom(t, lower, 3);
    var m2 := FirstMatchFrom(t, lower, 2);
    var m1 := FirstMatchFrom(t, lower, 1);
    var m0 := FirstMatchFrom(t, lower, 0);
    assert m3 == if Matches(t[3].1, lower) then Some(3) else None;
    assert m2 == if Matches(t[2].1, lower) then Some(2) else m3;
    assert m1 == if Matches(t[1].1, lower) then Some(1) else m2;
    assert m0 == if Matches(t[0].1, lower) then Some(0) else m1;
  }

  /** `generateFollowUpQuestion(userInput, aiResponse)` with the random index
      made a parameter: always a question from the pool of the utterance's topic. */
  function FollowUpQuestion(userInput: string, aiResponse: string, pick: nat): (q: string)
    requires pick < 4
    ensures q in Questions(TopicOf(userInput))
  {
    Questions(TopicOf(userInput))[pick]
  }

  /** The assistant's reply passed to the generator has no effect on the question. */
  lemma FollowUpIgnoresReply(userInput: string, reply1: string, reply2: string, pick: nat)
    requires pick < 4
    ensures FollowUpQuestion(userInput, reply1, pick) == FollowUpQuestion(userInput, reply2, pick)
  {
  }

  /** An utterance mentioning a restaurant only gets the restaurant pool when
      no business, travel or cultural keyword occurs; in particular "traditional
      japanese restaurant" holds the cultural keyword "japanese", so it never
      reaches the restaurant bucket. */
  lemma {:induction false} JapaneseRestaurantNotRestaurant(userInput: string)
    requires Contains(LowerStr(userInput), "traditional japanese restaurant")
    ensures TopicOf(userInput) != Restaurant
  {
    var phrase := "traditional japanese restaurant";
    assert OccursAt(phrase, "japanese", 12) by {
      assert phrase[12..20] == "japanese";
    }
    ContainsTransitive(LowerStr(userInput), phrase, "japanese");
  }
}
