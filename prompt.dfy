/** The scenario prompt selector (`getSystemPrompt`): a fixed base persona,
    extended by a role-play persona chosen by the first trigger phrase that
    occurs in the lower-cased utterance. */
module Prompt {
  import opened Wrappers
  import opened Text
  import opened Rules

  const BasePrompt: string := "You are an AI English conversation partner for Japanese learners. Respond naturally and provide helpful feedback on their English usage. Keep responses conversational and encouraging."

  datatype Scenario = ItInterview | JapaneseRestaurant | JapaneseCulture | TrainStation | BusinessNetworking

  /** The role-play text appended, after one space, to the base prompt. */
  function Persona(sc: Scenario): string
  {
    match sc
    case ItInterview => "You are now role-playing as an IT company interviewer. Ask relevant technical and behavioral questions, provide realistic interview scenarios, and give constructive feedback on professional communication skills."
    case JapaneseRestaurant => "You are now role-playing as a server at a traditional Japanese restaurant who speaks English with foreign customers. Help the user practice ordering Japanese dishes, asking about ingredients, and understanding restaurant etiquette in English."
    case JapaneseCulture => "You are now role-playing as a curious foreigner interested in learning about Japanese culture. Ask thoughtful questions about Japanese traditions, customs, food, and daily life, helping the user practice explaining their culture in English."
    case TrainStation => "You are now role-playing as both a train station staff member and confused tourists. Create scenarios where the user needs to give directions, explain train systems, help with ticket purchases, and handle various station-related situations in English."
    case BusinessNetworking => "You are now role-playing as various professionals at a business networking event. Practice small talk, professional introductions, discussing work and industry trends, and making meaningful business connections in English."
  }

  function WithPersona(sc: Scenario): (r: string)
    ensures BasePrompt < r
  {
    BasePrompt + " " + Persona(sc)
  }

  /** `getSystemPrompt(content)`, as the chain of `if`s the source has. */
  function SystemPrompt(content: string): (r: string)
    ensures BasePrompt <= r
  {
    var lower := LowerStr(content);
    if Contains(lower, "job interview") && Contains(lower, "it") then WithPersona(ItInterview)
    else if Contains(lower, "traditional japanese restaurant") then WithPersona(JapaneseRestaurant)
    else if Contains(lower, "japanese culture") then WithPersona(JapaneseCulture)
    else if Contains(lower, "train station") then WithPersona(TrainStation)
    else if Contains(lower, "business networking") then WithPersona(BusinessNetworking)
    else BasePrompt
  }

  /** The same five rules as a table, in evaluation order. */
  const ScenarioTable: seq<(Option<Scenario>, Trigger)> := [
    (Some(ItInterview), AllOf(["job interview", "it"])),
    (Some(JapaneseRestaurant), AnyOf(["traditional japanese restaurant"])),
    (Some(JapaneseCulture), AnyOf(["japanese culture"])),
    (Some(TrainStation), AnyOf(["train station"])),
    (Some(BusinessNetworking), AnyOf(["business networking"]))
  ]

  /** The scenario the table selects for an utterance, if any. */
  function SelectedScenario(content: string): Option<Scenario>
  {
    Classify(ScenarioTable, LowerStr(content), None)
  }

  lemma AllOfTwo(text: string, a: string, b: string)
    ensures Matches(AllOf([a, b]), text) <==> Contains(text, a) && Contains(text, b)
  {
    var ps := [a, b];
    assert ps[0] == a && ps[1] == b;
    if Contains(text, a) && Contains(text, b) {
      forall i | 0 <= i < |ps| ensures Contains(text, ps[i]) {
        if i == 1 { assert ps[i] == b; }
      }
    }
  }

  lemma AnyOfOne(text: string, a: string)
    ensures Matches(AnyOf([a]), text) <==> Contains(text, a)
  {
    if Contains(text, a) { assert [a][0] == a; }
  }

  /** Each table row fires exactly when the corresponding `if` condition holds. */
  lemma ScenarioRows(lower: string)
    ensures Matches(ScenarioTable[0].1, lower) <==> Contains(lower, "job interview") && Contains(lower, "it")
    ensures Matches(ScenarioTable[1].1, lower) <==> Contains(lower, "traditional japanese restaurant")
    ensures Matches(ScenarioTable[2].1, lower) <==> Contains(lower, "japanese culture")
    ensures Matches(ScenarioTable[3].1, lower) <==> Contains(lower, "train station")
    ensures Matches(ScenarioTable[4].1, lower) <==> Contains(lower, "business networking")
  {
    AllOfTwo(lower, "job interview", "it");
    AnyOfOne(lower, "traditional japanese restaurant");
    AnyOfOne(lower, "japanese culture");
    AnyOfOne(lower, "train station");
    AnyOfOne(lower, "business networking");
  }

  /** The `if` chain selects exactly what the rule table selects: the first
      matching rule wins, and no match leaves the base prompt alone. */
  lemma {:induction false} SystemPromptByTable(content: string)
    ensures SystemPrompt(content) == match SelectedScenario(content)
      case None => BasePrompt
      case Some(sc) => WithPersona(sc)
  {
    var lower := LowerStr(content);
    var t := ScenarioTable;
    ScenarioRows(lower);
    var m4 := FirstMatchFrom(t, lower, 4);
    var m3 := FirstMatchFrom(t, lower, 3);
    var m2 := FirstMatchFrom(t, lower, 2);
    var m1 := FirstMatchFrom(t, lower, 1);
    var m0 := FirstMatchFrom(t, lower, 0);
    assert m4 == if Matches(t[4].1, lower) then Some(4) else None;
    assert m3 == if Matches(t[3].1, lower) then Some(3) else m4;
    assert m2 == if Matches(t[2].1, lower) then Some(2) else m3;
    assert m1 == if Matches(t[1].1, lower) then Some(1) else m2;
    assert m0 == if Matches(t[0].1, lower) then Some(0) else m1;
    assert SelectedScenario(content) == if m0.Some? then t[m0.value].0 else None;
    if Matches(t[0].1, lower) {
      assert SelectedScenario(content) == Some(ItInterview);
    } else if Matches(t[1].1, lower) {
      assert SelectedScenario(content) == Some(JapaneseRestaurant);
    } else if Matches(t[2].1, lower) {
      assert SelectedScenario(content) == Some(JapaneseCulture);
    } else if Matches(t[3].1, lower) {
      assert SelectedScenario(content) == Some(TrainStation);
    } else if Matches(t[4].1, lower) {
      assert SelectedScenario(content) == Some(BusinessNetworking);
    } else {
      assert SelectedScenario(content) == None;
    }
  }

  /** The prompt is exactly the base prompt if and only if no trigger fires. */
  lemma SystemPromptIsBaseIff(content: string)
    ensures SystemPrompt(content) == BasePrompt <==>
      forall j :: 0 <= j < |ScenarioTable| ==> !Matches(ScenarioTable[j].1, LowerStr(content))
  {
    SystemPromptByTable(content);
    var lower := LowerStr(content);
    if exists j :: 0 <= j < |ScenarioTable| && Matches(ScenarioTable[j].1, lower) {
      var i :| 0 <= i < |ScenarioTable| && SelectedScenario(content) == ScenarioTable[i].0;
      assert SelectedScenario(content).Some?;
      assert |SystemPrompt(content)| > |BasePrompt|;
    }
  }

  /** An utterance naming a job interview and containing "it" anywhere (as in
      "with") always gets the IT-interviewer persona. */
  lemma JobInterviewGetsItPersona(content: string)
    requires Contains(LowerStr(content), "job interview") && Contains(LowerStr(content), "it")
    ensures SystemPrompt(content) == WithPersona(ItInterview)
  {
  }
}
