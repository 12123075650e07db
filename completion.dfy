/** The response splitter inside `sendMessage`: the raw completion is split on
    a blank line; the first piece is the reply (the whole completion when that
    piece is empty) and the last piece, if there are two or more, is the
    follow-up question; otherwise the follow-up generator supplies one. */
module Completion {
  import opened Wrappers
  import opened Text
  import opened FollowUp

  const Delimiter: string := "\n\n"

  datatype ParsedReply = ParsedReply(main: string, followUp: string)

  /** `s` ends with `x`. */
  predicate EndsWith(s: string, x: string)
  {
    |x| <= |s| && s[|s| - |x|..] == x
  }

  /** Lines 92-95 of `sendMessage`, with the random pick of the follow-up
      generator as the parameter `pick`. */
  function ParseCompletion(completion: string, userInput: string, pick: nat): ParsedReply
    requires pick < 4
  {
    var parts := SplitOn(completion, Delimiter);
    var main := if parts[0] != "" then parts[0] else completion;
    var followUp := if |parts| > 1 then parts[|parts| - 1] else FollowUpQuestion(userInput, main, pick);
    ParsedReply(main, followUp)
  }

  /** Without a blank line, the whole completion is the reply and the follow-up
      question comes from the generator's pool for the utterance's topic. */
  lemma ParseWithoutDelimiter(completion: string, userInput: string, pick: nat)
    requires pick < 4 && !Contains(completion, Delimiter)
    ensures ParseCompletion(completion, userInput, pick).main == completion
    ensures ParseCompletion(completion, userInput, pick).followUp == FollowUpQuestion(userInput, completion, pick)
    ensures ParseCompletion(completion, userInput, pick).followUp in Questions(TopicOf(userInput))
  {
    SplitSingle(completion, Delimiter);
  }

  /** With a blank line, the follow-up question is the text after the last
      cut of the left-to-right scan: the scan resumes after the first blank
      line at or after each piece's start, and the follow-up is everything
      from where no blank line is left. So the completion ends with a blank
      line followed by the follow-up, which holds no blank line itself. */
  lemma ParseWithDelimiter(completion: string, userInput: string, pick: nat)
    requires pick < 4 && Contains(completion, Delimiter)
    ensures var p := ScanEnd(completion, Delimiter, 0);
      |Delimiter| <= p && ParseCompletion(completion, userInput, pick).followUp == completion[p..]
    ensures EndsWith(completion, Delimiter + ParseCompletion(completion, userInput, pick).followUp)
    ensures !Contains(ParseCompletion(completion, userInput, pick).followUp, Delimiter)
  {
    SplitSingle(completion, Delimiter);
    SplitLastAfterScan(completion, Delimiter);
    SplitPiecesFree(completion, Delimiter);
  }

  /** After an odd run of three newlines the follow-up keeps the third one:
      the scan cuts at the first two and resumes after them. */
  lemma ThreeNewlinesKeepOne(userInput: string, pick: nat)
    requires pick < 4
    ensures ParseCompletion("a\n\n\nb", userInput, pick).followUp == "\nb"
  {
    var s := "a\n\n\nb";
    assert s[0] == 'a' && s[1] == '\n' && s[2] == '\n' && s[3] == '\n' && s[4] == 'b';
    assert s[0..2][0] == 'a' && s[3..5][1] == 'b';
    assert !OccursAt(s, Delimiter, 0) && OccursAt(s, Delimiter, 1);
    assert IndexOf(s, Delimiter, 0) == Some(1);
    assert !OccursAt(s, Delimiter, 3) && !OccursAt(s, Delimiter, 4) && !OccursAt(s, Delimiter, 5);
    assert IndexOf(s, Delimiter, 3).None?;
    assert ScanEnd(s, Delimiter, 3) == 3;
    assert ScanEnd(s, Delimiter, 0) == 3;
    ParseWithDelimiter(s, userInput, pick);
    assert s[3..] == "\nb";
  }

  /** The reply is the text before the first blank line when that text is not
      empty, and the whole completion otherwise; it is empty only when the
      completion is. */
  lemma ParseMain(completion: string, userInput: string, pick: nat)
    requires pick < 4
    ensures var m := ParseCompletion(completion, userInput, pick).main;
      match IndexOf(completion, Delimiter, 0)
      case None => m == completion
      case Some(q) => m == if q == 0 then completion else completion[..q]
    ensures ParseCompletion(completion, userInput, pick).main <= completion
    ensures ParseCompletion(completion, userInput, pick).main == "" <==> completion == ""
  {
    SplitFirst(completion, Delimiter);
  }

  /** A completion that opens with a blank line keeps its whole text, follow-up
      question included, as the reply. */
  lemma LeadingDelimiterKeepsWhole(completion: string, userInput: string, pick: nat)
    requires pick < 4 && Delimiter <= completion
    ensures ParseCompletion(completion, userInput, pick).main == completion
  {
    assert OccursAt(completion, Delimiter, 0);
    ParseMain(completion, userInput, pick);
  }
}
