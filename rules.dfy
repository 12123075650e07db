/** A reference definition of "first matching keyword rule wins": a table of
    rows, each a label and a trigger over the lower-cased utterance. The
    source writes each such table as a chain of `if`s; the modules that model
    those chains prove them equal to a table classified here. */
module Rules {
  import opened Wrappers
  import opened Text

  /** A trigger fires when all (`AllOf`) or any (`AnyOf`) of its phrases occur. */
  datatype Trigger = AllOf(phrases: seq<string>) | AnyOf(phrases: seq<string>)

  predicate Matches(t: Trigger, text: string)
  {
    match t
    case AllOf(ps) => forall i :: 0 <= i < |ps| ==> Contains(text, ps[i])
    case AnyOf(ps) => exists i :: 0 <= i < |ps| && Contains(text, ps[i])
  }

  /** Index of the first row at or after `k` whose trigger fires. */
  function FirstMatchFrom<L>(table: seq<(L, Trigger)>, text: string, k: nat): (r: Option<nat>)
    requires k <= |table|
    ensures r.Some? ==> k <= r.value < |table| && Matches(table[r.value].1, text)
    ensures r.Some? ==> forall j :: k <= j < r.value ==> !Matches(table[j].1, text)
    ensures r.None? ==> forall j :: k <= j < |table| ==> !Matches(table[j].1, text)
    decreases |table| - k
  {
    if k == |table| then None
    else if Matches(table[k].1, text) then Some(k)
    else FirstMatchFrom(table, text, k + 1)
  }

  /** The label of the first row that fires, or `default` when none does. */
  function Classify<L>(table: seq<(L, Trigger)>, text: string, default: L): (r: L)
    ensures (forall j :: 0 <= j < |table| ==> !Matches(table[j].1, text)) ==> r == default
    ensures (exists j :: 0 <= j < |table| && Matches(table[j].1, text)) ==>
      exists i :: 0 <= i < |table| && r == table[i].0 && Matches(table[i].1, text) &&
        forall j :: 0 <= j < i ==> !Matches(table[j].1, text)
  {
    match FirstMatchFrom(table, text, 0)
    case None => default
    case Some(i) => table[i].0
  }
}
