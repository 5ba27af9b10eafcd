/**
 * The selection logic of frontend/src/components/MultiSelect.jsx: toggling
 * a value in the list of selected values, clearing it, and the
 * `displayText` the button shows beside its label.
 */
module MultiSelect {
  import opened Seqs
  import opened Text

  function Other(value: string): string -> bool {
    v => v != value
  }

  /**
   * `toggleOption`: a selected value is removed, every occurrence of it; any
   * other value is appended at the end.
   */
  function Toggle(selected: seq<string>, value: string): (r: seq<string>)
    ensures value in selected ==> value !in r
    ensures value !in selected ==> |r| == |selected| + 1 && r[..|selected|] == selected && r[|selected|] == value
  {
    if value in selected then
      FilterMembership(selected, Other(value), value);
      Filter(selected, Other(value))
    else selected + [value]
  }

  /** Toggling flips the membership of the toggled value and of no other value. */
  lemma ToggleFlipsOnlyThatValue(selected: seq<string>, value: string, v: string)
    ensures v in Toggle(selected, value) <==> (if v == value then value !in selected else v in selected)
  {
    if value in selected {
      FilterMembership(selected, Other(value), v);
    }
  }

  /**
   * Removing a value keeps the other values in their order and with their
   * multiplicities, and drops every occurrence of the removed one.
   */
  lemma ToggleRemovesEveryOccurrence(selected: seq<string>, value: string)
    requires value in selected
    ensures IsSubsequence(Toggle(selected, value), selected)
    ensures forall v :: multiset(Toggle(selected, value))[v] == if v == value then 0 else multiset(selected)[v]
  {
    FilterIsSubsequence(selected, Other(value));
    forall v ensures multiset(Toggle(selected, value))[v] == if v == value then 0 else multiset(selected)[v] {
      FilterMultiplicity(selected, Other(value), v);
    }
  }

  /** Toggling a value that is not selected twice gives back the original list. */
  lemma ToggleTwice(selected: seq<string>, value: string)
    requires value !in selected
    ensures Toggle(Toggle(selected, value), value) == selected
  {
    var added := selected + [value];
    assert added[..|added| - 1] == selected;
    FilterAllKept(selected, Other(value));
  }

  /** A list without duplicates stays without duplicates. */
  lemma ToggleKeepsNoDup(selected: seq<string>, value: string)
    requires NoDup(selected)
    ensures NoDup(Toggle(selected, value))
  {
    if value in selected {
      FilterNoDup(selected, Other(value));
    }
  }

  /** `clearSelection`: the selection becomes empty. */
  function ClearSelection(selected: seq<string>): (r: seq<string>)
    ensures r == []
    ensures forall v :: v !in r
  {
    []
  }

  const SelectedSuffix: string := " selected"

  /** `displayText`: the label, the one selected value, or "N selected". */
  function DisplayText(labelText: string, selected: seq<string>): (t: string)
    ensures |selected| == 0 ==> t == labelText
    ensures |selected| == 1 ==> t == selected[0]
    ensures |selected| >= 2 ==> |t| > |SelectedSuffix| && t[|t| - |SelectedSuffix|..] == SelectedSuffix
  {
    if |selected| == 0 then labelText
    else if |selected| == 1 then selected[0]
    else NatToString(|selected|) + SelectedSuffix
  }

  /**
   * With two or more values the text is a decimal count that reads back as
   * the number of selected values, followed by " selected".
   */
  lemma DisplayTextCount(labelText: string, selected: seq<string>)
    requires |selected| >= 2
    ensures var t := DisplayText(labelText, selected);
      && |t| > |SelectedSuffix|
      && t[|t| - |SelectedSuffix|..] == SelectedSuffix
      && AllDigits(t[..|t| - |SelectedSuffix|])
      && DigitsValue(t[..|t| - |SelectedSuffix|]) == |selected|
  {
    var t := DisplayText(labelText, selected);
    var digits := NatToString(|selected|);
    assert t[..|t| - |SelectedSuffix|] == digits;
    NatToStringRoundTrip(|selected|);
  }

  /** After a clear `displayText` is the label again; with one value, it is that value. */
  lemma DisplayTextAfterClearAndToggle(labelText: string, selected: seq<string>, value: string)
    ensures DisplayText(labelText, ClearSelection(selected)) == labelText
    ensures DisplayText(labelText, Toggle(ClearSelection(selected), value)) == value
  {
  }
}
