/**
 * The combo-box projection: a choices list replaced on every update, the
 * current string, the index of the string among the choices, and guarded
 * writers by text and by index.
 */
module ComboBox {
  import opened Qrwc
  import opened BaseControl

  /** `choices.indexOf(s)`: the first position holding `s`, or -1. */
  function IndexOf(choices: seq<string>, s: string): (r: int)
    ensures -1 <= r < |choices|
    ensures r == -1 <==> s !in choices
    ensures r >= 0 ==> choices[r] == s && forall j :: 0 <= j < r ==> choices[j] != s
    decreases |choices|
  {
    if choices == [] then -1
    else if choices[0] == s then 0
    else
      var k := IndexOf(choices[1..], s);
      if k == -1 then -1 else k + 1
  }

  /** The text an option write sends: the chosen entry, or "" for an index out of range. */
  function OptionText(choices: seq<string>, i: int): (t: string)
    ensures 0 <= i < |choices| ==> t == choices[i]
    ensures (i < 0 || i >= |choices|) ==> t == ""
  {
    if i < 0 || i >= |choices| then "" else choices[i]
  }

  predicate DistinctChoices(choices: seq<string>) {
    forall i, j :: 0 <= i < j < |choices| ==> choices[i] != choices[j]
  }

  /** With distinct choices, selecting an option and reading the option back gives the same index. */
  lemma OptionRoundTrip(choices: seq<string>, i: int)
    requires DistinctChoices(choices) && 0 <= i < |choices|
    ensures IndexOf(choices, OptionText(choices, i)) == i
  {
  }

  /** Reading the option of a string in the list and writing that option sends the string back. */
  lemma IndexRoundTrip(choices: seq<string>, s: string)
    requires s in choices
    ensures OptionText(choices, IndexOf(choices, s)) == s
  {
  }

  class TextComboBoxControl {
    const ctl: GenericControl
    var choices: seq<string>
    /** A non-Text control is only reported; the combo box is still returned. */
    const TypeMismatchLogged: bool

    predicate Valid() {
      ctl.Valid()
    }

    /**
     * fetchComboBox: fails exactly where fetchControl throws; otherwise the
     * choices start as the state's, or empty, and a type mismatch is only reported.
     */
    static method Fetch(control: Control) returns (r: Option<TextComboBoxControl>)
      ensures r.None? <==> control.state.None?
      ensures r.Some? ==> fresh(r.value) && fresh(r.value.ctl) && r.value.ctl.rawControl == control && r.value.Valid()
      ensures r.Some? ==> r.value.choices == control.state.value.Choices.GetOr([]) && r.value.ctl.str == control.state.value.String
      ensures r.Some? ==> r.value.ctl.sent == [] && (r.value.TypeMismatchLogged <==> r.value.ctl.Type != Some("Text"))
    {
      var c := GenericControl.Fetch(control);
      if c.None? {
        return None;
      }
      var x := new TextComboBoxControl(c.value, control.state.value.Choices.GetOr([]));
      return Some(x);
    }

    /** Wraps an accessor fetchControl returned, with the initial choices. */
    constructor (c: GenericControl, initial: seq<string>)
      ensures ctl == c && choices == initial
      ensures TypeMismatchLogged <==> c.Type != Some("Text")
    {
      ctl := c;
      TypeMismatchLogged := c.Type != Some("Text");
      choices := initial;
    }

    /** An update push: the base listener's fields, then the choices replaced wholesale by the pushed list or []. */
    method OnUpdate(s: ControlState)
      modifies this`choices, ctl`value, ctl`position, ctl`str
      ensures ctl.value == s.Value && ctl.position == s.Position && ctl.str == s.String
      ensures choices == s.Choices.GetOr([])
    {
      var invoked, logged := ctl.OnUpdate(s, Returns);
      choices := s.Choices.GetOr([]);
    }

    function String(): string
      reads ctl
    {
      ctl.StringOrEmpty()
    }

    /** The index of the current string among the choices, -1 when it is not one of them. */
    function Option(): int
      reads this, ctl
    {
      IndexOf(choices, String())
    }

    /** setText: nothing on a read-only control; otherwise the string is sent. */
    method SetText(t: string)
      requires Valid()
      modifies ctl`sent
      ensures ctl.sent == old(ctl.sent) + if IsReadOnly(ctl.Direction) then [] else [Str(t)]
    {
      if IsReadOnly(ctl.Direction) {
        return;
      }
      ctl.SetString(Some(t));
    }

    /** setOption: an index out of range writes "" instead, through the same read-only guard. */
    method SetOption(i: int)
      requires Valid()
      modifies ctl`sent
      ensures ctl.sent == old(ctl.sent) + if IsReadOnly(ctl.Direction) then [] else [Str(OptionText(choices, i))]
    {
      if i < 0 || i >= |choices| {
        SetText("");
        return;
      }
      SetText(choices[i]);
    }
  }

  /** The option reads -1 exactly when the current string (or "" when there is none) is not a choice. */
  lemma OptionMeaning(cb: TextComboBoxControl)
    ensures cb.Option() == -1 <==> cb.String() !in cb.choices
    ensures cb.Option() >= 0 ==> cb.choices[cb.Option()] == cb.String()
  {
  }
}
