/**
 * The button projection: a boolean view of a control's value, a guarded
 * setter and a toggle. Both `x ?? 0 > 0.5` expressions of the wrapper parse as
 * `x ?? (0 > 0.5)`, that is `x ?? false`, so the state is the truthiness of
 * the value and the toggle tests the truthiness of the position.
 */
module Button {
  import opened Qrwc
  import opened BaseControl

  /** `ctl.value ?? 0 > 0.5 ? true : false` */
  predicate ButtonState(v: JsValue) {
    Truthy(v)
  }

  /** `ctl.position ?? 0 > 0.5`, as the toggle tests it. */
  predicate PositionTruthy(p: Option<real>) {
    p.Some? && p.value != 0.0
  }

  /** The value written by `state = b`. */
  function StateWrite(b: bool): (v: JsValue)
    ensures v == Num(1.0) || v == Num(0.0)
  {
    Num(if b then 1.0 else 0.0)
  }

  /** The value written by `toggle()`. */
  function ToggleWrite(p: Option<real>): (v: JsValue)
    ensures v == Num(1.0) || v == Num(0.0)
  {
    if PositionTruthy(p) then Num(0.0) else Num(1.0)
  }

  /** Writing a state and reading it back gives the same state. */
  lemma StateRoundTrip(b: bool)
    ensures ButtonState(StateWrite(b)) == b
  {
  }

  /** A toggle writes the state opposite to the one the position shows. */
  lemma ToggleInverts(p: Option<real>)
    ensures ButtonState(ToggleWrite(p)) == !PositionTruthy(p)
  {
  }

  /**
   * On the values a button reports (0, 1, booleans, undefined) the parsed
   * expression agrees with a 0.5 threshold, but a fractional value such as
   * 0.25 reads as pressed although it lies below the threshold.
   */
  lemma StateAgainstThreshold(b: bool, n: real)
    ensures ButtonState(Num(0.0)) == false && ButtonState(Num(1.0)) == true
    ensures ButtonState(Bool(b)) == b && ButtonState(Undefined) == false
    ensures (n == 0.0 || n == 1.0) ==> (ButtonState(Num(n)) <==> n > 0.5)
    ensures ButtonState(Num(0.25)) && !(0.25 > 0.5)
  {
  }

  class ButtonControl {
    const ctl: GenericControl
    /** A non-Boolean control is only reported; the button is still returned. */
    const TypeMismatchLogged: bool

    predicate Valid() {
      ctl.Valid()
    }

    /** fetchButton: fails exactly where fetchControl throws; a type mismatch is only reported. */
    static method Fetch(control: Control) returns (r: Option<ButtonControl>)
      ensures r.None? <==> control.state.None?
      ensures r.Some? ==> fresh(r.value) && fresh(r.value.ctl) && r.value.ctl.rawControl == control && r.value.Valid()
      ensures r.Some? ==> r.value.ctl.value == control.state.value.Value && r.value.ctl.position == control.state.value.Position &&
                          r.value.ctl.str == control.state.value.String
      ensures r.Some? ==> r.value.ctl.sent == [] && (r.value.TypeMismatchLogged <==> r.value.ctl.Type != Some("Boolean"))
    {
      var c := GenericControl.Fetch(control);
      if c.None? {
        return None;
      }
      var x := new ButtonControl(c.value);
      return Some(x);
    }

    /** Wraps an accessor fetchControl returned. */
    constructor (c: GenericControl)
      ensures ctl == c
      ensures TypeMismatchLogged <==> c.Type != Some("Boolean")
    {
      ctl := c;
      TypeMismatchLogged := c.Type != Some("Boolean");
    }

    function State(): bool
      reads ctl
    {
      ButtonState(ctl.value)
    }

    /** `state = b`: nothing on a read-only control; otherwise 1 or 0 is sent. */
    method Set(b: bool)
      requires Valid()
      modifies ctl`sent
      ensures ctl.sent == old(ctl.sent) + if IsReadOnly(ctl.Direction) then [] else [StateWrite(b)]
    {
      if IsReadOnly(ctl.Direction) {
        return;
      }
      ctl.SetValue(if b then Num(1.0) else Num(0.0));
    }

    /** toggle: nothing on a read-only control; otherwise 0 when the position is truthy, else 1. */
    method Toggle()
      requires Valid()
      modifies ctl`sent
      ensures ctl.sent == old(ctl.sent) + if IsReadOnly(ctl.Direction) then [] else [ToggleWrite(ctl.position)]
    {
      if IsReadOnly(ctl.Direction) {
        return;
      }
      if ctl.position.Some? && ctl.position.value != 0.0 {
        ctl.SetValue(Num(0.0));
      } else {
        ctl.SetValue(Num(1.0));
      }
    }
  }
}
