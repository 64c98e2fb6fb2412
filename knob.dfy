/**
 * The knob projection: value, position and string with defaults, three
 * setters guarded against read-only controls, and the range metadata read
 * from the raw control.
 */
module Knob {
  import opened Qrwc
  import opened BaseControl

  /** `(ctl.value as number) ?? 0`: the cast only changes the static type. */
  function ValueOrZero(v: JsValue): (r: JsValue)
    ensures r != Undefined
    ensures v == Undefined ==> r == Num(0.0)
    ensures v != Undefined ==> r == v
  {
    if v == Undefined then Num(0.0) else v
  }

  predicate NumericType(t: Option<string>) {
    t == Some("Float") || t == Some("Integer") || t == Some("Time") || t == Some("Array")
  }

  class KnobControl {
    const ctl: GenericControl
    /** A control of another type is only reported; the knob is still returned. */
    const TypeMismatchLogged: bool

    predicate Valid() {
      ctl.Valid()
    }

    /** fetchKnob: fails exactly where fetchControl throws; a type mismatch is only reported. */
    static method Fetch(control: Control) returns (r: Option<KnobControl>)
      ensures r.None? <==> control.state.None?
      ensures r.Some? ==> fresh(r.value) && fresh(r.value.ctl) && r.value.ctl.rawControl == control && r.value.Valid()
      ensures r.Some? ==> r.value.ctl.value == control.state.value.Value && r.value.ctl.position == control.state.value.Position &&
                          r.value.ctl.str == control.state.value.String
      ensures r.Some? ==> r.value.ctl.sent == [] && (r.value.TypeMismatchLogged <==> !NumericType(r.value.ctl.Type))
    {
      var c := GenericControl.Fetch(control);
      if c.None? {
        return None;
      }
      var x := new KnobControl(c.value);
      return Some(x);
    }

    /** Wraps an accessor fetchControl returned. */
    constructor (c: GenericControl)
      ensures ctl == c
      ensures TypeMismatchLogged <==> !NumericType(c.Type)
    {
      ctl := c;
      TypeMismatchLogged := !NumericType(c.Type);
    }

    function Value(): JsValue
      reads ctl
    {
      ValueOrZero(ctl.value)
    }

    function Position(): real
      reads ctl
    {
      ctl.position.GetOr(0.0)
    }

    function String(): string
      reads ctl
    {
      ctl.StringOrEmpty()
    }

    /** The range metadata is the raw control's, undefined where the state lacks it. */
    function ValueMin(): Option<real>
      requires Valid()
    {
      ctl.rawControl.state.value.ValueMin
    }

    function ValueMax(): Option<real>
      requires Valid()
    {
      ctl.rawControl.state.value.ValueMax
    }

    function StringMin(): Option<string>
      requires Valid()
    {
      ctl.rawControl.state.value.StringMin
    }

    function StringMax(): Option<string>
      requires Valid()
    {
      ctl.rawControl.state.value.StringMax
    }

    /** `value = n`: nothing on a read-only control; otherwise `n` is sent. */
    method SetValue(n: real)
      requires Valid()
      modifies ctl`sent
      ensures ctl.sent == old(ctl.sent) + if IsReadOnly(ctl.Direction) then [] else [Num(n)]
    {
      if IsReadOnly(ctl.Direction) {
        return;
      }
      ctl.SetValue(Num(n));
    }

    /** `position = p`: never sends anything, read-only or not. */
    method SetPosition(p: real)
      modifies ctl`sent
      ensures ctl.sent == old(ctl.sent)
    {
      if IsReadOnly(ctl.Direction) {
        return;
      }
      ctl.SetPosition(Some(p));
    }

    /** `string = s`: nothing on a read-only control; otherwise `s` is sent. */
    method SetString(s: string)
      requires Valid()
      modifies ctl`sent
      ensures ctl.sent == old(ctl.sent) + if IsReadOnly(ctl.Direction) then [] else [Str(s)]
    {
      if IsReadOnly(ctl.Direction) {
        return;
      }
      ctl.SetString(Some(s));
    }
  }

  /**
   * The getters never report undefined and agree with the local fields whenever
   * those are defined; the range metadata is the raw state's, absent where it is.
   */
  lemma KnobDefaults(k: KnobControl)
    ensures k.ctl.value == Undefined ==> k.Value() == Num(0.0)
    ensures k.ctl.value != Undefined ==> k.Value() == k.ctl.value
    ensures k.ctl.position.None? ==> k.Position() == 0.0
    ensures k.ctl.position.Some? ==> k.Position() == k.ctl.position.value
    ensures k.ctl.str.None? ==> k.String() == ""
    ensures k.ctl.str.Some? ==> k.String() == k.ctl.str.value
    ensures k.Valid() ==> var st := k.ctl.rawControl.state.value;
      k.ValueMin() == st.ValueMin && k.ValueMax() == st.ValueMax && k.StringMin() == st.StringMin && k.StringMax() == st.StringMax
  {
  }
}
