/** The text projection: the string with an empty default and a setter guarded against read-only controls. */
module Text {
  import opened Qrwc
  import opened BaseControl

  class TextControl {
    const ctl: GenericControl
    /** A non-Text control is only reported; the text control is still returned. */
    const TypeMismatchLogged: bool

    predicate Valid() {
      ctl.Valid()
    }

    /** fetchText: fails exactly where fetchControl throws; a type mismatch is only reported. */
    static method Fetch(control: Control) returns (r: Option<TextControl>)
      ensures r.None? <==> control.state.None?
      ensures r.Some? ==> fresh(r.value) && fresh(r.value.ctl) && r.value.ctl.rawControl == control && r.value.Valid()
      ensures r.Some? ==> r.value.ctl.value == control.state.value.Value && r.value.ctl.str == control.state.value.String
      ensures r.Some? ==> r.value.ctl.sent == [] && (r.value.TypeMismatchLogged <==> r.value.ctl.Type != Some("Text"))
    {
      var c := GenericControl.Fetch(control);
      if c.None? {
        return None;
      }
      var x := new TextControl(c.value);
      return Some(x);
    }

    /** Wraps an accessor fetchControl returned. */
    constructor (c: GenericControl)
      ensures ctl == c
      ensures TypeMismatchLogged <==> c.Type != Some("Text")
    {
      ctl := c;
      TypeMismatchLogged := c.Type != Some("Text");
    }

    function String(): string
      reads ctl
    {
      ctl.StringOrEmpty()
    }

    /** setText: nothing on a read-only control; otherwise the string is sent. */
    method SetText(s: string)
      requires Valid()
      modifies ctl`sent
      ensures ctl.sent == old(ctl.sent) + if IsReadOnly(ctl.Direction) then [] else [Str(s)]
    {
      if IsReadOnly(ctl.Direction) {
        return;
      }
      ctl.SetString(Some(s));
    }
  }
}
