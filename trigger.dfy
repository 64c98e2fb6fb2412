/** The trigger projection: metadata and one guarded action that sends the value 1. */
module Trigger {
  import opened Qrwc
  import opened BaseControl

  class TriggerControl {
    const ctl: GenericControl
    /** A non-Trigger control is only reported; the trigger is still returned. */
    const TypeMismatchLogged: bool

    predicate Valid() {
      ctl.Valid()
    }

    /** fetchTrigger: fails exactly where fetchControl throws; a type mismatch is only reported. */
    static method Fetch(control: Control) returns (r: Option<TriggerControl>)
      ensures r.None? <==> control.state.None?
      ensures r.Some? ==> fresh(r.value) && fresh(r.value.ctl) && r.value.ctl.rawControl == control && r.value.Valid()
      ensures r.Some? ==> r.value.ctl.value == control.state.value.Value && r.value.ctl.str == control.state.value.String
      ensures r.Some? ==> r.value.ctl.sent == [] && (r.value.TypeMismatchLogged <==> r.value.ctl.Type != Some("Trigger"))
    {
      var c := GenericControl.Fetch(control);
      if c.None? {
        return None;
      }
      var x := new TriggerControl(c.value);
      return Some(x);
    }

    /** Wraps an accessor fetchControl returned. */
    constructor (c: GenericControl)
      ensures ctl == c
      ensures TypeMismatchLogged <==> c.Type != Some("Trigger")
    {
      ctl := c;
      TypeMismatchLogged := c.Type != Some("Trigger");
    }

    /** trigger: nothing on a read-only control; any other direction, undefined included, sends 1. */
    method Fire()
      requires Valid()
      modifies ctl`sent
      ensures ctl.sent == old(ctl.sent) + if IsReadOnly(ctl.Direction) then [] else [Num(1.0)]
    {
      if IsReadOnly(ctl.Direction) {
        return;
      }
      ctl.SetValue(Num(1.0));
    }
  }
}
