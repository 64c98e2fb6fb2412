/**
 * The generic control accessor. It keeps local copies of a control's value,
 * position and string, which only the update listener overwrites, and its
 * setters send commands to the transport. A command `control.update(v)` is
 * recorded by appending `v` to `sent`.
 */
module BaseControl {
  import opened Qrwc
  import opened ControlDataParser

  /** What the optional update callback does when the listener calls it. */
  datatype CallbackOutcome = NoCallback | Returns | Throws

  /** The projections guard their writes on this direction only. */
  predicate IsReadOnly(direction: Option<string>) {
    direction == Some("Read Only")
  }

  /** The command, if any, that writing `val` issues through a control whose state is present or not. */
  function UpdateCommand(hasState: bool, val: JsValue): (cmd: seq<JsValue>)
    ensures |cmd| <= 1
    ensures Undefined !in cmd
    ensures cmd != [] <==> hasState && val != Undefined
    ensures forall v :: v in cmd ==> v == val
  {
    if hasState && val != Undefined then [val] else []
  }

  class GenericControl {
    const rawControl: Control
    const ControlName: string
    const Direction: Option<string>
    const Type: Option<string>
    var value: JsValue
    var position: Option<real>
    var str: Option<string>
    /** Every `control.update` issued through this accessor, in order. */
    var sent: seq<JsValue>

    /** The metadata is read once, at construction, from the raw control. */
    predicate Valid() {
      && rawControl.state.Some?
      && ControlName == rawControl.name
      && Direction == GetDirectionProperty(Some(rawControl))
      && Type == GetTypeProperty(Some(rawControl))
    }

    /**
     * fetchControl: reading `control.state.Value` throws a TypeError on a
     * control without a state, reported as None; otherwise a fresh accessor
     * over the control's current state.
     */
    static method Fetch(control: Control) returns (r: Option<GenericControl>)
      ensures r.None? <==> control.state.None?
      ensures r.Some? ==> fresh(r.value) && r.value.rawControl == control && r.value.Valid() && r.value.sent == []
      ensures r.Some? ==> r.value.value == control.state.value.Value && r.value.position == control.state.value.Position &&
                          r.value.str == control.state.value.String
    {
      if control.state.None? {
        return None;
      }
      var c := new GenericControl(control);
      return Some(c);
    }

    /** The non-throwing path of fetchControl, reached only through Fetch. */
    constructor (control: Control)
      requires control.state.Some?
      ensures rawControl == control && Valid()
      ensures value == control.state.value.Value
      ensures position == control.state.value.Position
      ensures str == control.state.value.String
      ensures sent == []
    {
      rawControl := control;
      ControlName := control.name;
      Direction := GetDirectionProperty(Some(control));
      Type := GetTypeProperty(Some(control));
      value := control.state.value.Value;
      position := control.state.value.Position;
      str := control.state.value.String;
      sent := [];
    }

    /**
     * The update listener: all three local fields take the pushed state, then
     * the callback runs; an exception from it is logged and swallowed.
     */
    method OnUpdate(s: ControlState, callback: CallbackOutcome) returns (callbackInvoked: bool, errorLogged: bool)
      modifies this`value, this`position, this`str
      ensures value == s.Value && position == s.Position && str == s.String
      ensures callbackInvoked <==> callback != NoCallback
      ensures errorLogged <==> callback == Throws
    {
      value := s.Value;
      position := s.Position;
      str := s.String;
      callbackInvoked := callback != NoCallback;
      errorLogged := callback == Throws;
    }

    /** Writing `value`: sent iff the control has a state and the value is defined; the direction is not checked. */
    method SetValue(val: JsValue)
      modifies this`sent
      ensures sent == old(sent) + UpdateCommand(rawControl.state.Some?, val)
    {
      if rawControl.state.Some? && val != Undefined {
        sent := sent + [val];
      }
    }

    /** `ctl.string ?? ""`, the string the text-valued projections read. */
    function StringOrEmpty(): (r: string)
      reads this
      ensures str.None? ==> r == ""
      ensures str.Some? ==> r == str.value
    {
      str.GetOr("")
    }

    /** Writing `position` is not implemented: nothing is sent and nothing changes. */
    method SetPosition(val: Option<real>)
      modifies this`sent
      ensures sent == old(sent)
    {
    }

    /** Writing `string`: the same guard as a value write. */
    method SetString(val: Option<string>)
      modifies this`sent
      ensures sent == old(sent) + if rawControl.state.Some? && val.Some? then [Str(val.value)] else []
    {
      if rawControl.state.Some? && val.Some? {
        sent := sent + [Str(val.value)];
      }
    }
  }
}
