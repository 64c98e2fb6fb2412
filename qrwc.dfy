/**
 * The part of the transport's object graph that the wrapper reads: a session
 * (the connected transport instance) maps component ids to component handles,
 * each holding its controls; a control carries a `state` object whose fields
 * the core pushes. JavaScript's `undefined` is `None` (or `Undefined` for a
 * control value).
 */
module Qrwc {

  /** `T | undefined`. */
  datatype Option<+T> = None | Some(value: T) {
    /** `x ?? default` */
    function GetOr(default: T): T {
      if Some? then value else default
    }
  }

  /** A control value as JavaScript holds it: `string | number | boolean | undefined`. */
  datatype JsValue = Undefined | Num(n: real) | Str(s: string) | Bool(b: bool)

  /** JavaScript truthiness of a control value (NaN is not modelled). */
  predicate Truthy(v: JsValue) {
    match v
    case Undefined => false
    case Num(n) => n != 0.0
    case Str(s) => s != ""
    case Bool(b) => b
  }

  /** The `state` object of a control as the core reports it. */
  datatype ControlState = ControlState(
    Value: JsValue,
    Position: Option<real>,
    String: Option<string>,
    Direction: Option<string>,
    Type: Option<string>,
    Choices: Option<seq<string>>,
    ValueMin: Option<real>,
    ValueMax: Option<real>,
    StringMin: Option<string>,
    StringMax: Option<string>)

  /** A control handle; `state` is absent on a handle the transport never filled in. */
  datatype Control = Control(name: string, state: Option<ControlState>)

  /** The `state` of a component handle, and what a component filter is shown. */
  datatype ComponentState = ComponentState(ID: string, Type: string)

  datatype ComponentHandle = ComponentHandle(name: string, state: ComponentState, controls: map<string, Control>)

  /** A connected and started transport instance. */
  datatype Session = Session(components: map<string, ComponentHandle>)
}
