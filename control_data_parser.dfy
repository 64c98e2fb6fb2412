/**
 * Validation of a control's declared Direction and Type against the literal
 * lists the wrapper knows. Both return the control's own string or undefined.
 */
module ControlDataParser {
  import opened Qrwc

  const AllControlDirections: seq<string> := ["Read/Write", "Read Only", "Write Only"]

  const AllControlTypes: seq<string> := ["Boolean", "Integer", "Float", "Text", "Trigger", "Time", "Array"]

  /** `lits.find(d => d === x)`: the literal equal to `x`, if there is one. */
  function FindLiteral(lits: seq<string>, x: string): (r: Option<string>)
    ensures r.Some? <==> x in lits
    ensures r.Some? ==> r.value == x
  {
    if lits == [] then None
    else if lits[0] == x then Some(lits[0])
    else FindLiteral(lits[1..], x)
  }

  /** `controlData.state.Direction`; reading it off a missing state throws, which the caller catches. */
  function DeclaredDirection(controlData: Option<Control>): Option<string> {
    if controlData.None? || controlData.value.state.None? then None
    else controlData.value.state.value.Direction
  }

  function DeclaredType(controlData: Option<Control>): Option<string> {
    if controlData.None? || controlData.value.state.None? then None
    else controlData.value.state.value.Type
  }

  /** A JavaScript string is falsy exactly when it is empty. */
  predicate Falsy(s: Option<string>) {
    s.None? || s.value == ""
  }

  function GetDirectionProperty(controlData: Option<Control>): (r: Option<string>)
    ensures controlData.None? ==> r.None?
    ensures r.Some? <==> DeclaredDirection(controlData).Some? && DeclaredDirection(controlData).value in AllControlDirections
    ensures r.Some? ==> r == DeclaredDirection(controlData)
  {
    if controlData.None? then None
    else if controlData.value.state.None? then None
    else
      var direction := controlData.value.state.value.Direction;
      if Falsy(direction) then None
      else FindLiteral(AllControlDirections, direction.value)
  }

  function GetTypeProperty(controlData: Option<Control>): (r: Option<string>)
    ensures controlData.None? ==> r.None?
    ensures r.Some? <==> DeclaredType(controlData).Some? && DeclaredType(controlData).value in AllControlTypes
    ensures r.Some? ==> r == DeclaredType(controlData)
  {
    if controlData.None? then None
    else if controlData.value.state.None? then None
    else
      var t := controlData.value.state.value.Type;
      if Falsy(t) then None
      else FindLiteral(AllControlTypes, t.value)
  }

  /** Neither validator ever invents a literal: the result is undefined or the input unchanged. */
  lemma ParsersNeverRewrite(controlData: Option<Control>)
    ensures GetDirectionProperty(controlData) == None || GetDirectionProperty(controlData) == DeclaredDirection(controlData)
    ensures GetTypeProperty(controlData) == None || GetTypeProperty(controlData) == DeclaredType(controlData)
    ensures Falsy(DeclaredDirection(controlData)) ==> GetDirectionProperty(controlData) == None
    ensures Falsy(DeclaredType(controlData)) ==> GetTypeProperty(controlData) == None
  {
  }
}
