/**
 * Key listings over a session: the components of a design, and the controls
 * of one component. Listing order is not modelled, so a listing is a set.
 */
module GlobalMetadata {
  import opened Qrwc

  /** getQrwcComponentList: empty without a session, otherwise every component id. */
  function GetQrwcComponentList(qrwc: Option<Session>): (ids: set<string>)
    ensures qrwc.None? ==> ids == {}
    ensures qrwc.Some? ==> forall id :: id in ids <==> id in qrwc.value.components
  {
    if qrwc.None? then {} else qrwc.value.components.Keys
  }

  /** getQrwcControlList: empty without a session or for an unknown component, otherwise its control names. */
  function GetQrwcControlList(qrwc: Option<Session>, componentId: string): (names: set<string>)
    ensures qrwc.None? || componentId !in qrwc.value.components ==> names == {}
    ensures qrwc.Some? && componentId in qrwc.value.components ==>
      forall k :: k in names <==> k in qrwc.value.components[componentId].controls
  {
    if qrwc.None? then {}
    else if componentId !in qrwc.value.components then {}
    else qrwc.value.components[componentId].controls.Keys
  }

  /** A component has controls listed only if it is itself listed. */
  lemma ControlsOnlyOfListedComponents(qrwc: Option<Session>, componentId: string)
    ensures GetQrwcControlList(qrwc, componentId) != {} ==> componentId in GetQrwcComponentList(qrwc)
  {
  }
}
