/**
 * A handle on one component of the connected design. Construction fails when
 * there is no session or the component is not in it; a constructed handle
 * reads the component it was bound to.
 */
module Components {
  import opened Qrwc
  import opened GlobalMetadata

  datatype Result<T, E> = Success(value: T) | Failure(error: E)

  /** The two errors the constructor throws, the instance check first. */
  datatype ComponentError = InstanceNotFound | ComponentNotFound(componentId: string)

  datatype Component = Component(componentId: string, thisComponent: ComponentHandle, qrwcInstance: Session) {
    /** The user-defined name of the component. */
    function Name(): string {
      thisComponent.name
    }

    /** The code name the design gives the component. */
    function Id(): string {
      thisComponent.state.ID
    }

    function Type(): string {
      thisComponent.state.Type
    }

    function GetControlList(): set<string> {
      thisComponent.controls.Keys
    }
  }

  /** new Component(componentId, qrwcInstance) */
  function NewComponent(componentId: string, qrwcInstance: Option<Session>): (r: Result<Component, ComponentError>)
    ensures qrwcInstance.None? ==> r == Failure(InstanceNotFound)
    ensures qrwcInstance.Some? && componentId !in qrwcInstance.value.components ==> r == Failure(ComponentNotFound(componentId))
    ensures r.Success? <==> qrwcInstance.Some? && componentId in qrwcInstance.value.components
    ensures r.Success? ==>
      r.value.thisComponent == qrwcInstance.value.components[componentId] && r.value.qrwcInstance == qrwcInstance.value
  {
    if qrwcInstance.None? then Failure(InstanceNotFound)
    else if componentId !in qrwcInstance.value.components then Failure(ComponentNotFound(componentId))
    else Success(Component(componentId, qrwcInstance.value.components[componentId], qrwcInstance.value))
  }

  /**
   * A component can be constructed exactly for the ids the component listing
   * reports, and its getters report the bound component's name, ID, type
   * and the same control names the control listing gives for that id.
   */
  lemma ConstructionAgreesWithListings(componentId: string, qrwc: Option<Session>)
    ensures NewComponent(componentId, qrwc).Success? <==> componentId in GetQrwcComponentList(qrwc)
    ensures NewComponent(componentId, qrwc).Success? ==>
      var c := NewComponent(componentId, qrwc).value;
      var h := qrwc.value.components[componentId];
      && c.Name() == h.name && c.Id() == h.state.ID && c.Type() == h.state.Type
      && c.GetControlList() == GetQrwcControlList(qrwc, componentId)
  {
  }
}
