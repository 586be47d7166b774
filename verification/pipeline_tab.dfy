/**
 * Pipeline tab definitions: the UI tabs a pipeline page shows, each
 * rendering a list of components, and the check applied to a configured
 * tab.
 */
module PipelineTabModel {
  import opened Wrappers

  /** One component a tab renders; its properties are passed through
      untouched and are kept as an uninterpreted value. */
  datatype Component<P> = Component(kind: string, props: P)

  /** `PipelineTabDefinition`. */
  datatype Tab<P> = Tab(
    id: string,
    title: string,
    icon: string,
    requiresPush: bool,
    components: seq<Component<P>>)

  /** Why a tab definition is rejected; each error carries the tab id the
      message names. */
  datatype TabError =
    | MissingId
    | MissingTitle(id: string)
    | NoComponents(id: string)
    | UntypedComponent(id: string)

  /** The position of the first component without a type, if any. */
  function FirstUntyped<P>(components: seq<Component<P>>): (r: int)
    ensures -1 <= r < |components|
    ensures r == -1 <==> forall i :: 0 <= i < |components| ==> components[i].kind != ""
    ensures r >= 0 ==> components[r].kind == "" && forall i :: 0 <= i < r ==> components[i].kind != ""
  {
    if components == [] then -1
    else if components[0].kind == "" then 0
    else
      var r := FirstUntyped(components[1..]);
      if r == -1 then -1 else r + 1
  }

  /** `PipelineTabDefinition.Validate`: the id, the title, at least one
      component, and a type on every component, checked in that order;
      the first failing check names the error. */
  function Validate<P>(t: Tab<P>): (r: Option<TabError>)
    ensures r.None? <==>
      t.id != "" && t.title != "" && |t.components| > 0
      && forall i :: 0 <= i < |t.components| ==> t.components[i].kind != ""
    ensures r == Some(MissingId) <==> t.id == ""
    ensures r == Some(MissingTitle(t.id)) <==> t.id != "" && t.title == ""
    ensures r == Some(NoComponents(t.id)) <==> t.id != "" && t.title != "" && |t.components| == 0
    ensures r == Some(UntypedComponent(t.id)) <==>
      t.id != "" && t.title != "" && |t.components| > 0
      && exists i :: 0 <= i < |t.components| && t.components[i].kind == ""
  {
    if t.id == "" then Some(MissingId)
    else if t.title == "" then Some(MissingTitle(t.id))
    else if |t.components| == 0 then Some(NoComponents(t.id))
    else if FirstUntyped(t.components) >= 0 then Some(UntypedComponent(t.id))
    else None
  }
}
