/**
 Lifecycle hook dispatch. A model's hook methods are described by the map
 from each hook it declares to the error that hook returns. The model has
 the `Hookable` capability only when it declares all four.
 */
module Hooks {
  import opened Wrappers
  import opened Errors

  datatype Hook = BeforeSave | AfterFind | BeforeDelete | AfterDelete

  /** The hook methods a model declares, with what each returns. */
  type Methods = map<Hook, Option<Error>>

  /** The `Hookable` interface: all four methods must be present. */
  predicate Hookable(methods: Methods) {
    forall h: Hook :: h in methods
  }

  /** What a dispatch did: the hook it invoked, if any, and the error it reports. */
  datatype HookCall = HookCall(invoked: Option<Hook>, result: Option<Error>)

  /** The shared shape of the four dispatchers. */
  function Dispatch(methods: Methods, hook: Hook): (c: HookCall)
    ensures c.invoked.Some? <==> Hookable(methods)
    ensures c.invoked.Some? ==> c.invoked.value == hook && c.result == methods[hook]
    ensures c.invoked.None? ==> c.result.None?
  {
    if Hookable(methods) then HookCall(Some(hook), methods[hook]) else HookCall(None, None)
  }

  /** `CallBeforeSave`. */
  function CallBeforeSave(methods: Methods): (c: HookCall)
    ensures Hookable(methods) ==> c == HookCall(Some(BeforeSave), methods[BeforeSave])
    ensures !Hookable(methods) ==> c == HookCall(None, None)
  {
    Dispatch(methods, BeforeSave)
  }

  /** `CallAfterFind`. */
  function CallAfterFind(methods: Methods): (c: HookCall)
    ensures Hookable(methods) ==> c == HookCall(Some(AfterFind), methods[AfterFind])
    ensures !Hookable(methods) ==> c == HookCall(None, None)
  {
    Dispatch(methods, AfterFind)
  }

  /** `CallBeforeDelete`. */
  function CallBeforeDelete(methods: Methods): (c: HookCall)
    ensures Hookable(methods) ==> c == HookCall(Some(BeforeDelete), methods[BeforeDelete])
    ensures !Hookable(methods) ==> c == HookCall(None, None)
  {
    Dispatch(methods, BeforeDelete)
  }

  /** `CallAfterDelete`. */
  function CallAfterDelete(methods: Methods): (c: HookCall)
    ensures Hookable(methods) ==> c == HookCall(Some(AfterDelete), methods[AfterDelete])
    ensures !Hookable(methods) ==> c == HookCall(None, None)
  {
    Dispatch(methods, AfterDelete)
  }

  /**
   A model that declares only some of the hook methods is not `Hookable`:
   every dispatcher is then a no-op, even for the hooks it does declare.
   */
  lemma PartialHooksAreInert(methods: Methods, missing: Hook, hook: Hook)
    requires missing !in methods
    ensures !Hookable(methods)
    ensures Dispatch(methods, hook) == HookCall(None, None)
  {
  }

  /** Each dispatcher invokes its own hook and no other. */
  lemma DispatchInvokesOnlyItsOwnHook(methods: Methods, hook: Hook, other: Hook)
    requires other != hook
    ensures Dispatch(methods, hook).invoked != Some(other)
  {
  }
}
