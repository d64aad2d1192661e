/** The contract of `IPolicyContext`: the conversation-scoped state one
    request carries through its policies.

    Only the interface exists in this model's sources, so the context is an
    abstract record: attributes by name, the components registered by type,
    and the single connector-interceptor slot. `A` is the attribute value
    type, `C` the component type and `I` the interceptor type. */
module PolicyContext {
  import opened Common

  /** The errors the interface declares. */
  datatype ContextError =
    | ComponentNotFound(componentType: string)
    | InterceptorAlreadyRegistered

  datatype Context<A, C, I> = Context(
    attributes: map<string, A>,
    components: map<string, C>,
    interceptor: Option<I>)

  /** The answer of `removeAttribute` together with the context after it. */
  datatype Removal<A, C, I> = Removal(context: Context<A, C, I>, removed: bool)

  /** A fresh context for one execution: no attributes, no interceptor, and
      the components registered for the process. */
  function NewContext<A, C, I>(components: map<string, C>): Context<A, C, I> {
    Context(map[], components, None)
  }

  /** `setAttribute(name, value)`. */
  function SetAttribute<A, C, I>(ctx: Context<A, C, I>, name: string, value: A): (r: Context<A, C, I>)
    ensures r.components == ctx.components && r.interceptor == ctx.interceptor
    ensures r.attributes.Keys == ctx.attributes.Keys + {name}
  {
    ctx.(attributes := ctx.attributes[name := value])
  }

  /** `getAttribute(name, defaultValue)`: never fails. */
  function GetAttribute<A, C, I>(ctx: Context<A, C, I>, name: string, default: A): (r: A)
    ensures name !in ctx.attributes ==> r == default
  {
    if name in ctx.attributes then ctx.attributes[name] else default
  }

  /** `removeAttribute(name)`: reports whether an attribute was removed. */
  function RemoveAttribute<A, C, I>(ctx: Context<A, C, I>, name: string): (r: Removal<A, C, I>)
    ensures r.removed <==> name in ctx.attributes
    ensures r.context.attributes.Keys == ctx.attributes.Keys - {name}
    ensures r.context.components == ctx.components && r.context.interceptor == ctx.interceptor
  {
    Removal(ctx.(attributes := ctx.attributes - {name}), name in ctx.attributes)
  }

  /** `getComponent(componentClass)`. */
  function GetComponent<A, C, I>(ctx: Context<A, C, I>, componentType: string): (r: Result<C, ContextError>)
    ensures r.Ok? <==> componentType in ctx.components
    ensures r.Err? ==> r.error == ComponentNotFound(componentType)
  {
    if componentType in ctx.components then Ok(ctx.components[componentType])
    else Err(ComponentNotFound(componentType))
  }

  /** `setConnectorInterceptor(i)`: the slot can be written once. */
  function SetConnectorInterceptor<A, C, I>(ctx: Context<A, C, I>, i: I): (r: Result<Context<A, C, I>, ContextError>)
    ensures r.Ok? <==> ctx.interceptor.None?
    ensures r.Err? ==> r.error == InterceptorAlreadyRegistered
  {
    if ctx.interceptor.Some? then Err(InterceptorAlreadyRegistered)
    else Ok(ctx.(interceptor := Some(i)))
  }

  /** `getConnectorInterceptor()`: the interceptor set, or null. */
  function GetConnectorInterceptor<A, C, I>(ctx: Context<A, C, I>): Option<I> {
    ctx.interceptor
  }

  // ---------------------------------------------------------------------
  // Attributes
  // ---------------------------------------------------------------------

  /** After `setAttribute(name, v)`, `getAttribute(name, d)` yields `v` and
      every other attribute reads as before. */
  lemma SetThenGet<A, C, I>(ctx: Context<A, C, I>, name: string, v: A, other: string, d: A)
    ensures GetAttribute(SetAttribute(ctx, name, v), name, d) == v
    ensures other != name ==> GetAttribute(SetAttribute(ctx, name, v), other, d) == GetAttribute(ctx, other, d)
  {
  }

  /** A name never set yields the default, in a fresh context in particular. */
  lemma FreshContextYieldsDefault<A, C, I>(components: map<string, C>, name: string, d: A)
    ensures GetAttribute(NewContext<A, C, I>(components), name, d) == d
  {
  }

  /** After `removeAttribute`, the name yields the default, a second removal
      reports false, and other attributes are unchanged. */
  lemma RemoveThenGet<A, C, I>(ctx: Context<A, C, I>, name: string, other: string, d: A)
    ensures var r := RemoveAttribute(ctx, name);
      && GetAttribute(r.context, name, d) == d
      && !RemoveAttribute(r.context, name).removed
      && (other != name ==> GetAttribute(r.context, other, d) == GetAttribute(ctx, other, d))
  {
  }

  /** Setting then removing reports a removal whatever was there before. */
  lemma SetThenRemove<A, C, I>(ctx: Context<A, C, I>, name: string, v: A)
    ensures RemoveAttribute(SetAttribute(ctx, name, v), name).removed
    ensures RemoveAttribute(SetAttribute(ctx, name, v), name).context.attributes == ctx.attributes - {name}
  {
  }

  // ---------------------------------------------------------------------
  // Components
  // ---------------------------------------------------------------------

  /** `getComponent` returns the component registered for the type, and
      attribute writes never change what it returns. */
  lemma ComponentLookup<A, C, I>(ctx: Context<A, C, I>, componentType: string, name: string, v: A)
    ensures componentType in ctx.components ==> GetComponent(ctx, componentType) == Ok(ctx.components[componentType])
    ensures GetComponent(SetAttribute(ctx, name, v), componentType) == GetComponent(ctx, componentType)
  {
  }

  // ---------------------------------------------------------------------
  // Connector interceptor
  // ---------------------------------------------------------------------

  /** The slot after each of a sequence of `setConnectorInterceptor` calls,
      and whether each call succeeded. */
  function RegisterAll<A, C, I>(ctx: Context<A, C, I>, interceptors: seq<I>): (r: (Context<A, C, I>, seq<bool>))
    ensures |r.1| == |interceptors|
    decreases |interceptors|
  {
    if |interceptors| == 0 then (ctx, [])
    else
      match SetConnectorInterceptor(ctx, interceptors[0])
      case Ok(ctx') => var rest := RegisterAll(ctx', interceptors[1..]); (rest.0, [true] + rest.1)
      case Err(_) => var rest := RegisterAll(ctx, interceptors[1..]); (rest.0, [false] + rest.1)
  }

  /** Once the slot is filled every further registration fails and the slot
      keeps its interceptor. */
  lemma {:induction false} FilledSlotRejectsAll<A, C, I>(ctx: Context<A, C, I>, interceptors: seq<I>)
    requires ctx.interceptor.Some?
    ensures RegisterAll(ctx, interceptors).0 == ctx
    ensures forall j :: 0 <= j < |interceptors| ==> !RegisterAll(ctx, interceptors).1[j]
    decreases |interceptors|
  {
    if |interceptors| > 0 {
      FilledSlotRejectsAll(ctx, interceptors[1..]);
    }
  }

  /** On a context with an empty slot, exactly the first registration
      succeeds, and `getConnectorInterceptor` then returns that first
      interceptor; before any registration it returns none. */
  lemma {:induction false} OnlyFirstRegistrationSucceeds<A, C, I>(ctx: Context<A, C, I>, interceptors: seq<I>)
    requires ctx.interceptor.None?
    ensures |interceptors| == 0 ==> GetConnectorInterceptor(RegisterAll(ctx, interceptors).0) == None
    ensures |interceptors| > 0 ==> GetConnectorInterceptor(RegisterAll(ctx, interceptors).0) == Some(interceptors[0])
    ensures forall j :: 0 <= j < |interceptors| ==> (RegisterAll(ctx, interceptors).1[j] <==> j == 0)
    ensures RegisterAll(ctx, interceptors).0.attributes == ctx.attributes
  {
    if |interceptors| > 0 {
      var ctx' := ctx.(interceptor := Some(interceptors[0]));
      FilledSlotRejectsAll(ctx', interceptors[1..]);
    }
  }
}
