/**
 * The mounting engine of src/DOM/mounting.ts as methods over the `Host` and the
 * `Lifecycle`. Each method is proved to leave the host, the queue and its result exactly as
 * the function of the same name in MountSpec describes.
 */
module Mounting {
  import opened Wrappers
  import opened VNodes
  import opened Dom
  import Spec = MountSpec

  /** `mount(vNode, parentDom, lifecycle, context, isSVG)`. */
  method Mount(host: Host, vNode: VNode, parentDom: Option<NodeId>, lifecycle: Lifecycle, context: Context, isSVG: bool)
    returns (r: Result<Spec.Mounted, Spec.MountError>)
    requires WellFormed(vNode) && Spec.Fits(Snapshot(host, lifecycle), parentDom)
    modifies host, lifecycle
    ensures Spec.Mount(old(Snapshot(host, lifecycle)), vNode, parentDom, context, isSVG) == Spec.Outcome(Snapshot(host, lifecycle), r)
    decreases vNode, 4, 0
  {
    var flags := vNode.flags;
    match KindOf(flags)
    case Some(ElementKind) =>
      r := MountElement(host, vNode, parentDom, lifecycle, context, isSVG || HasBit(flags, SvgElement));
    case Some(ComponentKind) =>
      r := MountComponent(host, vNode, parentDom, lifecycle, context, isSVG, HasBit(flags, ComponentClass));
    case Some(VoidKind) =>
      var m := MountVoid(host, vNode, parentDom);
      r := Ok(m);
    case Some(FragmentKind) =>
      r := MountFragment(host, vNode, parentDom, lifecycle, context, isSVG);
    case Some(TextKind) =>
      var m := MountText(host, vNode, parentDom);
      r := Ok(m);
    case None =>
      r := Err(Spec.InvalidNode);
  }

  /** `mountText(vNode, parentDom)`; it never touches the lifecycle queue. */
  method MountText(host: Host, vNode: VNode, parentDom: Option<NodeId>) returns (m: Spec.Mounted)
    requires parentDom.Some? ==> parentDom.value < |host.nodes|
    modifies host
    ensures forall q :: Spec.MountText(World(old(host.State()), q), vNode, parentDom) == Spec.Outcome(World(host.State(), q), Ok(m))
  {
    var dom := host.CreateTextNode(TextOf(vNode.children));
    if parentDom.Some? {
      host.AppendChild(parentDom.value, dom);
    }
    m := Spec.Mounted(dom, vNode.(dom := Some(dom)));
  }

  /** `mountVoid(vNode, parentDom)`; it never touches the lifecycle queue. */
  method MountVoid(host: Host, vNode: VNode, parentDom: Option<NodeId>) returns (m: Spec.Mounted)
    requires parentDom.Some? ==> parentDom.value < |host.nodes|
    modifies host
    ensures forall q :: Spec.MountVoid(World(old(host.State()), q), vNode, parentDom) == Spec.Outcome(World(host.State(), q), Ok(m))
  {
    var dom := host.CreateTextNode("");
    if parentDom.Some? {
      host.AppendChild(parentDom.value, dom);
    }
    m := Spec.Mounted(dom, vNode.(dom := Some(dom)));
  }

  /** `mountElement(vNode, parentDom, lifecycle, context, isSVG)`. */
  method MountElement(host: Host, vNode: VNode, parentDom: Option<NodeId>, lifecycle: Lifecycle, context: Context, isSVG: bool)
    returns (r: Result<Spec.Mounted, Spec.MountError>)
    requires WellFormed(vNode) && vNode.vtype.Tag? && Spec.Fits(Snapshot(host, lifecycle), parentDom)
    modifies host, lifecycle
    ensures Spec.MountElement(old(Snapshot(host, lifecycle)), vNode, parentDom, context, isSVG) == Spec.Outcome(Snapshot(host, lifecycle), r)
    decreases vNode, 3, 0
  {
    ghost var w := Snapshot(host, lifecycle);
    var dom := host.CreateElement(vNode.vtype.name, isSVG);
    var children := vNode.children;
    var props := vNode.props;
    var ref := vNode.ref;
    if !IsNullOrUndef(ref) {
      var bound := MountRef(dom, ref, lifecycle);
      if bound.Err? {
        return Err(bound.error);
      }
    }
    ghost var w2 := Snapshot(host, lifecycle);
    assert Spec.MountElement(w, vNode, parentDom, context, isSVG) == Spec.ElementRest(w, w2, vNode, dom, parentDom, context, isSVG);
    Spec.ElementRestOutcome(w, w2, vNode, dom, parentDom, context, isSVG);
    if props.Some? {
      PatchProps(host, props.value, dom, isSVG);
    }
    var c := MountElementChildren(host, vNode, dom, lifecycle, context, isSVG);
    if c.Err? {
      return Err(c.error);
    }
    if parentDom.Some? {
      host.AppendChild(parentDom.value, dom);
    }
    r := Ok(Spec.Mounted(dom, vNode.(dom := Some(dom), children := Spec.MountedChildren(children, c.value))));
  }

  /** The children branch of `mountElement`: a string, a list, or one nested VNode. */
  method MountElementChildren(host: Host, vNode: VNode, dom: NodeId, lifecycle: Lifecycle, context: Context, isSVG: bool)
    returns (r: Result<seq<Spec.Mounted>, Spec.MountError>)
    requires WellFormed(vNode) && dom < |host.nodes|
    modifies host, lifecycle
    ensures Spec.MountElementChildren(old(Snapshot(host, lifecycle)), vNode, dom, context, isSVG) == Spec.Outcome(Snapshot(host, lifecycle), r)
    decreases vNode, 2, 1
  {
    match vNode.children
    case Text(s) =>
      host.SetTextContent(dom, s);
      r := Ok([]);
    case Many(_) =>
      r := MountChildren(host, vNode, dom, lifecycle, context, isSVG);
    case One(kid) =>
      var c := Mount(host, kid, Some(dom), lifecycle, context, isSVG);
      r := if c.Err? then Err(c.error) else Ok([c.value]);
    case _ =>
      r := Ok([]);
  }

  /** The props loop of `mountElement`: `patchProp(prop, null, props[prop], dom, isSVG)` for every key. */
  method PatchProps(host: Host, props: Props, dom: NodeId, isSVG: bool)
    modifies host
    ensures host.State() == old(host.State()).Log(Spec.PatchCalls(props, dom, isSVG))
  {
    ghost var calls := Spec.PatchCalls(props, dom, isSVG);
    for i := 0 to |props|
      invariant host.State() == old(host.State()).Log(calls[..i])
    {
      host.PatchProp(props[i].name, Value.Null, props[i].value, dom, isSVG);
      assert calls[..i + 1] == calls[..i] + [calls[i]];
    }
    assert calls[..|props|] == calls;
  }

  /**
   * The children loop of `mountElement` and `mountFragment`:
   * `for (let i = 0; i < children.length; i++) mount(children[i], dom, lifecycle, context, isSVG)`.
   */
  method MountChildren(host: Host, vNode: VNode, dom: NodeId, lifecycle: Lifecycle, context: Context, isSVG: bool)
    returns (r: Result<seq<Spec.Mounted>, Spec.MountError>)
    requires WellFormed(vNode) && vNode.children.Many? && dom < |host.nodes|
    modifies host, lifecycle
    ensures Spec.MountChildren(old(Snapshot(host, lifecycle)), vNode, 0, dom, context, isSVG) == Spec.Outcome(Snapshot(host, lifecycle), r)
    decreases vNode, 2, 0
  {
    var children := vNode.children.kids;
    ghost var w := Snapshot(host, lifecycle);
    var mounted: seq<Spec.Mounted> := [];
    Spec.PrefixedNil(Spec.MountChildren(w, vNode, 0, dom, context, isSVG));
    for i := 0 to |children|
      invariant dom < |host.nodes|
      invariant Spec.MountChildren(w, vNode, 0, dom, context, isSVG)
                == Spec.Prefixed(mounted, Spec.MountChildren(Snapshot(host, lifecycle), vNode, i, dom, context, isSVG))
    {
      ghost var wi := Snapshot(host, lifecycle);
      var c := Mount(host, children[i], Some(dom), lifecycle, context, isSVG);
      if c.Err? {
        return Err(c.error);
      }
      Spec.PrefixedCons(mounted, c.value, Spec.MountChildren(Snapshot(host, lifecycle), vNode, i + 1, dom, context, isSVG));
      mounted := mounted + [c.value];
    }
    assert mounted + [] == mounted;
    r := Ok(mounted);
  }

  /**
   * `mountFragment(vNode, parentDom, lifecycle, context, isSVG)`. Its loop runs over
   * `children.length`, which only a list of children has in a useful way.
   */
  method MountFragment(host: Host, vNode: VNode, parentDom: Option<NodeId>, lifecycle: Lifecycle, context: Context, isSVG: bool)
    returns (r: Result<Spec.Mounted, Spec.MountError>)
    requires WellFormed(vNode) && Spec.Fits(Snapshot(host, lifecycle), parentDom)
    modifies host, lifecycle
    ensures Spec.MountFragment(old(Snapshot(host, lifecycle)), vNode, parentDom, context, isSVG) == Spec.Outcome(Snapshot(host, lifecycle), r)
    decreases vNode, 3, 0
  {
    var children := vNode.children;
    var dom := host.CreateDocumentFragment();
    var mounted: seq<Spec.Mounted> := [];
    match children {
      case Many(_) =>
        var c := MountChildren(host, vNode, dom, lifecycle, context, isSVG);
        if c.Err? {
          return Err(c.error);
        }
        mounted := c.value;
      case NoChildren =>
        // `children.length` of null or undefined throws.
        return Err(Spec.TypeError);
      case Text(s) =>
        if s != "" {
          // `mount(children[0], ...)` of a one-character string reaches the switch's default.
          return Err(Spec.InvalidNode);
        }
      case _ =>
    }
    if parentDom.Some? {
      host.AppendChild(parentDom.value, dom);
    }
    r := Ok(Spec.Mounted(dom, vNode.(dom := Some(dom), children := Spec.MountedChildren(children, mounted))));
  }

  /** `mountComponent(vNode, parentDom, lifecycle, context, isSVG, isClass)`. */
  method MountComponent(host: Host, vNode: VNode, parentDom: Option<NodeId>, lifecycle: Lifecycle, context: Context,
                        isSVG: bool, isClass: bool)
    returns (r: Result<Spec.Mounted, Spec.MountError>)
    requires WellFormed(vNode) && vNode.render.Some? && Spec.Fits(Snapshot(host, lifecycle), parentDom)
    modifies host, lifecycle
    ensures Spec.MountComponent(old(Snapshot(host, lifecycle)), vNode, parentDom, context, isSVG, isClass)
            == Spec.Outcome(Snapshot(host, lifecycle), r)
    decreases vNode, 3, 0
  {
    var vtype := vNode.vtype;
    var props := PropsOrEmpty(vNode.props);
    var ref := vNode.ref;
    var rendering := vNode.render.value;
    if isClass {
      if vtype.NoType? {
        // `type.defaultProps` of null or undefined throws.
        return Err(Spec.TypeError);
      }
      var defaultProps := DefaultPropsOf(vtype);
      var vprops := vNode.props;
      if defaultProps.Some? {
        props := CopyPropsTo(defaultProps.value, props);
        vprops := Some(props);
      }
      var instance := host.CreateStatefulComponentInstance(vtype, props, context, isSVG, rendering);
      var inst := host.instances[instance];
      var sub := Mount(host, inst.lastInput, None, lifecycle, inst.childContext, isSVG);
      if sub.Err? {
        return Err(sub.error);
      }
      var dom := sub.value.dom;
      host.SetLastInput(instance, sub.value.vnode);
      if parentDom.Some? {
        host.AppendChild(parentDom.value, dom);
      }
      var bound := MountStatefulComponentCallbacks(host, ref, instance, inst, lifecycle);
      if bound.Err? {
        return Err(bound.error);
      }
      host.SetComponentNode(instance, dom);
      r := Ok(Spec.Mounted(dom, vNode.(props := vprops, dom := Some(dom), children := InstanceOf(instance, sub.value.vnode))));
    } else {
      host.CreateStatelessComponentInput(vtype, props, context);
      var input := rendering.input;
      var sub := Mount(host, input, None, lifecycle, context, isSVG);
      if sub.Err? {
        return Err(sub.error);
      }
      var dom := sub.value.dom;
      MountStatelessComponentCallbacks(host, ref, dom, lifecycle);
      if parentDom.Some? {
        host.AppendChild(parentDom.value, dom);
      }
      r := Ok(Spec.Mounted(dom, vNode.(dom := Some(dom), children := One(sub.value.vnode))));
    }
  }

  /**
   * `mountStatefulComponentCallbacks(ref, instance, lifecycle)`, the instance object being its
   * id and its contents; reads `instance.componentDidMount`.
   */
  method MountStatefulComponentCallbacks(host: Host, ref: Ref, instance: InstanceId, inst: Instance, lifecycle: Lifecycle)
    returns (r: Result<(), Spec.MountError>)
    modifies lifecycle
    ensures Spec.MountStatefulComponentCallbacks(old(Snapshot(host, lifecycle)), ref, instance, inst) == Spec.Outcome(Snapshot(host, lifecycle), r)
  {
    if Truthy(ref) {
      if ref.FunctionRef? {
        lifecycle.AddListener(RefCall(ref.fn, InstanceTarget(instance)));
      } else {
        return Err(Spec.UnsupportedRefKind);
      }
    }
    if inst.hasDidMount {
      lifecycle.AddListener(ComponentDidMount(instance));
    }
    r := Ok(());
  }

  /** `mountStatelessComponentCallbacks(ref, dom, lifecycle)`. */
  method MountStatelessComponentCallbacks(host: Host, ref: Ref, dom: NodeId, lifecycle: Lifecycle)
    modifies host, lifecycle
    ensures Spec.MountStatelessComponentCallbacks(old(Snapshot(host, lifecycle)), ref, dom) == Snapshot(host, lifecycle)
  {
    if Truthy(ref) {
      var willMount := WillMountHook(ref);
      if willMount.Some? {
        host.CallWillMount(willMount.value);
      }
      var didMount := DidMountHook(ref);
      if didMount.Some? {
        lifecycle.AddListener(HookDidMount(didMount.value, dom));
      }
    }
  }

  /** `mountRef(dom, value, lifecycle)`; it never touches the host. */
  method MountRef(dom: NodeId, value: Ref, lifecycle: Lifecycle) returns (r: Result<(), Spec.MountError>)
    modifies lifecycle
    ensures forall h :: Spec.MountRef(World(h, old(lifecycle.listeners)), dom, value) == Spec.Outcome(World(h, lifecycle.listeners), r)
  {
    if value.FunctionRef? {
      lifecycle.AddListener(RefCall(value.fn, DomTarget(dom)));
      r := Ok(());
    } else if IsInvalid(value) {
      r := Ok(());
    } else {
      r := Err(Spec.UnsupportedRefKind);
    }
  }
}
