/**
 * Properties of the mounting engine, proved about the functions of MountSpec (which the
 * methods of Mounting are proved to follow).
 */
module MountProperties {
  import opened Wrappers
  import opened VNodes
  import opened Dom
  import opened MountSpec

  // ---------------------------------------------------------------------------------------
  // SVG mode is sticky downward.

  /** A host call that carries the SVG flag carries `true`. */
  predicate SvgCall(e: Effect)
  {
    match e
    case CreatedElement(_, _, svg) => svg
    case PropPatched(_, _, _, _, svg) => svg
    case InstanceCreated(_, _, _, _, svg) => svg
    case _ => true
  }

  /** Every call logged from position `from` on is made in SVG mode. */
  predicate SvgFrom(t: seq<Effect>, from: nat)
  {
    forall k | from <= k < |t| :: SvgCall(t[k])
  }

  lemma SvgChain(t0: seq<Effect>, t1: seq<Effect>, t2: seq<Effect>)
    requires t0 <= t1 <= t2 && SvgFrom(t1, |t0|) && SvgFrom(t2, |t1|)
    ensures SvgFrom(t2, |t0|)
  {
    forall k | |t0| <= k < |t2| ensures SvgCall(t2[k]) {
      if k < |t1| { assert t2[k] == t1[k]; }
    }
  }

  /**
   * Mounting in SVG mode, or mounting an SVG element, makes every element creation, every
   * prop patch and every stateful instance creation of the whole subtree in SVG mode.
   */
  lemma {:induction false} SvgStickyMount(w: World, v: VNode, parent: Option<NodeId>, ctx: Context, isSVG: bool)
    requires WellFormed(v) && Fits(w, parent) && (isSVG || v.flags == SvgElement)
    ensures SvgFrom(Mount(w, v, parent, ctx, isSVG).world.host.trace, |w.host.trace|)
    decreases v, 4, 0
  {
    match KindOf(v.flags)
    case None =>
    case Some(ElementKind) =>
      assert isSVG || HasBit(v.flags, SvgElement);
      SvgStickyElement(w, v, parent, ctx);
    case Some(ComponentKind) => SvgStickyComponent(w, v, parent, ctx, HasBit(v.flags, ComponentClass));
    case Some(VoidKind) =>
    case Some(FragmentKind) => SvgStickyFragment(w, v, parent, ctx);
    case Some(TextKind) =>
  }

  lemma {:induction false} SvgStickyElement(w: World, v: VNode, parent: Option<NodeId>, ctx: Context)
    requires WellFormed(v) && v.vtype.Tag? && Fits(w, parent)
    ensures SvgFrom(MountElement(w, v, parent, ctx, true).world.host.trace, |w.host.trace|)
    decreases v, 3, 0
  {
    var tag := v.vtype.name;
    var dom := |w.host.nodes|;
    var w1 := w.(host := w.host.AddNode(DomNode(ElementNode, tag, true, "", []), CreatedElement(dom, tag, true)));
    var r := if IsNullOrUndef(v.ref) then Outcome(w1, Ok(())) else MountRef(w1, dom, v.ref);
    assert SvgFrom(r.world.host.trace, |w.host.trace|);
    if r.result.Ok? {
      SvgStickyRest(w, r.world, v, dom, parent, ctx);
    }
  }

  lemma {:induction false} SvgStickyRest(w: World, w2: World, v: VNode, dom: NodeId, parent: Option<NodeId>, ctx: Context)
    requires WellFormed(v) && Fits(w, parent) && Extends(w, w2)
    requires dom == |w.host.nodes| && |w2.host.nodes| == dom + 1 && w2.host.nodes[..dom] == w.host.nodes
    requires w2.host.nodes[dom].children == [] && w.host.trace < w2.host.trace
    requires SvgFrom(w2.host.trace, |w.host.trace|)
    ensures SvgFrom(ElementRest(w, w2, v, dom, parent, ctx, true).world.host.trace, |w.host.trace|)
    decreases v, 2, 1
  {
    var w3 := if v.props.Some? then w2.(host := w2.host.Log(PatchCalls(v.props.value, dom, true))) else w2;
    assert SvgFrom(w3.host.trace, |w.host.trace|);
    var c := MountElementChildren(w3, v, dom, ctx, true);
    SvgStickyElementChildren(w3, v, dom, ctx);
    SvgChain(w.host.trace, w3.host.trace, c.world.host.trace);
    if c.result.Ok? {
      var t := Attach(c.world.host, parent, dom).trace;
      SvgChain(w.host.trace, c.world.host.trace, t);
    }
  }

  lemma {:induction false} SvgStickyElementChildren(w: World, v: VNode, dom: NodeId, ctx: Context)
    requires WellFormed(v) && dom < |w.host.nodes|
    ensures SvgFrom(MountElementChildren(w, v, dom, ctx, true).world.host.trace, |w.host.trace|)
    decreases v, 2, 0
  {
    match v.children
    case Text(s) =>
    case Many(_) => SvgStickyChildren(w, v, 0, dom, ctx);
    case One(kid) => SvgStickyMount(w, kid, Some(dom), ctx, true);
    case _ =>
  }

  lemma {:induction false} SvgStickyChildren(w: World, v: VNode, i: nat, dom: NodeId, ctx: Context)
    requires WellFormed(v) && v.children.Many? && i <= |v.children.kids| && dom < |w.host.nodes|
    ensures SvgFrom(MountChildren(w, v, i, dom, ctx, true).world.host.trace, |w.host.trace|)
    decreases v, 1, |v.children.kids| - i
  {
    if i < |v.children.kids| {
      var first := Mount(w, v.children.kids[i], Some(dom), ctx, true);
      SvgStickyMount(w, v.children.kids[i], Some(dom), ctx, true);
      if first.result.Ok? {
        var rest := MountChildren(first.world, v, i + 1, dom, ctx, true);
        SvgStickyChildren(first.world, v, i + 1, dom, ctx);
        SvgChain(w.host.trace, first.world.host.trace, rest.world.host.trace);
      }
    }
  }

  lemma {:induction false} SvgStickyFragment(w: World, v: VNode, parent: Option<NodeId>, ctx: Context)
    requires WellFormed(v) && Fits(w, parent)
    ensures SvgFrom(MountFragment(w, v, parent, ctx, true).world.host.trace, |w.host.trace|)
    decreases v, 3, 0
  {
    var dom := |w.host.nodes|;
    var w1 := w.(host := w.host.AddNode(DomNode(FragmentNode, "", false, "", []), CreatedFragment(dom)));
    var c := FragmentChildren(w1, v, dom, ctx, true);
    if v.children.Many? {
      SvgStickyChildren(w1, v, 0, dom, ctx);
    }
    SvgChain(w.host.trace, w1.host.trace, c.world.host.trace);
    if c.result.Ok? {
      SvgChain(w.host.trace, c.world.host.trace, Attach(c.world.host, parent, dom).trace);
    }
  }

  lemma {:induction false} SvgStickyComponent(w: World, v: VNode, parent: Option<NodeId>, ctx: Context, isClass: bool)
    requires WellFormed(v) && v.render.Some? && Fits(w, parent)
    ensures SvgFrom(MountComponent(w, v, parent, ctx, true, isClass).world.host.trace, |w.host.trace|)
    decreases v, 3, 0
  {
    if isClass {
      SvgStickyStateful(w, v, parent, ctx);
    } else {
      SvgStickyStateless(w, v, parent, ctx);
    }
  }

  lemma {:induction false} SvgStickyStateful(w: World, v: VNode, parent: Option<NodeId>, ctx: Context)
    requires WellFormed(v) && v.render.Some? && Fits(w, parent)
    ensures SvgFrom(MountStateful(w, v, parent, ctx, true).world.host.trace, |w.host.trace|)
    decreases v, 2, 0
  {
    if !v.vtype.NoType? {
      var props := PropsOrEmpty(v.props);
      var r := v.render.value;
      var defaults := DefaultPropsOf(v.vtype);
      var merged := if defaults.Some? then CopyPropsTo(defaults.value, props) else props;
      var inst := Instance(v.vtype, merged, ctx, true, r.input, r.childContext, r.hasDidMount);
      var w1 := w.(host := w.host.AddInstance(inst));
      var sub := Mount(w1, r.input, None, r.childContext, true);
      StatefulTrace(w, v, parent, ctx, true, inst, sub);
      SvgStickyMount(w1, r.input, None, r.childContext, true);
      SvgChain(w.host.trace, w1.host.trace, sub.world.host.trace);
      if sub.result.Ok? {
        SvgChain(w.host.trace, sub.world.host.trace, sub.world.host.trace + AppendCall(parent, sub.result.value.dom));
      }
    }
  }

  lemma {:induction false} SvgStickyStateless(w: World, v: VNode, parent: Option<NodeId>, ctx: Context)
    requires WellFormed(v) && v.render.Some? && Fits(w, parent)
    ensures SvgFrom(MountStateless(w, v, parent, ctx, true).world.host.trace, |w.host.trace|)
    decreases v, 2, 0
  {
    var w1 := w.(host := w.host.Log([InputCreated(v.vtype, PropsOrEmpty(v.props), ctx)]));
    var sub := Mount(w1, v.render.value.input, None, ctx, true);
    SvgStickyMount(w1, v.render.value.input, None, ctx, true);
    SvgChain(w.host.trace, w1.host.trace, sub.world.host.trace);
    if sub.result.Ok? {
      var w2 := MountStatelessComponentCallbacks(sub.world, v.ref, sub.result.value.dom);
      SvgChain(w.host.trace, sub.world.host.trace, w2.host.trace);
      SvgChain(w.host.trace, w2.host.trace, Attach(w2.host, parent, sub.result.value.dom).trace);
    }
  }

  // ---------------------------------------------------------------------------------------
  // When mount succeeds.

  /**
   * A tree mount accepts: every flag is one of the switch's cases, every element's ref is a
   * function or invalid (null, undefined, a boolean), every stateful component has a type
   * and a ref that is a function or falsy, no fragment's children are absent or a non-empty
   * string; the rendered input of a component is part of the tree.
   */
  predicate Mountable(v: VNode)
    requires WellFormed(v)
    decreases v, 2
  {
    match KindOf(v.flags)
    case None => false
    case Some(ElementKind) => (v.ref.FunctionRef? || IsInvalid(v.ref)) && KidsMountable(v)
    case Some(ComponentKind) =>
      && (HasBit(v.flags, ComponentClass) ==> !v.vtype.NoType? && (!Truthy(v.ref) || v.ref.FunctionRef?))
      && Mountable(v.render.value.input)
    case Some(FragmentKind) => FragmentKidsMountable(v)
    case Some(_) => true
  }

  /** The fragment loop accepts: a list of mountable VNodes, the empty string, or a shape without a length. */
  predicate FragmentKidsMountable(v: VNode)
    requires WellFormed(v)
    decreases v, 1
  {
    match v.children
    case Many(_) => MountableFrom(v, 0)
    case NoChildren => false
    case Text(s) => s == ""
    case _ => true
  }

  /** Every VNode among `v.children` (a list or one nested VNode) is mountable. */
  predicate KidsMountable(v: VNode)
    requires WellFormed(v)
    decreases v, 1
  {
    && (v.children.Many? ==> MountableFrom(v, 0))
    && (v.children.One? ==> Mountable(v.children.kid))
  }

  /** The children of the list `v.children` from index `i` on are mountable. */
  predicate MountableFrom(v: VNode, i: nat)
    requires WellFormed(v) && v.children.Many? && i <= |v.children.kids|
    decreases v, 0, |v.children.kids| - i
  {
    i < |v.children.kids| ==> Mountable(v.children.kids[i]) && MountableFrom(v, i + 1)
  }

  /** `mount` returns normally exactly on mountable trees; otherwise it throws. */
  lemma {:induction false} MountOkIff(w: World, v: VNode, parent: Option<NodeId>, ctx: Context, isSVG: bool)
    requires WellFormed(v) && Fits(w, parent)
    ensures Mount(w, v, parent, ctx, isSVG).result.Ok? <==> Mountable(v)
    decreases v, 4, 0
  {
    match KindOf(v.flags)
    case None =>
    case Some(ElementKind) => ElementOkIff(w, v, parent, ctx, isSVG || HasBit(v.flags, SvgElement));
    case Some(ComponentKind) => ComponentOkIff(w, v, parent, ctx, isSVG, HasBit(v.flags, ComponentClass));
    case Some(VoidKind) =>
    case Some(FragmentKind) => FragmentOkIff(w, v, parent, ctx, isSVG);
    case Some(TextKind) =>
  }

  lemma {:induction false} ElementOkIff(w: World, v: VNode, parent: Option<NodeId>, ctx: Context, isSVG: bool)
    requires WellFormed(v) && v.vtype.Tag? && Fits(w, parent)
    ensures MountElement(w, v, parent, ctx, isSVG).result.Ok? <==> (v.ref.FunctionRef? || IsInvalid(v.ref)) && KidsMountable(v)
    decreases v, 3, 0
  {
    var tag := v.vtype.name;
    var dom := |w.host.nodes|;
    var w1 := w.(host := w.host.AddNode(DomNode(ElementNode, tag, isSVG, "", []), CreatedElement(dom, tag, isSVG)));
    var r := if IsNullOrUndef(v.ref) then Outcome(w1, Ok(())) else MountRef(w1, dom, v.ref);
    if r.result.Ok? {
      var w3 := if v.props.Some? then r.world.(host := r.world.host.Log(PatchCalls(v.props.value, dom, isSVG))) else r.world;
      ElementChildrenOkIff(w3, v, dom, ctx, isSVG);
    }
  }

  lemma {:induction false} ElementChildrenOkIff(w: World, v: VNode, dom: NodeId, ctx: Context, isSVG: bool)
    requires WellFormed(v) && dom < |w.host.nodes|
    ensures MountElementChildren(w, v, dom, ctx, isSVG).result.Ok? <==> KidsMountable(v)
    decreases v, 2, 0
  {
    match v.children
    case Text(s) =>
    case Many(_) => ChildrenOkIff(w, v, 0, dom, ctx, isSVG);
    case One(kid) => MountOkIff(w, kid, Some(dom), ctx, isSVG);
    case _ =>
  }

  lemma {:induction false} ChildrenOkIff(w: World, v: VNode, i: nat, dom: NodeId, ctx: Context, isSVG: bool)
    requires WellFormed(v) && v.children.Many? && i <= |v.children.kids| && dom < |w.host.nodes|
    ensures MountChildren(w, v, i, dom, ctx, isSVG).result.Ok? <==> MountableFrom(v, i)
    decreases v, 1, |v.children.kids| - i
  {
    var kids := v.children.kids;
    if i < |kids| {
      var o := MountChildren(w, v, i, dom, ctx, isSVG);
      var first := Mount(w, kids[i], Some(dom), ctx, isSVG);
      MountOkIff(w, kids[i], Some(dom), ctx, isSVG);
      if first.result.Ok? {
        var rest := MountChildren(first.world, v, i + 1, dom, ctx, isSVG);
        assert o == Prefixed([first.result.value], rest);
        ChildrenOkIff(first.world, v, i + 1, dom, ctx, isSVG);
      } else {
        assert o.result.Err?;
      }
    }
  }

  lemma {:induction false} FragmentOkIff(w: World, v: VNode, parent: Option<NodeId>, ctx: Context, isSVG: bool)
    requires WellFormed(v) && Fits(w, parent)
    ensures MountFragment(w, v, parent, ctx, isSVG).result.Ok? <==> FragmentKidsMountable(v)
    decreases v, 3, 0
  {
    var dom := |w.host.nodes|;
    var w1 := w.(host := w.host.AddNode(DomNode(FragmentNode, "", false, "", []), CreatedFragment(dom)));
    if v.children.Many? {
      ChildrenOkIff(w1, v, 0, dom, ctx, isSVG);
    }
  }

  lemma {:induction false} ComponentOkIff(w: World, v: VNode, parent: Option<NodeId>, ctx: Context, isSVG: bool, isClass: bool)
    requires WellFormed(v) && v.render.Some? && Fits(w, parent)
    ensures MountComponent(w, v, parent, ctx, isSVG, isClass).result.Ok? <==>
              (isClass ==> !v.vtype.NoType? && (!Truthy(v.ref) || v.ref.FunctionRef?)) && Mountable(v.render.value.input)
    decreases v, 3, 0
  {
    var props := PropsOrEmpty(v.props);
    var rendering := v.render.value;
    if isClass && v.vtype.NoType? {
    } else if isClass {
      var defaultProps := DefaultPropsOf(v.vtype);
      var merged := if defaultProps.Some? then CopyPropsTo(defaultProps.value, props) else props;
      var w1 := w.(host := w.host.AddInstance(
        Instance(v.vtype, merged, ctx, isSVG, rendering.input, rendering.childContext, rendering.hasDidMount)));
      MountOkIff(w1, rendering.input, None, rendering.childContext, isSVG);
    } else {
      var w1 := w.(host := w.host.Log([InputCreated(v.vtype, props, ctx)]));
      MountOkIff(w1, rendering.input, None, ctx, isSVG);
    }
  }

  // ---------------------------------------------------------------------------------------
  // Every mounted VNode holds its node.

  /**
   * Every VNode mount reaches in `v` holds a node id in `[lo, hi)`: elements and fragments
   * through their children, a component through its rendered input, whose node it shares
   * and which is its children (a stateless one) or its instance's last input (a stateful one).
   */
  predicate MountedTree(v: VNode, lo: nat, hi: nat)
    decreases v
  {
    && v.dom.Some? && lo <= v.dom.value < hi
    && match KindOf(v.flags)
       case Some(ElementKind) => KidsMounted(v.children, lo, hi)
       case Some(FragmentKind) => v.children.Many? ==> KidsMounted(v.children, lo, hi)
       case Some(ComponentKind) =>
         if HasBit(v.flags, ComponentClass) then
           v.children.InstanceOf? && v.children.input.dom == v.dom && MountedTree(v.children.input, lo, hi)
         else v.children.One? && v.children.kid.dom == v.dom && MountedTree(v.children.kid, lo, hi)
       case _ => true
  }

  predicate KidsMounted(c: Children, lo: nat, hi: nat)
    decreases c
  {
    match c
    case Many(kids) => forall k | 0 <= k < |kids| :: MountedTree(kids[k], lo, hi)
    case One(kid) => MountedTree(kid, lo, hi)
    case _ => true
  }

  lemma {:induction false} MountedTreeWiden(v: VNode, lo: nat, hi: nat, lo': nat, hi': nat)
    requires MountedTree(v, lo, hi) && lo' <= lo && hi <= hi'
    ensures MountedTree(v, lo', hi')
    decreases v
  {
    match v.children
    case Many(kids) =>
      forall k | 0 <= k < |kids| && MountedTree(kids[k], lo, hi) ensures MountedTree(kids[k], lo', hi') {
        MountedTreeWiden(kids[k], lo, hi, lo', hi');
      }
    case One(kid) =>
      if MountedTree(kid, lo, hi) { MountedTreeWiden(kid, lo, hi, lo', hi'); }
    case InstanceOf(_, input) =>
      if MountedTree(input, lo, hi) { MountedTreeWiden(input, lo, hi, lo', hi'); }
    case _ =>
  }

  /**
   * After a successful mount the result is `v` mounted in place, and every VNode of it that
   * mount reaches holds a node this mount created.
   */
  lemma {:induction false} MountedTreeMount(w: World, v: VNode, parent: Option<NodeId>, ctx: Context, isSVG: bool)
    requires WellFormed(v) && Fits(w, parent)
    ensures var o := Mount(w, v, parent, ctx, isSVG);
            o.result.Ok? ==>
              MountedFrom(v, o.result.value.vnode) && MountedTree(o.result.value.vnode, |w.host.nodes|, |o.world.host.nodes|)
    decreases v, 4, 0
  {
    match KindOf(v.flags)
    case None =>
    case Some(ElementKind) => MountedTreeElement(w, v, parent, ctx, isSVG || HasBit(v.flags, SvgElement));
    case Some(ComponentKind) => MountedTreeComponent(w, v, parent, ctx, isSVG, HasBit(v.flags, ComponentClass));
    case Some(VoidKind) =>
    case Some(FragmentKind) => MountedTreeFragment(w, v, parent, ctx, isSVG);
    case Some(TextKind) =>
  }

  lemma {:induction false} MountedTreeElement(w: World, v: VNode, parent: Option<NodeId>, ctx: Context, isSVG: bool)
    requires WellFormed(v) && KindOf(v.flags) == Some(ElementKind) && Fits(w, parent)
    ensures var o := MountElement(w, v, parent, ctx, isSVG);
            o.result.Ok? ==>
              ElementMountedFrom(v, o.result.value.vnode) && MountedTree(o.result.value.vnode, |w.host.nodes|, |o.world.host.nodes|)
    decreases v, 3, 0
  {
    var tag := v.vtype.name;
    var dom := |w.host.nodes|;
    var w1 := w.(host := w.host.AddNode(DomNode(ElementNode, tag, isSVG, "", []), CreatedElement(dom, tag, isSVG)));
    var r := if IsNullOrUndef(v.ref) then Outcome(w1, Ok(())) else MountRef(w1, dom, v.ref);
    if r.result.Ok? {
      MountedTreeRest(w, r.world, v, dom, parent, ctx, isSVG);
    }
  }

  lemma {:induction false} MountedTreeRest(w: World, w2: World, v: VNode, dom: NodeId, parent: Option<NodeId>, ctx: Context, isSVG: bool)
    requires WellFormed(v) && KindOf(v.flags) == Some(ElementKind) && Fits(w, parent) && Extends(w, w2)
    requires dom == |w.host.nodes| && |w2.host.nodes| == dom + 1 && w2.host.nodes[..dom] == w.host.nodes
    requires w2.host.nodes[dom].children == [] && w.host.trace < w2.host.trace
    ensures var o := ElementRest(w, w2, v, dom, parent, ctx, isSVG);
            o.result.Ok? ==> ElementMountedFrom(v, o.result.value.vnode) && MountedTree(o.result.value.vnode, dom, |o.world.host.nodes|)
    decreases v, 2, 1
  {
    var w3 := if v.props.Some? then w2.(host := w2.host.Log(PatchCalls(v.props.value, dom, isSVG))) else w2;
    var c := MountElementChildren(w3, v, dom, ctx, isSVG);
    MountedTreeElementChildren(w3, v, dom, ctx, isSVG);
    if c.result.Ok? {
      assert |w3.host.nodes| == dom + 1;
      MountedTreeElementNode(v, dom, c.result.value, |c.world.host.nodes|);
    }
  }

  /** An element whose node is `dom` and whose mounted children's trees lie above it, up to `hi`. */
  lemma MountedTreeElementNode(v: VNode, dom: NodeId, ms: seq<Mounted>, hi: nat)
    requires KindOf(v.flags) == Some(ElementKind) && dom < hi
    requires v.children.Many? ==> |ms| == |v.children.kids|
    requires v.children.One? ==> |ms| == 1
    requires forall j | 0 <= j < |ms| :: MountedTree(ms[j].vnode, dom + 1, hi)
    ensures MountedTree(v.(dom := Some(dom), children := MountedChildren(v.children, ms)), dom, hi)
  {
    forall j | 0 <= j < |ms| ensures MountedTree(ms[j].vnode, dom, hi) {
      MountedTreeWiden(ms[j].vnode, dom + 1, hi, dom, hi);
    }
    var updated := v.(dom := Some(dom), children := MountedChildren(v.children, ms));
    assert KidsMounted(updated.children, dom, hi);
  }

  lemma {:induction false} MountedTreeElementChildren(w: World, v: VNode, dom: NodeId, ctx: Context, isSVG: bool)
    requires WellFormed(v) && dom < |w.host.nodes|
    ensures var o := MountElementChildren(w, v, dom, ctx, isSVG);
            o.result.Ok? ==>
              && KidsMountedFrom(v.children, MountedChildren(v.children, o.result.value))
              && forall j | 0 <= j < |o.result.value| ::
                   MountedTree(o.result.value[j].vnode, |w.host.nodes|, |o.world.host.nodes|)
    decreases v, 2, 0
  {
    match v.children
    case Text(s) =>
    case Many(_) => MountedTreeChildren(w, v, 0, dom, ctx, isSVG);
    case One(kid) => MountedTreeMount(w, kid, Some(dom), ctx, isSVG);
    case _ =>
  }

  lemma {:induction false} MountedTreeChildren(w: World, v: VNode, i: nat, dom: NodeId, ctx: Context, isSVG: bool)
    requires WellFormed(v) && v.children.Many? && i <= |v.children.kids| && dom < |w.host.nodes|
    ensures var o := MountChildren(w, v, i, dom, ctx, isSVG);
            o.result.Ok? ==> forall j | 0 <= j < |o.result.value| :: MountedFrom(v.children.kids[i + j], o.result.value[j].vnode)
    ensures var o := MountChildren(w, v, i, dom, ctx, isSVG);
            o.result.Ok? ==> forall j | 0 <= j < |o.result.value| ::
                               MountedTree(o.result.value[j].vnode, |w.host.nodes|, |o.world.host.nodes|)
    decreases v, 1, |v.children.kids| - i
  {
    var kids := v.children.kids;
    if i < |kids| {
      var o := MountChildren(w, v, i, dom, ctx, isSVG);
      var first := Mount(w, kids[i], Some(dom), ctx, isSVG);
      MountedTreeMount(w, kids[i], Some(dom), ctx, isSVG);
      if first.result.Ok? {
        var rest := MountChildren(first.world, v, i + 1, dom, ctx, isSVG);
        assert o == Prefixed([first.result.value], rest);
        MountedTreeChildren(first.world, v, i + 1, dom, ctx, isSVG);
        if rest.result.Ok? {
          MountedTreeCons(first.result.value, rest.result.value, |w.host.nodes|, |first.world.host.nodes|, |rest.world.host.nodes|);
        }
      }
    }
  }

  /** A mounted child with its tree in `[lo, mid)` in front of children with theirs in `[mid, hi)`. */
  lemma MountedTreeCons(m: Mounted, ms: seq<Mounted>, lo: nat, mid: nat, hi: nat)
    requires lo <= mid <= hi && MountedTree(m.vnode, lo, mid)
    requires forall j | 0 <= j < |ms| :: MountedTree(ms[j].vnode, mid, hi)
    ensures forall j | 0 <= j < |[m] + ms| :: MountedTree(([m] + ms)[j].vnode, lo, hi)
  {
    forall j | 0 <= j < |[m] + ms| ensures MountedTree(([m] + ms)[j].vnode, lo, hi) {
      if j == 0 {
        MountedTreeWiden(m.vnode, lo, mid, lo, hi);
      } else {
        assert ([m] + ms)[j] == ms[j - 1];
        MountedTreeWiden(ms[j - 1].vnode, mid, hi, lo, hi);
      }
    }
  }

  lemma {:induction false} MountedTreeFragment(w: World, v: VNode, parent: Option<NodeId>, ctx: Context, isSVG: bool)
    requires WellFormed(v) && KindOf(v.flags) == Some(FragmentKind) && Fits(w, parent)
    ensures var o := MountFragment(w, v, parent, ctx, isSVG);
            o.result.Ok? ==>
              FragmentMountedFrom(v, o.result.value.vnode) && MountedTree(o.result.value.vnode, |w.host.nodes|, |o.world.host.nodes|)
    decreases v, 3, 0
  {
    var dom := |w.host.nodes|;
    var w1 := w.(host := w.host.AddNode(DomNode(FragmentNode, "", false, "", []), CreatedFragment(dom)));
    var c := FragmentChildren(w1, v, dom, ctx, isSVG);
    if c.result.Ok? {
      var hi := |c.world.host.nodes|;
      if v.children.Many? {
        MountedTreeChildren(w1, v, 0, dom, ctx, isSVG);
        assert (var o := MountChildren(w1, v, 0, dom, ctx, isSVG);
                o.result.Ok? ==> forall j | 0 <= j < |o.result.value| ::
                                   MountedTree(o.result.value[j].vnode, |w1.host.nodes|, |o.world.host.nodes|));
        MountedTreeList(c.result.value, |w1.host.nodes|, dom, hi);
      }
      var updated := v.(dom := Some(dom), children := MountedChildren(v.children, c.result.value));
      assert MountedTree(updated, dom, hi);
    }
  }

  /** Mounted children whose trees lie in `[lo, hi)` make a list lying in `[dom, hi)`, for `dom <= lo`. */
  lemma MountedTreeList(ms: seq<Mounted>, lo: nat, dom: nat, hi: nat)
    requires dom <= lo
    requires forall j | 0 <= j < |ms| :: MountedTree(ms[j].vnode, lo, hi)
    ensures KidsMounted(Many(VNodesOf(ms)), dom, hi)
  {
    forall j | 0 <= j < |ms| ensures MountedTree(ms[j].vnode, dom, hi) {
      MountedTreeWiden(ms[j].vnode, lo, hi, dom, hi);
    }
  }

  lemma {:induction false} MountedTreeComponent(w: World, v: VNode, parent: Option<NodeId>, ctx: Context, isSVG: bool, isClass: bool)
    requires WellFormed(v) && KindOf(v.flags) == Some(ComponentKind) && isClass == HasBit(v.flags, ComponentClass)
    requires Fits(w, parent)
    ensures var o := MountComponent(w, v, parent, ctx, isSVG, isClass);
            o.result.Ok? ==>
              ComponentMountedFrom(v, o.result.value.vnode, isClass)
              && MountedTree(o.result.value.vnode, |w.host.nodes|, |o.world.host.nodes|)
    decreases v, 3, 0
  {
    var props := PropsOrEmpty(v.props);
    var rendering := v.render.value;
    if !isClass {
      var w1 := w.(host := w.host.Log([InputCreated(v.vtype, props, ctx)]));
      MountedTreeMount(w1, rendering.input, None, ctx, isSVG);
    } else {
      MountedTreeStateful(w, v, parent, ctx, isSVG);
    }
  }

  lemma {:induction false} MountedTreeStateful(w: World, v: VNode, parent: Option<NodeId>, ctx: Context, isSVG: bool)
    requires WellFormed(v) && KindOf(v.flags) == Some(ComponentKind) && HasBit(v.flags, ComponentClass) && Fits(w, parent)
    ensures var o := MountStateful(w, v, parent, ctx, isSVG);
            o.result.Ok? ==> MountedTree(o.result.value.vnode, |w.host.nodes|, |o.world.host.nodes|)
    decreases v, 2, 0
  {
    var props := PropsOrEmpty(v.props);
    var r := v.render.value;
    var defaults := DefaultPropsOf(v.vtype);
    var merged := if defaults.Some? then CopyPropsTo(defaults.value, props) else props;
    var inst := Instance(v.vtype, merged, ctx, isSVG, r.input, r.childContext, r.hasDidMount);
    var w1 := w.(host := w.host.AddInstance(inst));
    var sub := Mount(w1, r.input, None, r.childContext, isSVG);
    StatefulOutcome(w, v, parent, ctx, isSVG, inst, sub);
    MountedTreeMount(w1, r.input, None, r.childContext, isSVG);
  }

  // ---------------------------------------------------------------------------------------
  // Every mounted VNode's node holds what that VNode describes.

  /**
   * `v`'s node in `nodes` is what `v` asks for: a text node with its string, an empty text
   * node for a void, an element node with its tag and text, a fragment node; the children of
   * an element or of a fragment's list are, in order, the nodes of its mounted child VNodes,
   * each realised in turn. A component shares its node with its mounted rendered input,
   * which realises it: a stateless component's children, a stateful one's instance's last input.
   */
  predicate Realised(nodes: seq<DomNode>, v: VNode)
    decreases v
  {
    && v.dom.Some? && v.dom.value < |nodes|
    && var n := nodes[v.dom.value];
    match KindOf(v.flags)
    case None => false
    case Some(TextKind) => n == DomNode(TextNode, "", false, TextOf(v.children), [])
    case Some(VoidKind) => n == DomNode(TextNode, "", false, "", [])
    case Some(ElementKind) =>
      && v.vtype.Tag? && n.kind == ElementNode && n.tag == v.vtype.name && n.text == TextOf(v.children)
      && KidsRealised(nodes, v.children, n.children)
    case Some(FragmentKind) =>
      && n.kind == FragmentNode
      && if v.children.Many? then KidsRealised(nodes, v.children, n.children) else n.children == []
    case Some(ComponentKind) =>
      if HasBit(v.flags, ComponentClass) then
        v.children.InstanceOf? && v.children.input.dom == v.dom && Realised(nodes, v.children.input)
      else v.children.One? && v.children.kid.dom == v.dom && Realised(nodes, v.children.kid)
  }

  /** The node ids `cs` are, in order, the nodes of the VNodes in `c`, each realised. */
  predicate KidsRealised(nodes: seq<DomNode>, c: Children, cs: seq<NodeId>)
    decreases c
  {
    match c
    case Many(kids) =>
      |cs| == |kids| && forall k | 0 <= k < |kids| :: kids[k].dom == Some(cs[k]) && Realised(nodes, kids[k])
    case One(kid) => |cs| == 1 && kid.dom == Some(cs[0]) && Realised(nodes, kid)
    case _ => cs == []
  }

  /** Whether `v` is realised depends only on the nodes of its tree. */
  lemma {:induction false} RealisedFrame(nodes: seq<DomNode>, nodes': seq<DomNode>, v: VNode, lo: nat, hi: nat)
    requires Realised(nodes, v) && MountedTree(v, lo, hi) && hi <= |nodes| && hi <= |nodes'|
    requires forall n | lo <= n < hi :: nodes'[n] == nodes[n]
    ensures Realised(nodes', v)
    decreases v
  {
    match v.children
    case Many(kids) =>
      forall k | 0 <= k < |kids| && Realised(nodes, kids[k]) && MountedTree(kids[k], lo, hi)
        ensures Realised(nodes', kids[k])
      {
        RealisedFrame(nodes, nodes', kids[k], lo, hi);
      }
    case One(kid) =>
      if Realised(nodes, kid) && MountedTree(kid, lo, hi) { RealisedFrame(nodes, nodes', kid, lo, hi); }
    case InstanceOf(_, input) =>
      if Realised(nodes, input) && MountedTree(input, lo, hi) { RealisedFrame(nodes, nodes', input, lo, hi); }
    case _ =>
  }

  /** Appending to a parent below `lo` leaves realised every VNode whose tree lies in `[lo, |h.nodes|)`. */
  lemma RealisedAttached(h: HostState, parent: Option<NodeId>, dom: NodeId, ms: seq<Mounted>, lo: nat)
    requires lo <= |h.nodes| && (parent.Some? ==> parent.value < lo)
    requires forall j | 0 <= j < |ms| :: Realised(h.nodes, ms[j].vnode) && MountedTree(ms[j].vnode, lo, |h.nodes|)
    ensures forall j | 0 <= j < |ms| :: Realised(Attach(h, parent, dom).nodes, ms[j].vnode)
  {
    var h' := Attach(h, parent, dom);
    forall j | 0 <= j < |ms| ensures Realised(h'.nodes, ms[j].vnode) {
      RealisedFrame(h.nodes, h'.nodes, ms[j].vnode, lo, |h.nodes|);
    }
  }

  /**
   * After a successful mount the node table realises the returned VNode: every node of the
   * subtree holds the content of the VNode it was mounted from, and its children are the
   * nodes of that VNode's children in order.
   */
  lemma {:induction false} RealisedMount(w: World, v: VNode, parent: Option<NodeId>, ctx: Context, isSVG: bool)
    requires WellFormed(v) && Fits(w, parent)
    ensures var o := Mount(w, v, parent, ctx, isSVG);
            o.result.Ok? ==> Realised(o.world.host.nodes, o.result.value.vnode)
    decreases v, 4, 0
  {
    match KindOf(v.flags)
    case None =>
    case Some(ElementKind) => RealisedElement(w, v, parent, ctx, isSVG || HasBit(v.flags, SvgElement));
    case Some(ComponentKind) =>
      if HasBit(v.flags, ComponentClass) {
        assert Mount(w, v, parent, ctx, isSVG) == MountStateful(w, v, parent, ctx, isSVG);
        RealisedStateful(w, v, parent, ctx, isSVG);
      } else {
        assert Mount(w, v, parent, ctx, isSVG) == MountStateless(w, v, parent, ctx, isSVG);
        RealisedStateless(w, v, parent, ctx, isSVG);
      }
    case Some(VoidKind) =>
    case Some(FragmentKind) => RealisedFragment(w, v, parent, ctx, isSVG);
    case Some(TextKind) =>
  }

  lemma {:induction false} RealisedElement(w: World, v: VNode, parent: Option<NodeId>, ctx: Context, svg: bool)
    requires WellFormed(v) && KindOf(v.flags) == Some(ElementKind) && Fits(w, parent)
    ensures var o := MountElement(w, v, parent, ctx, svg);
            o.result.Ok? ==> Realised(o.world.host.nodes, o.result.value.vnode)
    decreases v, 3, 4
  {
    var o := MountElement(w, v, parent, ctx, svg);
    ElementBuiltByMountElement(w, v, parent, ctx, svg);
    if o.result.Ok? { RealisedElementNode(o.world, v, svg, o.result.value); }
  }

  lemma {:induction false} RealisedFragment(w: World, v: VNode, parent: Option<NodeId>, ctx: Context, isSVG: bool)
    requires WellFormed(v) && KindOf(v.flags) == Some(FragmentKind) && Fits(w, parent)
    ensures var o := MountFragment(w, v, parent, ctx, isSVG);
            o.result.Ok? ==> Realised(o.world.host.nodes, o.result.value.vnode)
    decreases v, 3, 2
  {
    var o := MountFragment(w, v, parent, ctx, isSVG);
    FragmentBuiltByMountFragment(w, v, parent, ctx, isSVG);
    if o.result.Ok? { RealisedFragmentNode(w, o.world, v, parent, o.result.value); }
  }

  /** A built element node whose children are realised realises the element. */
  lemma RealisedElementNode(w': World, v: VNode, svg: bool, m: Mounted)
    requires v.vtype.Tag? && KindOf(v.flags) == Some(ElementKind) && ElementNodeBuilt(w', v, svg, m)
    ensures Realised(w'.host.nodes, m.vnode)
  {
    var node := w'.host.nodes[m.dom];
    assert KidsRealised(w'.host.nodes, m.vnode.children, node.children);
  }

  /** A built fragment node whose children are realised realises the fragment. */
  lemma RealisedFragmentNode(w: World, w': World, v: VNode, parent: Option<NodeId>, m: Mounted)
    requires KindOf(v.flags) == Some(FragmentKind) && FragmentBuilt(w, w', v, parent, m)
    ensures Realised(w'.host.nodes, m.vnode)
  {
    var node := w'.host.nodes[m.dom];
    if m.vnode.children.Many? {
      assert KidsRealised(w'.host.nodes, m.vnode.children, node.children);
    }
  }

  lemma {:induction false} RealisedElementChildren(w: World, v: VNode, dom: NodeId, ctx: Context, isSVG: bool)
    requires WellFormed(v) && dom < |w.host.nodes|
    ensures var o := MountElementChildren(w, v, dom, ctx, isSVG);
            o.result.Ok? ==> forall j | 0 <= j < |o.result.value| :: Realised(o.world.host.nodes, o.result.value[j].vnode)
    decreases v, 2, 0
  {
    match v.children
    case Many(_) => RealisedChildren(w, v, 0, dom, ctx, isSVG);
    case One(kid) => RealisedMount(w, kid, Some(dom), ctx, isSVG);
    case _ =>
  }

  /**
   * Each child the children loop mounts is realised once the loop is done: a later sibling's
   * mount changes no node of an earlier sibling's tree, only the parent's child list.
   */
  lemma {:induction false} RealisedChildren(w: World, v: VNode, i: nat, dom: NodeId, ctx: Context, isSVG: bool)
    requires WellFormed(v) && v.children.Many? && i <= |v.children.kids| && dom < |w.host.nodes|
    ensures var o := MountChildren(w, v, i, dom, ctx, isSVG);
            o.result.Ok? ==> forall j | 0 <= j < |o.result.value| :: Realised(o.world.host.nodes, o.result.value[j].vnode)
    decreases v, 1, |v.children.kids| - i
  {
    var kids := v.children.kids;
    if i < |kids| {
      var o := MountChildren(w, v, i, dom, ctx, isSVG);
      var first := Mount(w, kids[i], Some(dom), ctx, isSVG);
      if first.result.Ok? {
        RealisedMount(w, kids[i], Some(dom), ctx, isSVG);
        MountedTreeMount(w, kids[i], Some(dom), ctx, isSVG);
        var rest := MountChildren(first.world, v, i + 1, dom, ctx, isSVG);
        assert o == Prefixed([first.result.value], rest);
        RealisedChildren(first.world, v, i + 1, dom, ctx, isSVG);
        if rest.result.Ok? {
          RealisedFrame(first.world.host.nodes, rest.world.host.nodes, first.result.value.vnode,
                        |w.host.nodes|, |first.world.host.nodes|);
          RealisedCons(rest.world.host.nodes, first.result.value, rest.result.value);
        }
      }
    }
  }

  lemma RealisedCons(nodes: seq<DomNode>, m: Mounted, ms: seq<Mounted>)
    requires Realised(nodes, m.vnode) && forall j | 0 <= j < |ms| :: Realised(nodes, ms[j].vnode)
    ensures forall j | 0 <= j < |[m] + ms| :: Realised(nodes, ([m] + ms)[j].vnode)
  {
    forall j | 0 <= j < |[m] + ms| ensures Realised(nodes, ([m] + ms)[j].vnode) {
      if j > 0 { assert ([m] + ms)[j] == ms[j - 1]; }
    }
  }

  /** A stateless component is realised by its rendered input, which neither the hooks nor the append touch. */
  lemma {:induction false} RealisedStateless(w: World, v: VNode, parent: Option<NodeId>, ctx: Context, isSVG: bool)
    requires WellFormed(v) && KindOf(v.flags) == Some(ComponentKind) && !HasBit(v.flags, ComponentClass) && Fits(w, parent)
    ensures var o := MountStateless(w, v, parent, ctx, isSVG);
            o.result.Ok? ==> Realised(o.world.host.nodes, o.result.value.vnode)
    decreases v, 3, 0
  {
    var w1 := w.(host := w.host.Log([InputCreated(v.vtype, PropsOrEmpty(v.props), ctx)]));
    var sub := Mount(w1, v.render.value.input, None, ctx, isSVG);
    if sub.result.Ok? {
      RealisedMount(w1, v.render.value.input, None, ctx, isSVG);
      MountedTreeMount(w1, v.render.value.input, None, ctx, isSVG);
      var dom := sub.result.value.dom;
      var w2 := MountStatelessComponentCallbacks(sub.world, v.ref, dom);
      RealisedAttached(w2.host, parent, dom, [sub.result.value], |w1.host.nodes|);
      assert [sub.result.value][0] == sub.result.value;
    }
  }

  /**
   * A stateful component is realised by its instance's last input, mounted from the rendered
   * input; the append, the callbacks and the registration touch none of its nodes.
   */
  lemma {:induction false} RealisedStateful(w: World, v: VNode, parent: Option<NodeId>, ctx: Context, isSVG: bool)
    requires WellFormed(v) && KindOf(v.flags) == Some(ComponentKind) && HasBit(v.flags, ComponentClass) && Fits(w, parent)
    ensures var o := MountStateful(w, v, parent, ctx, isSVG);
            o.result.Ok? ==> Realised(o.world.host.nodes, o.result.value.vnode)
    decreases v, 3, 0
  {
    var props := PropsOrEmpty(v.props);
    var r := v.render.value;
    var defaults := DefaultPropsOf(v.vtype);
    var merged := if defaults.Some? then CopyPropsTo(defaults.value, props) else props;
    var i := |w.host.instances|;
    var inst := Instance(v.vtype, merged, ctx, isSVG, r.input, r.childContext, r.hasDidMount);
    var w1 := w.(host := w.host.AddInstance(inst));
    var sub := Mount(w1, r.input, None, r.childContext, isSVG);
    StatefulOutcome(w, v, parent, ctx, isSVG, inst, sub);
    if sub.result.Ok? {
      RealisedMount(w1, r.input, None, r.childContext, isSVG);
      MountedTreeMount(w1, r.input, None, r.childContext, isSVG);
      var o := MountStateful(w, v, parent, ctx, isSVG);
      if o.result.Ok? {
        RealisedInstanceInput(sub.world.host.WithLastInput(i, sub.result.value.vnode), parent, sub.result.value,
                              |w1.host.nodes|, o.result.value.vnode);
      }
    }
  }

  /** A stateful component whose instance holds a realised input is realised, also once appended. */
  lemma RealisedInstanceInput(h: HostState, parent: Option<NodeId>, m: Mounted, lo: nat, mv: VNode)
    requires lo <= |h.nodes| && (parent.Some? ==> parent.value < lo)
    requires Realised(h.nodes, m.vnode) && MountedTree(m.vnode, lo, |h.nodes|) && m.vnode.dom == Some(m.dom)
    requires KindOf(mv.flags) == Some(ComponentKind) && HasBit(mv.flags, ComponentClass)
    requires mv.dom == Some(m.dom) && mv.children.InstanceOf? && mv.children.input == m.vnode
    ensures Realised(Attach(h, parent, m.dom).nodes, mv)
  {
    RealisedFrame(h.nodes, Attach(h, parent, m.dom).nodes, m.vnode, lo, |h.nodes|);
  }

  // ---------------------------------------------------------------------------------------
  // Where the root goes.

  /**
   * The node a successful mount returns is a child of nothing but the given parent, where it
   * is the last child; without a parent it is detached.
   */
  lemma RootLinks(w: World, v: VNode, parent: Option<NodeId>, ctx: Context, isSVG: bool)
    requires WellFormed(v) && Fits(w, parent) && Ordered(w.host.nodes)
    ensures var o := Mount(w, v, parent, ctx, isSVG);
            o.result.Ok? ==>
              && (forall n, k | 0 <= n < |o.world.host.nodes| && 0 <= k < |o.world.host.nodes[n].children| ::
                    o.world.host.nodes[n].children[k] == o.result.value.dom ==>
                      parent == Some(n) && k == |o.world.host.nodes[n].children| - 1)
              && (parent.Some? ==>
                    o.world.host.nodes[parent.value].children == w.host.nodes[parent.value].children + [o.result.value.dom])
  {
    var o := Mount(w, v, parent, ctx, isSVG);
    if o.result.Ok? {
      var dom := o.result.value.dom;
      var nodes := o.world.host.nodes;
      forall n, k | 0 <= n < |nodes| && 0 <= k < |nodes[n].children| && nodes[n].children[k] == dom
        ensures parent == Some(n) && k == |nodes[n].children| - 1
      {
        if n < |w.host.nodes| {
          if parent == Some(n) {
            assert nodes[n].children == w.host.nodes[n].children + [dom];
          }
        }
      }
    }
  }

  // ---------------------------------------------------------------------------------------
  // Elements.

  function KidsOf(c: Children): (ks: seq<VNode>)
    ensures c.Many? ==> ks == c.kids
    ensures c.One? ==> ks == [c.kid]
    ensures !c.Many? && !c.One? ==> ks == []
  {
    match c
    case Many(ks) => ks
    case One(k) => [k]
    case _ => []
  }

  /** The `patchProp` calls for `vNode.props`, none when props are absent. */
  function PropCalls(props: Option<Props>, dom: NodeId, svg: bool): (es: seq<Effect>)
    ensures |es| == if props.Some? then |props.value| else 0
  {
    if props.Some? then PatchCalls(props.value, dom, svg) else []
  }

  /** The listener an element's ref queues. */
  function RefListeners(ref: Ref, dom: NodeId): (ls: seq<Listener>)
    ensures |ls| <= 1 && (ls != [] <==> ref.FunctionRef?)
  {
    if ref.FunctionRef? then [RefCall(ref.fn, DomTarget(dom))] else []
  }

  /**
   * A mounted element: its node has the tag, namespace and text content asked for and holds, at
   * each index, the node of the child mounted from the input child at that index; the VNode
   * changed only in `dom` and the mounted children; the node was created and all its props patched before anything else,
   * its ref queued before any listener of its descendants; a string child is a leaf.
   */
  predicate ElementBuilt(w: World, w': World, v: VNode, parent: Option<NodeId>, svg: bool, m: Mounted)
    requires v.vtype.Tag?
  {
    ElementNodeBuilt(w', v, svg, m) && ElementLogged(w, w', v, parent, svg, m)
  }

  /** The node and the VNode half of `ElementBuilt`. */
  predicate ElementNodeBuilt(w': World, v: VNode, svg: bool, m: Mounted)
    requires v.vtype.Tag?
  {
    && m.dom < |w'.host.nodes|
    && var node := w'.host.nodes[m.dom];
    && var kids := KidsOf(m.vnode.children);
    && node.kind == ElementNode && node.tag == v.vtype.name && node.svg == svg && node.text == TextOf(v.children)
    && m.vnode == v.(dom := Some(m.dom), children := m.vnode.children)
    && |node.children| == |kids|
    && (forall k | 0 <= k < |kids| :: kids[k].dom == Some(node.children[k]) && Realised(w'.host.nodes, kids[k]))
    && KidsMountedFrom(v.children, m.vnode.children)
  }

  /** The call log and queue half of `ElementBuilt`. */
  predicate ElementLogged(w: World, w': World, v: VNode, parent: Option<NodeId>, svg: bool, m: Mounted)
    requires v.vtype.Tag?
  {
    && w.host.trace + [CreatedElement(m.dom, v.vtype.name, svg)] + PropCalls(v.props, m.dom, svg) <= w'.host.trace
    && w.queue + RefListeners(v.ref, m.dom) <= w'.queue
    && (v.children.Text? ==>
          && w'.host.trace == w.host.trace + [CreatedElement(m.dom, v.vtype.name, svg)] + PropCalls(v.props, m.dom, svg)
                              + [TextContentSet(m.dom, v.children.s)] + AppendCall(parent, m.dom)
          && w'.queue == w.queue + RefListeners(v.ref, m.dom))
  }

  /** `mountElement` builds its element as `ElementBuilt` says; SVG mode is on for an SVG element. */
  lemma ElementShape(w: World, v: VNode, parent: Option<NodeId>, ctx: Context, isSVG: bool)
    requires WellFormed(v) && KindOf(v.flags) == Some(ElementKind) && Fits(w, parent)
    ensures var o := Mount(w, v, parent, ctx, isSVG);
            o.result.Ok? ==> ElementBuilt(w, o.world, v, parent, isSVG || v.flags == SvgElement, o.result.value)
  {
    var svg := isSVG || HasBit(v.flags, SvgElement);
    assert svg == (isSVG || v.flags == SvgElement);
    assert Mount(w, v, parent, ctx, isSVG) == MountElement(w, v, parent, ctx, svg);
    ElementBuiltByMountElement(w, v, parent, ctx, svg);
  }

  lemma ElementBuiltByMountElement(w: World, v: VNode, parent: Option<NodeId>, ctx: Context, svg: bool)
    requires WellFormed(v) && v.vtype.Tag? && Fits(w, parent)
    ensures var o := MountElement(w, v, parent, ctx, svg);
            o.result.Ok? ==> ElementBuilt(w, o.world, v, parent, svg, o.result.value)
    decreases v, 3, 3
  {
    var tag := v.vtype.name;
    var dom := |w.host.nodes|;
    var w1 := w.(host := w.host.AddNode(DomNode(ElementNode, tag, svg, "", []), CreatedElement(dom, tag, svg)));
    var r := if IsNullOrUndef(v.ref) then Outcome(w1, Ok(())) else MountRef(w1, dom, v.ref);
    if r.result.Ok? {
      assert r.world.queue == w.queue + RefListeners(v.ref, dom);
      ElementRestShape(w, r.world, v, dom, parent, ctx, svg);
    }
  }

  lemma ElementRestShape(w: World, w2: World, v: VNode, dom: NodeId, parent: Option<NodeId>, ctx: Context, svg: bool)
    requires WellFormed(v) && v.vtype.Tag? && Fits(w, parent) && Extends(w, w2)
    requires dom == |w.host.nodes| && |w2.host.nodes| == dom + 1 && w2.host.nodes[..dom] == w.host.nodes
    requires w2.host.nodes[dom] == DomNode(ElementNode, v.vtype.name, svg, "", [])
    requires w2.host.trace == w.host.trace + [CreatedElement(dom, v.vtype.name, svg)]
    requires w2.queue == w.queue + RefListeners(v.ref, dom)
    ensures var o := ElementRest(w, w2, v, dom, parent, ctx, svg);
            o.result.Ok? ==> ElementBuilt(w, o.world, v, parent, svg, o.result.value)
    decreases v, 3, 2
  {
    ElementRestNode(w, w2, v, dom, parent, ctx, svg);
    ElementRestLog(w, w2, v, dom, parent, ctx, svg);
  }

  lemma ElementRestNode(w: World, w2: World, v: VNode, dom: NodeId, parent: Option<NodeId>, ctx: Context, svg: bool)
    requires WellFormed(v) && v.vtype.Tag? && Fits(w, parent) && Extends(w, w2)
    requires dom == |w.host.nodes| && |w2.host.nodes| == dom + 1 && w2.host.nodes[..dom] == w.host.nodes
    requires w2.host.nodes[dom] == DomNode(ElementNode, v.vtype.name, svg, "", [])
    requires w.host.trace < w2.host.trace
    ensures var o := ElementRest(w, w2, v, dom, parent, ctx, svg);
            o.result.Ok? ==> ElementNodeBuilt(o.world, v, svg, o.result.value)
    decreases v, 3, 1
  {
    var w3 := if v.props.Some? then w2.(host := w2.host.Log(PatchCalls(v.props.value, dom, svg))) else w2;
    var c := MountElementChildren(w3, v, dom, ctx, svg);
    ElementRestOutcome(w, w2, v, dom, parent, ctx, svg);
    ElementKids(w3, v, dom, ctx, svg, c);
    if c.result.Ok? {
      ElementNodeFromChildren(w3, c.world, v, dom, parent, svg, c.result.value);
    }
  }

  /** The children an element mounts are realised, with their trees above `w`'s nodes. */
  lemma ElementKids(w: World, v: VNode, dom: NodeId, ctx: Context, svg: bool, c: Outcome<seq<Mounted>>)
    requires WellFormed(v) && dom < |w.host.nodes| && c == MountElementChildren(w, v, dom, ctx, svg)
    ensures c.result.Ok? ==>
              forall j | 0 <= j < |c.result.value| ::
                Realised(c.world.host.nodes, c.result.value[j].vnode)
                && MountedTree(c.result.value[j].vnode, |w.host.nodes|, |c.world.host.nodes|)
    decreases v, 2, 1
  {
    RealisedElementChildren(w, v, dom, ctx, svg);
    MountedTreeElementChildren(w, v, dom, ctx, svg);
  }

  /** The element node once its children `ms` are mounted under it and it is attached. */
  lemma ElementNodeFromChildren(w3: World, wc: World, v: VNode, dom: NodeId, parent: Option<NodeId>, svg: bool, ms: seq<Mounted>)
    requires v.vtype.Tag? && dom < |w3.host.nodes| && (parent.Some? ==> parent.value < dom)
    requires w3.host.nodes[dom] == DomNode(ElementNode, v.vtype.name, svg, "", [])
    requires Joined(w3, wc, dom, WithText(w3.host.nodes[dom], v.children), ms)
    requires v.children.Many? ==> |ms| == |v.children.kids|
    requires v.children.One? ==> |ms| == 1
    requires !v.children.Many? && !v.children.One? ==> ms == []
    requires KidsMountedFrom(v.children, MountedChildren(v.children, ms))
    requires forall j | 0 <= j < |ms| :: Realised(wc.host.nodes, ms[j].vnode) && MountedTree(ms[j].vnode, dom + 1, |wc.host.nodes|)
    ensures ElementNodeBuilt(wc.(host := Attach(wc.host, parent, dom)), v, svg,
                             Mounted(dom, v.(dom := Some(dom), children := MountedChildren(v.children, ms))))
  {
    var updated := v.(dom := Some(dom), children := MountedChildren(v.children, ms));
    var wf := wc.(host := Attach(wc.host, parent, dom));
    assert wf.host.nodes[dom] == wc.host.nodes[dom];
    assert KidsOf(updated.children) == VNodesOf(ms);
    RealisedAttached(wc.host, parent, dom, ms, dom + 1);
  }

  lemma ElementRestLog(w: World, w2: World, v: VNode, dom: NodeId, parent: Option<NodeId>, ctx: Context, svg: bool)
    requires WellFormed(v) && v.vtype.Tag? && Fits(w, parent) && Extends(w, w2)
    requires dom == |w.host.nodes| && |w2.host.nodes| == dom + 1 && w2.host.nodes[..dom] == w.host.nodes
    requires w2.host.nodes[dom].children == []
    requires w2.host.trace == w.host.trace + [CreatedElement(dom, v.vtype.name, svg)]
    requires w2.queue == w.queue + RefListeners(v.ref, dom)
    ensures var o := ElementRest(w, w2, v, dom, parent, ctx, svg);
            o.result.Ok? ==> ElementLogged(w, o.world, v, parent, svg, o.result.value)
  {
    var w3 := if v.props.Some? then w2.(host := w2.host.Log(PatchCalls(v.props.value, dom, svg))) else w2;
    assert w3.host.trace == w2.host.trace + PropCalls(v.props, dom, svg);
  }

  /**
   * An element ref that is neither a function nor invalid makes `mountElement` throw right
   * after creating the node: no prop is patched, no child mounted, nothing appended or queued.
   */
  lemma ElementRefRejected(w: World, v: VNode, parent: Option<NodeId>, ctx: Context, isSVG: bool)
    requires WellFormed(v) && KindOf(v.flags) == Some(ElementKind) && Fits(w, parent)
    requires !v.ref.FunctionRef? && !IsInvalid(v.ref)
    ensures var o := Mount(w, v, parent, ctx, isSVG);
            && o.result == Err(UnsupportedRefKind)
            && o.world.host.nodes == w.host.nodes + [DomNode(ElementNode, v.vtype.name, isSVG || v.flags == SvgElement, "", [])]
            && o.world.host.trace ==
                 w.host.trace + [CreatedElement(|w.host.nodes|, v.vtype.name, isSVG || v.flags == SvgElement)]
            && o.world.queue == w.queue
  {
    assert (isSVG || HasBit(v.flags, SvgElement)) == (isSVG || v.flags == SvgElement);
  }

  // ---------------------------------------------------------------------------------------
  // Fragments.

  /** `mountFragment` builds its fragment as `FragmentBuilt` says. */
  lemma FragmentShape(w: World, v: VNode, parent: Option<NodeId>, ctx: Context, isSVG: bool)
    requires WellFormed(v) && KindOf(v.flags) == Some(FragmentKind) && Fits(w, parent)
    ensures var o := Mount(w, v, parent, ctx, isSVG);
            o.result.Ok? ==> FragmentBuilt(w, o.world, v, parent, o.result.value)
  {
    FragmentBuiltByMountFragment(w, v, parent, ctx, isSVG);
  }

  /**
   * A mounted fragment is a fragment node holding, at each index, the node of the child mounted
   * from the input child at that index, created before any of them; the VNode changed only in
   * `dom` and its children. Children that are not a list mount nothing: the log is the creation
   * and the append, and nothing is queued.
   */
  predicate FragmentBuilt(w: World, w': World, v: VNode, parent: Option<NodeId>, m: Mounted)
  {
    && m.dom < |w'.host.nodes|
    && var node := w'.host.nodes[m.dom];
    && var kids := if m.vnode.children.Many? then m.vnode.children.kids else [];
    && node.kind == FragmentNode
    && m.vnode.dom == Some(m.dom)
    && FragmentMountedFrom(v, m.vnode)
    && |node.children| == |kids|
    && (forall k | 0 <= k < |kids| :: kids[k].dom == Some(node.children[k]))
    && (forall k | 0 <= k < |kids| :: Realised(w'.host.nodes, kids[k]))
    && w.host.trace + [CreatedFragment(m.dom)] <= w'.host.trace
    && (!v.children.Many? ==>
          w'.host.trace == w.host.trace + [CreatedFragment(m.dom)] + AppendCall(parent, m.dom) && w'.queue == w.queue)
  }

  lemma FragmentBuiltByMountFragment(w: World, v: VNode, parent: Option<NodeId>, ctx: Context, isSVG: bool)
    requires WellFormed(v) && Fits(w, parent)
    ensures var o := MountFragment(w, v, parent, ctx, isSVG);
            o.result.Ok? ==> FragmentBuilt(w, o.world, v, parent, o.result.value)
    decreases v, 3, 1
  {
    var dom := |w.host.nodes|;
    var w1 := w.(host := w.host.AddNode(DomNode(FragmentNode, "", false, "", []), CreatedFragment(dom)));
    var c := FragmentChildren(w1, v, dom, ctx, isSVG);
    FragmentKids(w1, v, parent, dom, ctx, isSVG, c);
    if c.result.Ok? {
      FragmentFromChildren(w, w1, c, v, dom, parent);
    }
  }

  /** The fragment once its children are mounted under its node `dom` and it is attached. */
  lemma FragmentFromChildren(w: World, w1: World, c: Outcome<seq<Mounted>>, v: VNode, dom: NodeId, parent: Option<NodeId>)
    requires dom == |w.host.nodes| && Fits(w, parent) && c.result.Ok?
    requires w1 == w.(host := w.host.AddNode(DomNode(FragmentNode, "", false, "", []), CreatedFragment(dom)))
    requires Joined(w1, c.world, dom, w1.host.nodes[dom], c.result.value) && Extends(w1, c.world)
    requires v.children.Many? ==>
               && |c.result.value| == |v.children.kids|
               && KidsMountedFrom(v.children, MountedChildren(v.children, c.result.value))
               && forall j | 0 <= j < |c.result.value| :: Realised(Attach(c.world.host, parent, dom).nodes, c.result.value[j].vnode)
    requires !v.children.Many? ==> c == Outcome(w1, Ok([]))
    ensures FragmentBuilt(w, c.world.(host := Attach(c.world.host, parent, dom)), v, parent,
                          Mounted(dom, v.(dom := Some(dom), children := MountedChildren(v.children, c.result.value))))
  {
    var wf := c.world.(host := Attach(c.world.host, parent, dom));
    assert wf.host.nodes[dom] == c.world.host.nodes[dom];
  }

  /** The children a fragment's list mounts are realised in the table its append leaves. */
  lemma FragmentKids(w1: World, v: VNode, parent: Option<NodeId>, dom: NodeId, ctx: Context, isSVG: bool, c: Outcome<seq<Mounted>>)
    requires WellFormed(v) && |w1.host.nodes| == dom + 1 && (parent.Some? ==> parent.value < dom)
    requires c == FragmentChildren(w1, v, dom, ctx, isSVG)
    ensures c.result.Ok? && v.children.Many? ==>
              forall j | 0 <= j < |c.result.value| :: Realised(Attach(c.world.host, parent, dom).nodes, c.result.value[j].vnode)
    decreases v, 3, 0
  {
    if c.result.Ok? && v.children.Many? {
      assert c == MountChildren(w1, v, 0, dom, ctx, isSVG);
      ChildrenAttached(w1, v, parent, dom, ctx, isSVG, c);
    }
  }

  /** The children of the loop are realised in the table the append of their parent `dom` leaves. */
  lemma ChildrenAttached(w1: World, v: VNode, parent: Option<NodeId>, dom: NodeId, ctx: Context, isSVG: bool, c: Outcome<seq<Mounted>>)
    requires WellFormed(v) && v.children.Many? && |w1.host.nodes| == dom + 1 && (parent.Some? ==> parent.value < dom)
    requires c == MountChildren(w1, v, 0, dom, ctx, isSVG)
    ensures c.result.Ok? ==>
              forall j | 0 <= j < |c.result.value| :: Realised(Attach(c.world.host, parent, dom).nodes, c.result.value[j].vnode)
    decreases v, 2, 2
  {
    RealisedChildren(w1, v, 0, dom, ctx, isSVG);
    MountedTreeChildren(w1, v, 0, dom, ctx, isSVG);
    if c.result.Ok? {
      RealisedAttached(c.world.host, parent, dom, c.result.value, dom + 1);
    }
  }

  /**
   * A fragment whose children are absent throws the `TypeError` of `children.length`; one whose
   * children are a non-empty string throws `InvalidNode` from `mount` of its first character.
   * Either way only the fragment node was created, detached, and nothing was queued.
   */
  lemma FragmentChildrenRejected(w: World, v: VNode, parent: Option<NodeId>, ctx: Context, isSVG: bool)
    requires WellFormed(v) && KindOf(v.flags) == Some(FragmentKind) && Fits(w, parent)
    requires v.children.NoChildren? || (v.children.Text? && v.children.s != "")
    ensures var o := Mount(w, v, parent, ctx, isSVG);
            && o.result == Err(if v.children.NoChildren? then TypeError else InvalidNode)
            && o.world.host.nodes == w.host.nodes + [DomNode(FragmentNode, "", false, "", [])]
            && o.world.host.trace == w.host.trace + [CreatedFragment(|w.host.nodes|)]
            && o.world.queue == w.queue
  {
  }

  // ---------------------------------------------------------------------------------------
  // Components.

  /** `copyPropsTo` as modelled: a key already in `to` keeps its value, a missing one takes the default. */
  lemma {:induction false} CopyPropsToLookup(from: seq<Prop>, to: Props, k: string)
    ensures Lookup(CopyPropsTo(from, to), k) == if HasKey(to, k) then Lookup(to, k) else Lookup(from, k)
    decreases |from|
  {
    if from != [] {
      var f := from[0];
      var to' := if HasKey(to, f.name) then to else to + [f];
      LookupAppend(to, f, k);
      CopyPropsToLookup(from[1..], to', k);
    }
  }

  lemma HasKeyTail(ps: seq<Prop>, k: string)
    requires ps != []
    ensures HasKey(ps, k) <==> ps[0].name == k || HasKey(ps[1..], k)
  {
    if HasKey(ps, k) && ps[0].name != k {
      var j :| 0 <= j < |ps| && ps[j].name == k;
      assert ps[1..][j - 1] == ps[j];
    }
    if HasKey(ps[1..], k) {
      var j :| 0 <= j < |ps[1..]| && ps[1..][j].name == k;
      assert ps[j + 1] == ps[1..][j];
    }
  }

  lemma {:induction false} LookupAppend(ps: seq<Prop>, p: Prop, k: string)
    ensures HasKey(ps + [p], k) <==> HasKey(ps, k) || p.name == k
    ensures Lookup(ps + [p], k) == if HasKey(ps, k) then Lookup(ps, k) else if p.name == k then Some(p.value) else None
    decreases |ps|
  {
    if ps == [] {
      assert [] + [p] == [p];
      assert [p][0].name == p.name;
    } else {
      assert (ps + [p])[1..] == ps[1..] + [p];
      HasKeyTail(ps + [p], k);
      HasKeyTail(ps, k);
      LookupAppend(ps[1..], p, k);
    }
  }

  /**
   * Default props `{a: 1}` merged into props `{b: 2}` give `{b: 2, a: 1}`; merged into
   * `{a: 9, b: 2}` they change nothing, as the explicit `a` wins.
   */
  lemma CopyPropsToExamples()
    ensures CopyPropsTo([Prop("a", Num(1))], [Prop("b", Num(2))]) == [Prop("b", Num(2)), Prop("a", Num(1))]
    ensures CopyPropsTo([Prop("a", Num(1))], [Prop("a", Num(9)), Prop("b", Num(2))]) ==
            [Prop("a", Num(9)), Prop("b", Num(2))]
  {
    var explicit := [Prop("b", Num(2))];
    assert !HasKey(explicit, "a");
    var both := [Prop("a", Num(9)), Prop("b", Num(2))];
    assert both[0].name == "a";
  }

  /** The listeners a stateful component queues for itself. */
  function InstanceListeners(ref: Ref, i: InstanceId, hasDidMount: bool): (ls: seq<Listener>)
    ensures |ls| == (if ref.FunctionRef? then 1 else 0) + (if hasDidMount then 1 else 0)
  {
    (if ref.FunctionRef? then [RefCall(ref.fn, InstanceTarget(i))] else [])
    + (if hasDidMount then [ComponentDidMount(i)] else [])
  }

  /** `t` begins with `pre` and ends, after it, with `post`. */
  predicate Brackets<T(==)>(t: seq<T>, pre: seq<T>, post: seq<T>)
  {
    |pre| + |post| <= |t| && pre <= t && t[|t| - |post|..] == post
  }

  /** The props `mountComponent` gives an instance: explicit props win and stay first. */
  lemma MergedProps(defaults: Props, own: Props)
    ensures own <= CopyPropsTo(defaults, own)
    ensures forall k :: Lookup(CopyPropsTo(defaults, own), k) == if HasKey(own, k) then Lookup(own, k) else Lookup(defaults, k)
  {
    forall k ensures Lookup(CopyPropsTo(defaults, own), k) == if HasKey(own, k) then Lookup(own, k) else Lookup(defaults, k) {
      CopyPropsToLookup(defaults, own, k);
    }
  }

  /** `t` made of `mid` and then `post`, where `mid` begins with `pre`, is bracketed by them. */
  lemma BracketsAppend<T>(pre: seq<T>, mid: seq<T>, post: seq<T>)
    requires pre <= mid
    ensures Brackets(mid + post, pre, post)
  {
    assert (mid + post)[|mid + post| - |post|..] == post;
  }

  /**
   * A mounted stateful component: one new instance `i` built from the type, the props merged
   * with the defaults (explicit props win and stay first), the context and the SVG mode; its
   * rendered input (`_lastInput`) mounted detached with the instance's child context, that
   * mount's node being the component's node, appended last and registered for the instance;
   * the instance, holding the mounted input, stored as the VNode's children; and its own ref
   * and `componentDidMount` queued right after every listener of its subtree.
   */
  ghost predicate StatefulBuilt(w: World, w': World, v: VNode, parent: Option<NodeId>, ctx: Context, isSVG: bool, m: Mounted)
    requires WellFormed(v) && v.render.Some?
  {
    StatefulInstance(w, w', v, ctx, isSVG, m) && StatefulCalls(w, w', v, parent, ctx, isSVG, m)
  }

  /** The VNode and the instance of a mounted stateful component. */
  ghost predicate StatefulInstance(w: World, w': World, v: VNode, ctx: Context, isSVG: bool, m: Mounted)
    requires v.render.Some?
  {
    var i := |w.host.instances|;
    var r := v.render.value;
    var own := PropsOrEmpty(v.props);
    var defaults := DefaultPropsOf(v.vtype);
    var merged := if defaults.Some? then CopyPropsTo(defaults.value, own) else own;
    && m.vnode == v.(props := m.vnode.props, dom := Some(m.dom), children := m.vnode.children)
    && m.vnode.children.InstanceOf? && m.vnode.children.instance == i
    && m.vnode.props == (if defaults.Some? then Some(merged) else v.props)
    && (defaults.Some? ==>
          && own <= merged
          && forall k :: Lookup(merged, k) == if HasKey(own, k) then Lookup(own, k) else Lookup(defaults.value, k))
    && i < |w'.host.instances|
    && w'.host.instances[i] == Instance(v.vtype, merged, ctx, isSVG, m.vnode.children.input, r.childContext, r.hasDidMount)
    && i in w'.host.componentNodes && w'.host.componentNodes[i] == m.dom
  }

  /** The input's mount, the call log and the queue of a mounted stateful component. */
  predicate StatefulCalls(w: World, w': World, v: VNode, parent: Option<NodeId>, ctx: Context, isSVG: bool, m: Mounted)
    requires WellFormed(v) && v.render.Some?
  {
    var i := |w.host.instances|;
    var r := v.render.value;
    var own := PropsOrEmpty(v.props);
    var defaults := DefaultPropsOf(v.vtype);
    var merged := if defaults.Some? then CopyPropsTo(defaults.value, own) else own;
    var sub := Mount(w.(host := w.host.AddInstance(Instance(v.vtype, merged, ctx, isSVG, r.input, r.childContext, r.hasDidMount))),
                     r.input, None, r.childContext, isSVG);
    && sub.result.Ok? && sub.result.value.dom == m.dom
    && m.vnode.children == InstanceOf(i, sub.result.value.vnode)
    && w'.host.trace == sub.world.host.trace + AppendCall(parent, m.dom)
    && w'.queue == sub.world.queue + InstanceListeners(v.ref, i, r.hasDidMount)
    && Brackets(w'.host.trace, w.host.trace + [InstanceCreated(i, v.vtype, merged, ctx, isSVG)], AppendCall(parent, m.dom))
    && Brackets(w'.queue, w.queue, InstanceListeners(v.ref, i, r.hasDidMount))
  }

  /** `mountComponent` builds a component with a class flag as `StatefulBuilt` says. */
  lemma StatefulShape(w: World, v: VNode, parent: Option<NodeId>, ctx: Context, isSVG: bool)
    requires WellFormed(v) && v.flags == ComponentClass && Fits(w, parent)
    ensures var o := Mount(w, v, parent, ctx, isSVG);
            o.result.Ok? ==> StatefulBuilt(w, o.world, v, parent, ctx, isSVG, o.result.value)
  {
    assert HasBit(v.flags, ComponentClass);
    assert Mount(w, v, parent, ctx, isSVG) == MountStateful(w, v, parent, ctx, isSVG);
    StatefulBuiltByMountStateful(w, v, parent, ctx, isSVG);
  }

  lemma StatefulBuiltByMountStateful(w: World, v: VNode, parent: Option<NodeId>, ctx: Context, isSVG: bool)
    requires WellFormed(v) && v.render.Some? && Fits(w, parent)
    ensures var o := MountStateful(w, v, parent, ctx, isSVG);
            o.result.Ok? ==> StatefulBuilt(w, o.world, v, parent, ctx, isSVG, o.result.value)
  {
    StatefulInstanceByMountStateful(w, v, parent, ctx, isSVG);
    StatefulCallsByMountStateful(w, v, parent, ctx, isSVG);
  }

  lemma StatefulInstanceByMountStateful(w: World, v: VNode, parent: Option<NodeId>, ctx: Context, isSVG: bool)
    requires WellFormed(v) && v.render.Some? && Fits(w, parent)
    ensures var o := MountStateful(w, v, parent, ctx, isSVG);
            o.result.Ok? ==> StatefulInstance(w, o.world, v, ctx, isSVG, o.result.value)
  {
    var r := v.render.value;
    var props := PropsOrEmpty(v.props);
    var defaults := DefaultPropsOf(v.vtype);
    var merged := if defaults.Some? then CopyPropsTo(defaults.value, props) else props;
    if defaults.Some? {
      MergedProps(defaults.value, props);
    }
    var inst := Instance(v.vtype, merged, ctx, isSVG, r.input, r.childContext, r.hasDidMount);
    var sub := Mount(w.(host := w.host.AddInstance(inst)), r.input, None, r.childContext, isSVG);
    StatefulOutcome(w, v, parent, ctx, isSVG, inst, sub);
  }

  lemma StatefulCallsByMountStateful(w: World, v: VNode, parent: Option<NodeId>, ctx: Context, isSVG: bool)
    requires WellFormed(v) && v.render.Some? && Fits(w, parent)
    ensures var o := MountStateful(w, v, parent, ctx, isSVG);
            o.result.Ok? ==> StatefulCalls(w, o.world, v, parent, ctx, isSVG, o.result.value)
  {
    var r := v.render.value;
    var props := PropsOrEmpty(v.props);
    var defaults := DefaultPropsOf(v.vtype);
    var merged := if defaults.Some? then CopyPropsTo(defaults.value, props) else props;
    var i := |w.host.instances|;
    var inst := Instance(v.vtype, merged, ctx, isSVG, r.input, r.childContext, r.hasDidMount);
    var w1 := w.(host := w.host.AddInstance(inst));
    var sub := Mount(w1, r.input, None, r.childContext, isSVG);
    StatefulOutcome(w, v, parent, ctx, isSVG, inst, sub);
    var o := MountStateful(w, v, parent, ctx, isSVG);
    if o.result.Ok? {
      var dom := sub.result.value.dom;
      CallbacksQueue(sub.world.(host := Attach(sub.world.host.WithLastInput(i, sub.result.value.vnode), parent, dom)), v.ref, i, inst);
      StatefulCallsFrom(w, o.world, v, parent, ctx, isSVG, o.result.value, inst, sub);
    }
  }

  /** What `mountStatefulComponentCallbacks` queues, as one block. */
  lemma CallbacksQueue(w: World, ref: Ref, i: InstanceId, inst: Instance)
    requires MountStatefulComponentCallbacks(w, ref, i, inst).result.Ok?
    ensures MountStatefulComponentCallbacks(w, ref, i, inst).world.queue == w.queue + InstanceListeners(ref, i, inst.hasDidMount)
  {
    var a := if ref.FunctionRef? then [RefCall(ref.fn, InstanceTarget(i))] else [];
    var b := if inst.hasDidMount then [ComponentDidMount(i)] else [];
    assert w.queue + a + b == w.queue + (a + b);
  }

  /** The calls of a stateful component's mount, from the exact log and queue its last step leaves. */
  lemma StatefulCallsFrom(w: World, w': World, v: VNode, parent: Option<NodeId>, ctx: Context, isSVG: bool, m: Mounted,
                          inst: Instance, sub: Outcome<Mounted>)
    requires WellFormed(v) && v.render.Some?
    requires var props := PropsOrEmpty(v.props);
             var defaults := DefaultPropsOf(v.vtype);
             var r := v.render.value;
             inst == Instance(v.vtype, if defaults.Some? then CopyPropsTo(defaults.value, props) else props,
                              ctx, isSVG, r.input, r.childContext, r.hasDidMount)
    requires sub == Mount(w.(host := w.host.AddInstance(inst)), v.render.value.input, None, v.render.value.childContext, isSVG)
    requires sub.result.Ok? && sub.result.value.dom == m.dom
    requires m.vnode.children == InstanceOf(|w.host.instances|, sub.result.value.vnode)
    requires w'.host.trace == sub.world.host.trace + AppendCall(parent, m.dom)
    requires w'.queue == sub.world.queue + InstanceListeners(v.ref, |w.host.instances|, inst.hasDidMount)
    ensures StatefulCalls(w, w', v, parent, ctx, isSVG, m)
  {
    var w1 := w.(host := w.host.AddInstance(inst));
    BracketsAppend(w1.host.trace, sub.world.host.trace, AppendCall(parent, m.dom));
    BracketsAppend(w.queue, sub.world.queue, InstanceListeners(v.ref, |w.host.instances|, inst.hasDidMount));
  }

  /** A successful `MountStateful` as the outcome its last step builds from `sub`, the input's mount. */
  lemma StatefulOutcome(w: World, v: VNode, parent: Option<NodeId>, ctx: Context, isSVG: bool, inst: Instance, sub: Outcome<Mounted>)
    requires WellFormed(v) && v.render.Some? && Fits(w, parent)
    requires var props := PropsOrEmpty(v.props);
             var defaults := DefaultPropsOf(v.vtype);
             var r := v.render.value;
             inst == Instance(v.vtype, if defaults.Some? then CopyPropsTo(defaults.value, props) else props,
                              ctx, isSVG, r.input, r.childContext, r.hasDidMount)
    requires sub == Mount(w.(host := w.host.AddInstance(inst)), v.render.value.input, None, v.render.value.childContext, isSVG)
    ensures var o := MountStateful(w, v, parent, ctx, isSVG);
            o.result.Ok? ==>
              && sub.result.Ok?
              && var i := |w.host.instances|;
                 var dom := sub.result.value.dom;
                 var input := sub.result.value.vnode;
                 && i < |sub.world.host.instances|
                 && var cb := MountStatefulComponentCallbacks(sub.world.(host := Attach(sub.world.host.WithLastInput(i, input), parent, dom)),
                                                              v.ref, i, inst);
                    && cb.result.Ok?
                    && o.world == cb.world.(host := cb.world.host.Register(i, dom))
                    && o.result.value == Mounted(dom, v.(props := if DefaultPropsOf(v.vtype).Some? then Some(inst.props) else v.props,
                                                         dom := Some(dom), children := InstanceOf(i, input)))
  {
  }

  /** The call log a stateful component's mount leaves: its input's, and then the append once the input mounted. */
  lemma StatefulTrace(w: World, v: VNode, parent: Option<NodeId>, ctx: Context, isSVG: bool, inst: Instance, sub: Outcome<Mounted>)
    requires WellFormed(v) && v.render.Some? && Fits(w, parent) && !v.vtype.NoType?
    requires var props := PropsOrEmpty(v.props);
             var defaults := DefaultPropsOf(v.vtype);
             var r := v.render.value;
             inst == Instance(v.vtype, if defaults.Some? then CopyPropsTo(defaults.value, props) else props,
                              ctx, isSVG, r.input, r.childContext, r.hasDidMount)
    requires sub == Mount(w.(host := w.host.AddInstance(inst)), v.render.value.input, None, v.render.value.childContext, isSVG)
    ensures MountStateful(w, v, parent, ctx, isSVG).world.host.trace ==
              if sub.result.Ok? then sub.world.host.trace + AppendCall(parent, sub.result.value.dom) else sub.world.host.trace
  {
  }

  /**
   * A stateful component with a type whose ref is truthy but not a function throws once its
   * node is already appended to the parent; the instance was created and holds its mounted
   * input, but is not registered: the instance-to-node map is the one its rendered input's
   * mount left.
   */
  lemma StatefulRefRejected(w: World, v: VNode, parent: Option<NodeId>, ctx: Context, isSVG: bool)
    requires WellFormed(v) && v.flags == ComponentClass && Fits(w, parent) && !v.vtype.NoType?
    requires Truthy(v.ref) && !v.ref.FunctionRef? && Mountable(v.render.value.input)
    ensures var o := Mount(w, v, parent, ctx, isSVG);
            && o.result == Err(UnsupportedRefKind)
            && |w.host.nodes| < |o.world.host.nodes|
            && (parent.Some? ==>
                  o.world.host.nodes[parent.value].children == w.host.nodes[parent.value].children + [|w.host.nodes|])
    ensures var own := PropsOrEmpty(v.props);
            var defaults := DefaultPropsOf(v.vtype);
            var r := v.render.value;
            var inst := Instance(v.vtype, if defaults.Some? then CopyPropsTo(defaults.value, own) else own,
                                 ctx, isSVG, r.input, r.childContext, r.hasDidMount);
            var sub := Mount(w.(host := w.host.AddInstance(inst)), r.input, None, r.childContext, isSVG);
            var o := Mount(w, v, parent, ctx, isSVG);
            && sub.result.Ok? && |w.host.instances| < |o.world.host.instances|
            && o.world.host.instances[|w.host.instances|] == inst.(lastInput := sub.result.value.vnode)
            && o.world.host.componentNodes == sub.world.host.componentNodes
  {
    assert HasBit(v.flags, ComponentClass);
    assert Mount(w, v, parent, ctx, isSVG) == MountStateful(w, v, parent, ctx, isSVG);
    var props := PropsOrEmpty(v.props);
    var rendering := v.render.value;
    var defaultProps := DefaultPropsOf(v.vtype);
    var merged := if defaultProps.Some? then CopyPropsTo(defaultProps.value, props) else props;
    var w1 := w.(host := w.host.AddInstance(
      Instance(v.vtype, merged, ctx, isSVG, rendering.input, rendering.childContext, rendering.hasDidMount)));
    MountOkIff(w1, rendering.input, None, rendering.childContext, isSVG);
  }

  /** What a stateless component's ref hooks add to the call log and to the queue. */
  function WillMountCalls(ref: Ref): (es: seq<Effect>)
    ensures |es| <= 1 && (es != [] <==> WillMountHook(ref).Some?)
  {
    if WillMountHook(ref).Some? then [WillMountCalled(WillMountHook(ref).value)] else []
  }

  function HookListeners(ref: Ref, dom: NodeId): (ls: seq<Listener>)
    ensures |ls| <= 1 && (ls != [] <==> DidMountHook(ref).Some?)
  {
    if DidMountHook(ref).Some? then [HookDidMount(DidMountHook(ref).value, dom)] else []
  }

  /**
   * A mounted stateless component: its rendered input is mounted detached with the unchanged
   * context right after the input is computed, and becomes the component's children, sharing
   * its node; the will-mount hook runs after that mount and before the node is appended, and
   * the did-mount hook is queued right after every listener of the subtree.
   */
  predicate StatelessBuilt(w: World, w': World, v: VNode, parent: Option<NodeId>, ctx: Context, isSVG: bool, m: Mounted)
    requires WellFormed(v) && v.render.Some?
  {
    var sub := Mount(w.(host := w.host.Log([InputCreated(v.vtype, PropsOrEmpty(v.props), ctx)])), v.render.value.input, None, ctx, isSVG);
    && m.vnode == v.(dom := Some(m.dom), children := m.vnode.children)
    && m.vnode.children.One? && m.vnode.children.kid.dom == Some(m.dom)
    && sub.result == Ok(Mounted(m.dom, m.vnode.children.kid))
    && w'.host.trace == sub.world.host.trace + WillMountCalls(v.ref) + AppendCall(parent, m.dom)
    && w'.queue == sub.world.queue + HookListeners(v.ref, m.dom)
    && Brackets(w'.host.trace, w.host.trace + [InputCreated(v.vtype, PropsOrEmpty(v.props), ctx)],
                WillMountCalls(v.ref) + AppendCall(parent, m.dom))
    && Brackets(w'.queue, w.queue, HookListeners(v.ref, m.dom))
  }

  /** `mountComponent` builds a component without a class flag as `StatelessBuilt` says. */
  lemma StatelessShape(w: World, v: VNode, parent: Option<NodeId>, ctx: Context, isSVG: bool)
    requires WellFormed(v) && v.flags == ComponentFunction && Fits(w, parent)
    ensures var o := Mount(w, v, parent, ctx, isSVG);
            o.result.Ok? ==> StatelessBuilt(w, o.world, v, parent, ctx, isSVG, o.result.value)
  {
    assert !HasBit(v.flags, ComponentClass);
    assert Mount(w, v, parent, ctx, isSVG) == MountStateless(w, v, parent, ctx, isSVG);
    StatelessBuiltByMountStateless(w, v, parent, ctx, isSVG);
  }

  lemma StatelessBuiltByMountStateless(w: World, v: VNode, parent: Option<NodeId>, ctx: Context, isSVG: bool)
    requires WellFormed(v) && v.render.Some? && Fits(w, parent)
    ensures var o := MountStateless(w, v, parent, ctx, isSVG);
            o.result.Ok? ==> StatelessBuilt(w, o.world, v, parent, ctx, isSVG, o.result.value)
  {
    var w1 := w.(host := w.host.Log([InputCreated(v.vtype, PropsOrEmpty(v.props), ctx)]));
    var sub := Mount(w1, v.render.value.input, None, ctx, isSVG);
    if sub.result.Ok? {
      var dom := sub.result.value.dom;
      var w2 := MountStatelessComponentCallbacks(sub.world, v.ref, dom);
      assert w2.host.trace == sub.world.host.trace + WillMountCalls(v.ref);
      BracketsAppend(w1.host.trace, sub.world.host.trace, WillMountCalls(v.ref) + AppendCall(parent, dom));
      BracketsAppend(w.queue, sub.world.queue, HookListeners(v.ref, dom));
      assert sub.world.host.trace + WillMountCalls(v.ref) + AppendCall(parent, dom)
             == sub.world.host.trace + (WillMountCalls(v.ref) + AppendCall(parent, dom));
    }
  }
}
