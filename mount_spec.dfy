/**
 * mounting.ts as pure functions over a `World` (host state and lifecycle queue): each
 * function returns the world after the call and either the mounted result or the error
 * `throwError` raises. The methods of module Mounting are proved to compute exactly these.
 */
module MountSpec {
  import opened Wrappers
  import opened VNodes
  import opened Dom

  /**
   * The errors mount can raise: `throwError` for an unknown VNode kind and for an unsupported
   * ref, and the `TypeError` of reading `children.length` when a fragment's children are
   * absent or `type.defaultProps` when a stateful component has no type.
   */
  datatype MountError = InvalidNode | UnsupportedRefKind | TypeError

  /** The node `mount` returns, and the VNode as mount has updated it (`dom`, `props`, `children`). */
  datatype Mounted = Mounted(dom: NodeId, vnode: VNode)

  datatype Outcome<T> = Outcome(world: World, result: Result<T, MountError>)

  /** The parent, when one is given, is a node of the table. */
  predicate Fits(w: World, parent: Option<NodeId>)
  {
    parent.Some? ==> parent.value < |w.host.nodes|
  }

  /**
   * Nodes, instances, the call log and the listener queue are only ever added to, and an
   * instance that already existed keeps the node it was registered with.
   */
  predicate Extends(w: World, w': World)
  {
    && |w.host.nodes| <= |w'.host.nodes|
    && w.host.instances <= w'.host.instances
    && w.host.trace <= w'.host.trace
    && w.queue <= w'.queue
    && forall i | i in w.host.componentNodes && i < |w.host.instances| ::
         i in w'.host.componentNodes && w'.host.componentNodes[i] == w.host.componentNodes[i]
  }

  function Roots(ms: seq<Mounted>): (r: seq<NodeId>)
    ensures |r| == |ms| && forall k | 0 <= k < |ms| :: r[k] == ms[k].dom
  {
    seq(|ms|, k requires 0 <= k < |ms| => ms[k].dom)
  }

  function VNodesOf(ms: seq<Mounted>): (r: seq<VNode>)
    ensures |r| == |ms| && forall k | 0 <= k < |ms| :: r[k] == ms[k].vnode
  {
    seq(|ms|, k requires 0 <= k < |ms| => ms[k].vnode)
  }

  /**
   * `mv` is what a successful mount makes of `v`: `v` with its node set, and below it every
   * VNode the mount reaches mounted from the one at the same place in `v`: the children of
   * elements and fragments index by index, and a component's rendered input.
   */
  predicate MountedFrom(v: VNode, mv: VNode)
    decreases v, 1
  {
    match KindOf(v.flags)
    case None => false
    case Some(ElementKind) => ElementMountedFrom(v, mv)
    case Some(FragmentKind) => FragmentMountedFrom(v, mv)
    case Some(ComponentKind) => v.render.Some? && ComponentMountedFrom(v, mv, HasBit(v.flags, ComponentClass))
    case Some(_) => mv.dom.Some? && mv == v.(dom := mv.dom)
  }

  /** An element VNode changes only in its node and its children, each child mounted in place. */
  predicate ElementMountedFrom(v: VNode, mv: VNode)
    decreases v, 0
  {
    mv.dom.Some? && mv == v.(dom := mv.dom, children := mv.children) && KidsMountedFrom(v.children, mv.children)
  }

  /** A fragment's list of children is mounted in place; children of any other shape stay as they were. */
  predicate FragmentMountedFrom(v: VNode, mv: VNode)
    decreases v, 0
  {
    && mv.dom.Some? && mv == v.(dom := mv.dom, children := mv.children)
    && if v.children.Many? then KidsMountedFrom(v.children, mv.children) else mv.children == v.children
  }

  /**
   * A stateful component's props become the props merged with the defaults, when there are
   * defaults, and its children the instance, whose last input is mounted from the rendered
   * input and has the component's node. A stateless component's children become its
   * mounted rendered input, whose node it shares.
   */
  predicate ComponentMountedFrom(v: VNode, mv: VNode, isClass: bool)
    requires v.render.Some?
    decreases v, 0
  {
    && mv.dom.Some?
    && if isClass then
         && mv == v.(props := mv.props, dom := mv.dom, children := mv.children)
         && mv.props == (if DefaultPropsOf(v.vtype).Some? then Some(CopyPropsTo(DefaultPropsOf(v.vtype).value, PropsOrEmpty(v.props)))
                         else v.props)
         && mv.children.InstanceOf? && mv.children.input.dom == mv.dom
         && MountedFrom(v.render.value.input, mv.children.input)
       else
         && mv == v.(dom := mv.dom, children := mv.children)
         && mv.children.One? && mv.children.kid.dom == mv.dom
         && MountedFrom(v.render.value.input, mv.children.kid)
  }

  /** `mc` is `c` with each VNode in it (a list, or one nested VNode) mounted from the one at the same place. */
  predicate KidsMountedFrom(c: Children, mc: Children)
    decreases c
  {
    match c
    case Many(kids) => mc.Many? && |mc.kids| == |kids| && forall k | 0 <= k < |kids| :: MountedFrom(kids[k], mc.kids[k])
    case One(kid) => mc.One? && MountedFrom(kid, mc.kid)
    case _ => mc == c
  }

  /** The `appendChild(parentDom, dom)` call, made exactly when a parent is given. */
  function AppendCall(parent: Option<NodeId>, dom: NodeId): (es: seq<Effect>)
    ensures |es| <= 1 && (es != [] <==> parent.Some?)
  {
    if parent.Some? then [Appended(parent.value, dom)] else []
  }

  /**
   * What a successful mount of one VNode did to the node table: its node is the first one it
   * created, the VNode now holds it, no earlier node changed except that the parent, if any,
   * gained it as last child by the very last host call, and child links still point forward.
   */
  predicate Placed(w: World, w': World, parent: Option<NodeId>, m: Mounted)
  {
    && m.dom == |w.host.nodes| && m.dom < |w'.host.nodes|
    && m.vnode.dom == Some(m.dom)
    && (forall n | 0 <= n < |w.host.nodes| ::
          w'.host.nodes[n] == if parent == Some(n) then w.host.nodes[n].WithChildren([m.dom]) else w.host.nodes[n])
    && (parent.Some? ==>
          |w.host.trace| < |w'.host.trace| && w'.host.trace[|w'.host.trace| - 1] == Appended(parent.value, m.dom))
    && (Ordered(w.host.nodes) ==> Ordered(w'.host.nodes))
  }

  /**
   * What mounting a list of children under `dom` did: each child has its own fresh node, `dom`
   * became `expected` with the children's nodes appended in order, and no other earlier node changed.
   */
  predicate Joined(w: World, w': World, dom: NodeId, expected: DomNode, ms: seq<Mounted>)
  {
    && dom < |w.host.nodes| <= |w'.host.nodes|
    && (forall k | 0 <= k < |ms| :: |w.host.nodes| <= ms[k].dom < |w'.host.nodes| && ms[k].vnode.dom == Some(ms[k].dom))
    && (forall n | 0 <= n < |w.host.nodes| && n != dom :: w'.host.nodes[n] == w.host.nodes[n])
    && w'.host.nodes[dom] == expected.WithChildren(Roots(ms))
    && (Ordered(w.host.nodes) && expected.children == w.host.nodes[dom].children ==> Ordered(w'.host.nodes))
  }

  /** Appends `dom` to the parent when one is given (`if (parentDom)` / `if (!isNull(parentDom))`). */
  function Attach(h: HostState, parent: Option<NodeId>, dom: NodeId): (r: HostState)
    requires parent.Some? ==> parent.value < |h.nodes|
    ensures |r.nodes| == |h.nodes| && r.instances == h.instances && r.componentNodes == h.componentNodes
    ensures r.trace == h.trace + AppendCall(parent, dom)
    ensures forall n | 0 <= n < |h.nodes| ::
              r.nodes[n] == if parent == Some(n) then h.nodes[n].WithChildren([dom]) else h.nodes[n]
    ensures Ordered(h.nodes) && (parent.Some? ==> parent.value < dom < |h.nodes|) ==> Ordered(r.nodes)
  {
    if parent.Some? then h.Append(parent.value, dom) else h
  }

  /** `mount`: dispatch on `vNode.flags`. */
  function Mount(w: World, vNode: VNode, parentDom: Option<NodeId>, context: Context, isSVG: bool): (o: Outcome<Mounted>)
    requires WellFormed(vNode) && Fits(w, parentDom)
    ensures Extends(w, o.world)
    ensures o.result.Ok? ==> Placed(w, o.world, parentDom, o.result.value)
    ensures o.result.Ok? ==> MountedFrom(vNode, o.result.value.vnode)
    ensures KindOf(vNode.flags).None? ==> o == Outcome(w, Err(InvalidNode))
    decreases vNode, 4, 0
  {
    match KindOf(vNode.flags)
    case None => Outcome(w, Err(InvalidNode))
    case Some(ElementKind) => MountElement(w, vNode, parentDom, context, isSVG || HasBit(vNode.flags, SvgElement))
    case Some(ComponentKind) => MountComponent(w, vNode, parentDom, context, isSVG, HasBit(vNode.flags, ComponentClass))
    case Some(VoidKind) => MountVoid(w, vNode, parentDom)
    case Some(FragmentKind) => MountFragment(w, vNode, parentDom, context, isSVG)
    case Some(TextKind) => MountText(w, vNode, parentDom)
  }

  /** `mountText`: a text node holding `vNode.children`. */
  function MountText(w: World, vNode: VNode, parentDom: Option<NodeId>): (o: Outcome<Mounted>)
    requires Fits(w, parentDom)
    ensures o.result.Ok? && Extends(w, o.world) && Placed(w, o.world, parentDom, o.result.value)
    ensures o.result.value.vnode == vNode.(dom := Some(o.result.value.dom))
    ensures o.world.host.nodes[o.result.value.dom] == DomNode(TextNode, "", false, TextOf(vNode.children), [])
    ensures o.world.host.trace ==
              w.host.trace + [CreatedText(o.result.value.dom, TextOf(vNode.children))] + AppendCall(parentDom, o.result.value.dom)
    ensures o.world.queue == w.queue
  {
    var dom := |w.host.nodes|;
    var text := TextOf(vNode.children);
    var h := w.host.AddNode(DomNode(TextNode, "", false, text, []), CreatedText(dom, text));
    Outcome(World(Attach(h, parentDom, dom), w.queue), Ok(Mounted(dom, vNode.(dom := Some(dom)))))
  }

  /** `mountVoid`: an empty text node. */
  function MountVoid(w: World, vNode: VNode, parentDom: Option<NodeId>): (o: Outcome<Mounted>)
    requires Fits(w, parentDom)
    ensures o.result.Ok? && Extends(w, o.world) && Placed(w, o.world, parentDom, o.result.value)
    ensures o.result.value.vnode == vNode.(dom := Some(o.result.value.dom))
    ensures o.world.host.nodes[o.result.value.dom] == DomNode(TextNode, "", false, "", [])
    ensures o.world.host.trace ==
              w.host.trace + [CreatedText(o.result.value.dom, "")] + AppendCall(parentDom, o.result.value.dom)
    ensures o.world.queue == w.queue
  {
    var dom := |w.host.nodes|;
    var h := w.host.AddNode(DomNode(TextNode, "", false, "", []), CreatedText(dom, ""));
    Outcome(World(Attach(h, parentDom, dom), w.queue), Ok(Mounted(dom, vNode.(dom := Some(dom)))))
  }

  /** The `patchProp(prop, null, props[prop], dom, isSVG)` calls of the props loop. */
  function PatchCalls(props: Props, dom: NodeId, isSVG: bool): (es: seq<Effect>)
    ensures |es| == |props|
    ensures forall k | 0 <= k < |props| :: es[k] == PropPatched(props[k].name, Value.Null, props[k].value, dom, isSVG)
  {
    seq(|props|, k requires 0 <= k < |props| => PropPatched(props[k].name, Value.Null, props[k].value, dom, isSVG))
  }

  /** The element node after `setTextContent`, when the children are a string: only its text changes. */
  function WithText(n: DomNode, c: Children): (r: DomNode)
    ensures r.kind == n.kind && r.tag == n.tag && r.svg == n.svg && r.children == n.children
    ensures r.text == if c.Text? then c.s else n.text
  {
    if c.Text? then n.(text := c.s) else n
  }

  /**
   * `vNode.children` after the children `ms` are mounted in place: a list becomes the mounted
   * VNodes, one nested VNode the single mounted one, and anything else stays as it was.
   */
  function MountedChildren(c: Children, ms: seq<Mounted>): (r: Children)
    ensures c.Many? ==> r.Many? && |r.kids| == |ms| && forall k | 0 <= k < |ms| :: r.kids[k] == ms[k].vnode
    ensures c.One? ==> r == if |ms| == 1 then One(ms[0].vnode) else c
    ensures !c.Many? && !c.One? ==> r == c
  {
    match c
    case Many(_) => Many(VNodesOf(ms))
    case One(kid) => if |ms| == 1 then One(ms[0].vnode) else c
    case _ => c
  }

  /** `mountElement`: create the node, bind the ref, then props, children and the append. */
  function MountElement(w: World, vNode: VNode, parentDom: Option<NodeId>, context: Context, isSVG: bool): (o: Outcome<Mounted>)
    requires WellFormed(vNode) && vNode.vtype.Tag? && Fits(w, parentDom)
    ensures Extends(w, o.world)
    ensures o.result.Ok? ==> Placed(w, o.world, parentDom, o.result.value)
    ensures o.result.Ok? ==> ElementMountedFrom(vNode, o.result.value.vnode)
    decreases vNode, 3, 0
  {
    var tag := vNode.vtype.name;
    var dom := |w.host.nodes|;
    var w1 := w.(host := w.host.AddNode(DomNode(ElementNode, tag, isSVG, "", []), CreatedElement(dom, tag, isSVG)));
    var r := if IsNullOrUndef(vNode.ref) then Outcome(w1, Ok(())) else MountRef(w1, dom, vNode.ref);
    if r.result.Err? then Outcome(r.world, Err(r.result.error))
    else
      assert r.world.host == w1.host;
      ElementRest(w, r.world, vNode, dom, parentDom, context, isSVG)
  }

  /** The rest of `mountElement` once its node `dom` exists and its ref is bound. */
  function ElementRest(w: World, w2: World, vNode: VNode, dom: NodeId, parentDom: Option<NodeId>, context: Context, isSVG: bool)
    : (o: Outcome<Mounted>)
    requires WellFormed(vNode) && Fits(w, parentDom) && Extends(w, w2)
    requires dom == |w.host.nodes| && |w2.host.nodes| == dom + 1 && w2.host.nodes[..dom] == w.host.nodes
    requires w2.host.nodes[dom].children == [] && w.host.trace < w2.host.trace
    ensures Extends(w, o.world)
    ensures o.result.Ok? ==> Placed(w, o.world, parentDom, o.result.value)
    ensures o.result.Ok? ==> ElementMountedFrom(vNode, o.result.value.vnode)
    decreases vNode, 2, 1
  {
    var w3 := if vNode.props.Some? then w2.(host := w2.host.Log(PatchCalls(vNode.props.value, dom, isSVG))) else w2;
    var c := MountElementChildren(w3, vNode, dom, context, isSVG);
    if c.result.Err? then Outcome(c.world, Err(c.result.error))
    else
      var updated := vNode.(dom := Some(dom), children := MountedChildren(vNode.children, c.result.value));
      PlacedAfterChildren(w, w3, c.world, parentDom, dom, WithText(w3.host.nodes[dom], vNode.children), c.result.value, updated);
      Outcome(c.world.(host := Attach(c.world.host, parentDom, dom)), Ok(Mounted(dom, updated)))
  }

  /** `ElementRest` as the outcome of its props step, its children step and the append. */
  lemma ElementRestOutcome(w: World, w2: World, vNode: VNode, dom: NodeId, parentDom: Option<NodeId>, context: Context, isSVG: bool)
    requires WellFormed(vNode) && Fits(w, parentDom) && Extends(w, w2)
    requires dom == |w.host.nodes| && |w2.host.nodes| == dom + 1 && w2.host.nodes[..dom] == w.host.nodes
    requires w2.host.nodes[dom].children == [] && w.host.trace < w2.host.trace
    ensures var w3 := if vNode.props.Some? then w2.(host := w2.host.Log(PatchCalls(vNode.props.value, dom, isSVG))) else w2;
            var c := MountElementChildren(w3, vNode, dom, context, isSVG);
            ElementRest(w, w2, vNode, dom, parentDom, context, isSVG)
            == if c.result.Err? then Outcome(c.world, Err(c.result.error))
               else Outcome(c.world.(host := Attach(c.world.host, parentDom, dom)),
                            Ok(Mounted(dom, vNode.(dom := Some(dom), children := MountedChildren(vNode.children, c.result.value)))))
  {
  }

  /** The children branch of `mountElement`: a string, a list or one nested VNode. */
  function MountElementChildren(w: World, vNode: VNode, dom: NodeId, context: Context, isSVG: bool): (o: Outcome<seq<Mounted>>)
    requires WellFormed(vNode) && dom < |w.host.nodes|
    ensures Extends(w, o.world)
    ensures o.result.Ok? ==> Joined(w, o.world, dom, WithText(w.host.nodes[dom], vNode.children), o.result.value)
    ensures o.result.Ok? && vNode.children.Many? ==> |o.result.value| == |vNode.children.kids|
    ensures o.result.Ok? && vNode.children.One? ==> |o.result.value| == 1
    ensures o.result.Ok? && !vNode.children.Many? && !vNode.children.One? ==> o.result.value == []
    ensures o.result.Ok? ==> KidsMountedFrom(vNode.children, MountedChildren(vNode.children, o.result.value))
    decreases vNode, 2, 0
  {
    match vNode.children
    case Text(s) => Outcome(w.(host := w.host.SetText(dom, s)), Ok([]))
    case Many(kids) => MountChildren(w, vNode, 0, dom, context, isSVG)
    case One(kid) =>
      var o := Mount(w, kid, Some(dom), context, isSVG);
      if o.result.Err? then Outcome(o.world, Err(o.result.error)) else Outcome(o.world, Ok([o.result.value]))
    case _ => Outcome(w, Ok([]))
  }

  /** Puts the already mounted `acc` in front of what the rest of a children loop mounts. */
  function Prefixed(acc: seq<Mounted>, o: Outcome<seq<Mounted>>): (r: Outcome<seq<Mounted>>)
  {
    if o.result.Ok? then Outcome(o.world, Ok(acc + o.result.value)) else o
  }

  lemma PrefixedNil(o: Outcome<seq<Mounted>>)
    ensures Prefixed([], o) == o
  {
    if o.result.Ok? { assert [] + o.result.value == o.result.value; }
  }

  lemma PrefixedCons(acc: seq<Mounted>, m: Mounted, o: Outcome<seq<Mounted>>)
    ensures Prefixed(acc, Prefixed([m], o)) == Prefixed(acc + [m], o)
  {
    if o.result.Ok? { assert acc + ([m] + o.result.value) == (acc + [m]) + o.result.value; }
  }

  /** The loop `for (i = ...; i < children.length; i++) mount(children[i], dom, ...)`. */
  function MountChildren(w: World, vNode: VNode, i: nat, dom: NodeId, context: Context, isSVG: bool): (o: Outcome<seq<Mounted>>)
    requires WellFormed(vNode) && vNode.children.Many? && i <= |vNode.children.kids| && dom < |w.host.nodes|
    ensures Extends(w, o.world)
    ensures o.result.Ok? ==> Joined(w, o.world, dom, w.host.nodes[dom], o.result.value)
    ensures o.result.Ok? ==> |o.result.value| == |vNode.children.kids| - i
    ensures o.result.Ok? ==>
              forall k | 0 <= k < |o.result.value| :: MountedFrom(vNode.children.kids[i + k], o.result.value[k].vnode)
    decreases vNode, 1, |vNode.children.kids| - i
  {
    if i == |vNode.children.kids| then Outcome(w, Ok([]))
    else
      var first := Mount(w, vNode.children.kids[i], Some(dom), context, isSVG);
      if first.result.Err? then Outcome(first.world, Err(first.result.error))
      else
        var rest := MountChildren(first.world, vNode, i + 1, dom, context, isSVG);
        JoinedStep(w, first.world, rest, dom, first.result.value);
        if rest.result.Ok? then
          MountedFromStep(vNode.children.kids, i, first.result.value, rest.result.value);
          Prefixed([first.result.value], rest)
        else
          Prefixed([first.result.value], rest)
  }

  /** One more child in front of a children loop keeps `Joined`. */
  lemma JoinedStep(w: World, w1: World, rest: Outcome<seq<Mounted>>, dom: NodeId, m: Mounted)
    requires dom < |w.host.nodes|
    requires Placed(w, w1, Some(dom), m)
    requires rest.result.Ok? ==> Joined(w1, rest.world, dom, w1.host.nodes[dom], rest.result.value)
    ensures rest.result.Ok? ==> Joined(w, rest.world, dom, w.host.nodes[dom], [m] + rest.result.value)
  {
    if rest.result.Ok? {
      var ms := rest.result.value;
      assert Roots([m] + ms) == [m.dom] + Roots(ms);
      assert w1.host.nodes[dom] == w.host.nodes[dom].WithChildren([m.dom]);
      forall k | 0 <= k < |[m] + ms|
        ensures |w.host.nodes| <= ([m] + ms)[k].dom < |rest.world.host.nodes|
      {
        if k > 0 { assert ([m] + ms)[k] == ms[k - 1]; }
      }
    }
  }

  /** The child mounted from index `i` in front of those mounted from `i + 1` on. */
  lemma MountedFromStep(kids: seq<VNode>, i: nat, m: Mounted, ms: seq<Mounted>)
    requires i + 1 + |ms| <= |kids| && MountedFrom(kids[i], m.vnode)
    requires forall k | 0 <= k < |ms| :: MountedFrom(kids[i + 1 + k], ms[k].vnode)
    ensures forall k | 0 <= k < |[m] + ms| :: MountedFrom(kids[i + k], ([m] + ms)[k].vnode)
  {
    forall k | 0 <= k < |[m] + ms| ensures MountedFrom(kids[i + k], ([m] + ms)[k].vnode) {
      if k > 0 { assert ([m] + ms)[k] == ms[k - 1]; }
    }
  }

  /**
   * An element or fragment whose node `dom` was created first, whose children were then
   * mounted, and which is finally attached, is `Placed`.
   */
  lemma PlacedAfterChildren(w: World, w3: World, wc: World, parent: Option<NodeId>, dom: NodeId,
                            expected: DomNode, ms: seq<Mounted>, vn: VNode)
    requires Fits(w, parent) && dom == |w.host.nodes|
    requires |w3.host.nodes| == dom + 1 && w3.host.nodes[..dom] == w.host.nodes
    requires w3.host.nodes[dom].children == [] && expected.children == []
    requires Joined(w3, wc, dom, expected, ms)
    requires vn.dom == Some(dom)
    requires w.host.trace <= w3.host.trace <= wc.host.trace
    ensures Placed(w, wc.(host := Attach(wc.host, parent, dom)), parent, Mounted(dom, vn))
  {
    var wf := wc.(host := Attach(wc.host, parent, dom));
    forall n | 0 <= n < |w.host.nodes|
      ensures wc.host.nodes[n] == w.host.nodes[n]
    {
      assert w3.host.nodes[n] == w3.host.nodes[..dom][n];
    }
    if Ordered(w.host.nodes) {
      forall n, k | 0 <= n < |w3.host.nodes| && 0 <= k < |w3.host.nodes[n].children|
        ensures n < w3.host.nodes[n].children[k] < |w3.host.nodes|
      {
        assert w3.host.nodes[n] == w3.host.nodes[..dom][n];
      }
      assert Ordered(wc.host.nodes);
    }
  }

  /** `mountFragment`: a container holding the children in index order. */
  function MountFragment(w: World, vNode: VNode, parentDom: Option<NodeId>, context: Context, isSVG: bool): (o: Outcome<Mounted>)
    requires WellFormed(vNode) && Fits(w, parentDom)
    ensures Extends(w, o.world)
    ensures o.result.Ok? ==> Placed(w, o.world, parentDom, o.result.value)
    ensures o.result.Ok? ==> FragmentMountedFrom(vNode, o.result.value.vnode)
    decreases vNode, 3, 0
  {
    var dom := |w.host.nodes|;
    var w1 := w.(host := w.host.AddNode(DomNode(FragmentNode, "", false, "", []), CreatedFragment(dom)));
    assert w1.host.nodes[..dom] == w.host.nodes;
    var c := FragmentChildren(w1, vNode, dom, context, isSVG);
    if c.result.Err? then Outcome(c.world, Err(c.result.error))
    else
      var updated := vNode.(dom := Some(dom), children := MountedChildren(vNode.children, c.result.value));
      PlacedAfterChildren(w, w1, c.world, parentDom, dom, w1.host.nodes[dom], c.result.value, updated);
      Outcome(c.world.(host := Attach(c.world.host, parentDom, dom)), Ok(Mounted(dom, updated)))
  }

  /**
   * The loop of `mountFragment`, `for (i = 0; i < children.length; i++) mount(children[i], ...)`,
   * over children of any shape: absent children make `children.length` throw; a string is
   * indexed by character, and `mount` of a one-character string throws `InvalidNode`; one
   * nested VNode and the other shapes have no length, so nothing is mounted.
   */
  function FragmentChildren(w: World, vNode: VNode, dom: NodeId, context: Context, isSVG: bool): (o: Outcome<seq<Mounted>>)
    requires WellFormed(vNode) && dom < |w.host.nodes|
    ensures Extends(w, o.world)
    ensures o.result.Ok? ==> Joined(w, o.world, dom, w.host.nodes[dom], o.result.value)
    ensures vNode.children.NoChildren? ==> o == Outcome(w, Err(TypeError))
    ensures vNode.children.Text? && vNode.children.s != "" ==> o == Outcome(w, Err(InvalidNode))
    ensures !vNode.children.Many? ==> (o.result.Err? <==> vNode.children.NoChildren? || (vNode.children.Text? && vNode.children.s != ""))
    ensures !vNode.children.Many? && o.result.Ok? ==> o == Outcome(w, Ok([]))
    ensures o.result.Ok? && vNode.children.Many? ==> |o.result.value| == |vNode.children.kids|
    ensures o.result.Ok? && vNode.children.Many? ==> KidsMountedFrom(vNode.children, MountedChildren(vNode.children, o.result.value))
    decreases vNode, 2, 0
  {
    match vNode.children
    case Many(_) => MountChildren(w, vNode, 0, dom, context, isSVG)
    case NoChildren => Outcome(w, Err(TypeError))
    case Text(s) => if s == "" then Outcome(w, Ok([])) else Outcome(w, Err(InvalidNode))
    case _ => Outcome(w, Ok([]))
  }

  /** `mountComponent`: stateful (`isClass`) or stateless. */
  function MountComponent(w: World, vNode: VNode, parentDom: Option<NodeId>, context: Context, isSVG: bool, isClass: bool): (o: Outcome<Mounted>)
    requires WellFormed(vNode) && vNode.render.Some? && Fits(w, parentDom)
    ensures Extends(w, o.world)
    ensures o.result.Ok? ==> Placed(w, o.world, parentDom, o.result.value)
    ensures o.result.Ok? ==> ComponentMountedFrom(vNode, o.result.value.vnode, isClass)
    ensures isClass && vNode.vtype.NoType? ==> o == Outcome(w, Err(TypeError))
    decreases vNode, 3, 1
  {
    if isClass then MountStateful(w, vNode, parentDom, context, isSVG)
    else MountStateless(w, vNode, parentDom, context, isSVG)
  }

  /**
   * The class branch of `mountComponent`: read `type.defaultProps`, which throws when there
   * is no type; create the instance with the default props merged in, mount its rendered
   * input in place with the instance's child context, append, queue the instance's
   * callbacks, then register the instance's node.
   */
  function MountStateful(w: World, vNode: VNode, parentDom: Option<NodeId>, context: Context, isSVG: bool): (o: Outcome<Mounted>)
    requires WellFormed(vNode) && vNode.render.Some? && Fits(w, parentDom)
    ensures Extends(w, o.world)
    ensures o.result.Ok? ==> Placed(w, o.world, parentDom, o.result.value)
    ensures o.result.Ok? ==> ComponentMountedFrom(vNode, o.result.value.vnode, true)
    ensures vNode.vtype.NoType? ==> o == Outcome(w, Err(TypeError))
    decreases vNode, 3, 0
  {
    if vNode.vtype.NoType? then Outcome(w, Err(TypeError))
    else
      var props := PropsOrEmpty(vNode.props);
      var rendering := vNode.render.value;
      var defaultProps := DefaultPropsOf(vNode.vtype);
      var merged := if defaultProps.Some? then CopyPropsTo(defaultProps.value, props) else props;
      var instance := |w.host.instances|;
      var inst := Instance(vNode.vtype, merged, context, isSVG, rendering.input, rendering.childContext, rendering.hasDidMount);
      var w1 := w.(host := w.host.AddInstance(inst));
      var sub := Mount(w1, rendering.input, None, rendering.childContext, isSVG);
      if sub.result.Err? then Outcome(sub.world, Err(sub.result.error))
      else
        var dom := sub.result.value.dom;
        var input := sub.result.value.vnode;
        var w2 := sub.world.(host := Attach(sub.world.host.WithLastInput(instance, input), parentDom, dom));
        var cb := MountStatefulComponentCallbacks(w2, vNode.ref, instance, inst);
        if cb.result.Err? then Outcome(cb.world, Err(cb.result.error))
        else
          var updated := vNode.(props := if defaultProps.Some? then Some(merged) else vNode.props,
                                dom := Some(dom), children := InstanceOf(instance, input));
          StatefulMountedFrom(vNode, instance, sub.result.value);
          StatefulPlaced(w, inst, sub.world, cb.world, parentDom, sub.result.value, updated);
          Outcome(cb.world.(host := cb.world.host.Register(instance, dom)), Ok(Mounted(dom, updated)))
  }

  /**
   * The function branch of `mountComponent`: log the input's creation, mount it with the
   * caller's context, run the hooks, then append.
   */
  function MountStateless(w: World, vNode: VNode, parentDom: Option<NodeId>, context: Context, isSVG: bool): (o: Outcome<Mounted>)
    requires WellFormed(vNode) && vNode.render.Some? && Fits(w, parentDom)
    ensures Extends(w, o.world)
    ensures o.result.Ok? ==> Placed(w, o.world, parentDom, o.result.value)
    ensures o.result.Ok? ==> ComponentMountedFrom(vNode, o.result.value.vnode, false)
    decreases vNode, 3, 0
  {
    var props := PropsOrEmpty(vNode.props);
    var rendering := vNode.render.value;
    var w1 := w.(host := w.host.Log([InputCreated(vNode.vtype, props, context)]));
    var sub := Mount(w1, rendering.input, None, context, isSVG);
    if sub.result.Err? then Outcome(sub.world, Err(sub.result.error))
    else
      var dom := sub.result.value.dom;
      var w2 := MountStatelessComponentCallbacks(sub.world, vNode.ref, dom);
      var updated := vNode.(dom := Some(dom), children := One(sub.result.value.vnode));
      StatelessMountedFrom(vNode, sub.result.value);
      Outcome(w2.(host := Attach(w2.host, parentDom, dom)), Ok(Mounted(dom, updated)))
  }

  /**
   * The VNode a stateful component's mount returns: merged props, its input's node, and as
   * children the instance with that mounted input.
   */
  lemma StatefulMountedFrom(v: VNode, instance: InstanceId, sub: Mounted)
    requires v.render.Some? && MountedFrom(v.render.value.input, sub.vnode) && sub.vnode.dom == Some(sub.dom)
    ensures var defaults := DefaultPropsOf(v.vtype);
            ComponentMountedFrom(v, v.(props := if defaults.Some? then Some(CopyPropsTo(defaults.value, PropsOrEmpty(v.props))) else v.props,
                                       dom := Some(sub.dom), children := InstanceOf(instance, sub.vnode)), true)
  {
  }

  /**
   * A stateful component whose instance was added first, whose input was then mounted
   * detached and recorded in the instance, and which was appended, had its callbacks queued
   * and was registered, is `Placed` at its input's node.
   */
  lemma StatefulPlaced(w: World, inst: Instance, s: World, cb: World, parent: Option<NodeId>, m: Mounted, vn: VNode)
    requires Fits(w, parent)
    requires var w1 := w.(host := w.host.AddInstance(inst)); Extends(w1, s) && Placed(w1, s, None, m)
    requires cb.host == Attach(s.host.WithLastInput(|w.host.instances|, m.vnode), parent, m.dom) && s.queue <= cb.queue
    requires vn.dom == Some(m.dom)
    ensures var wf := cb.(host := cb.host.Register(|w.host.instances|, m.dom));
            Extends(w, wf) && Placed(w, wf, parent, Mounted(m.dom, vn))
  {
    var i := |w.host.instances|;
    var w1 := w.(host := w.host.AddInstance(inst));
    var wf := cb.(host := cb.host.Register(i, m.dom));
    assert w.host.instances <= w1.host.instances;
    assert w.host.instances <= wf.host.instances by {
      assert wf.host.instances == s.host.instances[i := s.host.instances[i].(lastInput := m.vnode)];
    }
  }

  /** The VNode a stateless component's mount returns: its input's mounted VNode as its one child, sharing its node. */
  lemma StatelessMountedFrom(v: VNode, sub: Mounted)
    requires v.render.Some? && MountedFrom(v.render.value.input, sub.vnode) && sub.vnode.dom == Some(sub.dom)
    ensures ComponentMountedFrom(v, v.(dom := Some(sub.dom), children := One(sub.vnode)), false)
  {
  }

  /**
   * `mountStatefulComponentCallbacks`: queue `ref(instance)` and `componentDidMount`; the
   * instance object is its id `instance` and its contents `inst`.
   */
  function MountStatefulComponentCallbacks(w: World, ref: Ref, instance: InstanceId, inst: Instance): (o: Outcome<()>)
    ensures o.world.host == w.host
    ensures o.result.Ok? <==> !Truthy(ref) || ref.FunctionRef?
    ensures o.result.Err? ==> o.world.queue == w.queue
    ensures o.result.Ok? ==>
              o.world.queue == w.queue
                               + (if ref.FunctionRef? then [RefCall(ref.fn, InstanceTarget(instance))] else [])
                               + (if inst.hasDidMount then [ComponentDidMount(instance)] else [])
  {
    if Truthy(ref) && !ref.FunctionRef? then Outcome(w, Err(UnsupportedRefKind))
    else
      var q1 := if Truthy(ref) then w.queue + [RefCall(ref.fn, InstanceTarget(instance))] else w.queue;
      var q2 := if inst.hasDidMount then q1 + [ComponentDidMount(instance)] else q1;
      Outcome(w.(queue := q2), Ok(()))
  }

  /** `mountStatelessComponentCallbacks`: call will-mount now, queue did-mount; never fails. */
  function MountStatelessComponentCallbacks(w: World, ref: Ref, dom: NodeId): (w': World)
    ensures w'.host == w.host.Log(if WillMountHook(ref).Some? then [WillMountCalled(WillMountHook(ref).value)] else [])
    ensures w'.queue == w.queue + (if DidMountHook(ref).Some? then [HookDidMount(DidMountHook(ref).value, dom)] else [])
  {
    if Truthy(ref) then
      var h := if WillMountHook(ref).Some? then w.host.Log([WillMountCalled(WillMountHook(ref).value)]) else w.host;
      var q := if DidMountHook(ref).Some? then w.queue + [HookDidMount(DidMountHook(ref).value, dom)] else w.queue;
      World(h, q)
    else w
  }

  /** `mountRef` for an element: queue `ref(dom)`, ignore an invalid value, reject the rest. */
  function MountRef(w: World, dom: NodeId, value: Ref): (o: Outcome<()>)
    ensures o.world.host == w.host
    ensures o.result.Ok? <==> value.FunctionRef? || IsInvalid(value)
    ensures o.world.queue == w.queue + (if value.FunctionRef? then [RefCall(value.fn, DomTarget(dom))] else [])
  {
    if value.FunctionRef? then Outcome(w.(queue := w.queue + [RefCall(value.fn, DomTarget(dom))]), Ok(()))
    else if IsInvalid(value) then Outcome(w, Ok(()))
    else Outcome(w, Err(UnsupportedRefKind))
  }
}
