/**
 * The collaborators mounting.ts drives: the document (an abstract node table), the prop
 * patcher, the component helpers, the instance-to-node map and user hooks, all behind one
 * `Host` that records every call it receives; and the `Lifecycle` queue of deferred listeners.
 */
module Dom {
  import opened Wrappers
  import opened VNodes

  datatype NodeKind = ElementNode | TextNode | FragmentNode

  /** A concrete node: element tag and namespace, text, and child node ids in order. */
  datatype DomNode = DomNode(kind: NodeKind, tag: string, svg: bool, text: string, children: seq<NodeId>)
  {
    function WithChildren(cs: seq<NodeId>): DomNode
    {
      this.(children := children + cs)
    }
  }

  /** A call the mounting engine makes on its host, in the order made. */
  datatype Effect =
    | CreatedElement(node: NodeId, tag: string, svg: bool)
    | CreatedText(node: NodeId, text: string)
    | CreatedFragment(node: NodeId)
    | Appended(parent: NodeId, child: NodeId)
    | TextContentSet(node: NodeId, text: string)
    | PropPatched(name: string, prev: Value, next: Value, node: NodeId, svg: bool)
    | InstanceCreated(instance: InstanceId, ctype: VType, props: Props, context: Context, svg: bool)
    | InputCreated(ctype: VType, props: Props, context: Context)
    | WillMountCalled(hook: FnId)

  datatype RefTarget = DomTarget(node: NodeId) | InstanceTarget(instance: InstanceId)

  /** A deferred zero-argument closure queued with `lifecycle.addListener`. */
  datatype Listener =
    | RefCall(fn: FnId, target: RefTarget)        // () => ref(dom) or () => ref(instance)
    | ComponentDidMount(instance: InstanceId)      // () => instance.componentDidMount()
    | HookDidMount(hook: FnId, node: NodeId)       // () => ref.onComponentDidMount(dom)

  /** A stateful component instance as `createStatefulComponentInstance` builds it. */
  datatype Instance = Instance(
    ctype: VType, props: Props, context: Context, svg: bool,
    lastInput: VNode, childContext: Context, hasDidMount: bool)

  /** The host's state: node table, instances, `componentToDOMNodeMap`, and its call log. */
  datatype HostState = HostState(
    nodes: seq<DomNode>,
    instances: seq<Instance>,
    componentNodes: map<InstanceId, NodeId>,
    trace: seq<Effect>)
  {
    function AddNode(n: DomNode, e: Effect): HostState
    {
      this.(nodes := nodes + [n], trace := trace + [e])
    }

    function Append(parent: NodeId, child: NodeId): HostState
      requires parent < |nodes|
    {
      this.(nodes := nodes[parent := nodes[parent].WithChildren([child])],
            trace := trace + [Appended(parent, child)])
    }

    function SetText(node: NodeId, text: string): HostState
      requires node < |nodes|
    {
      this.(nodes := nodes[node := nodes[node].(text := text)],
            trace := trace + [TextContentSet(node, text)])
    }

    function Log(es: seq<Effect>): HostState
    {
      this.(trace := trace + es)
    }

    function AddInstance(i: Instance): HostState
    {
      this.(instances := instances + [i],
            trace := trace + [InstanceCreated(|instances|, i.ctype, i.props, i.context, i.svg)])
    }

    /** Instance `i` whose `_lastInput` now is `input`, as mount left it. */
    function WithLastInput(i: InstanceId, input: VNode): HostState
      requires i < |instances|
    {
      this.(instances := instances[i := instances[i].(lastInput := input)])
    }

    function Register(i: InstanceId, dom: NodeId): HostState
    {
      this.(componentNodes := componentNodes[i := dom])
    }
  }

  /** Everything a mount pass can change. */
  datatype World = World(host: HostState, queue: seq<Listener>)

  /** Every child id is a later node than its parent, and exists. */
  predicate Ordered(nodes: seq<DomNode>)
  {
    forall n, k | 0 <= n < |nodes| && 0 <= k < |nodes[n].children| :: n < nodes[n].children[k] < |nodes|
  }

  class Host {
    var nodes: seq<DomNode>
    var instances: seq<Instance>
    var componentNodes: map<InstanceId, NodeId>
    var trace: seq<Effect>

    function State(): HostState
      reads this
    {
      HostState(nodes, instances, componentNodes, trace)
    }

    constructor ()
      ensures State() == HostState([], [], map[], [])
    {
      nodes, instances, componentNodes, trace := [], [], map[], [];
    }

    /** `documentCreateElement(tag, isSVG)`. */
    method CreateElement(tag: string, svg: bool) returns (n: NodeId)
      modifies this
      ensures n == |old(nodes)|
      ensures State() == old(State()).AddNode(DomNode(ElementNode, tag, svg, "", []), CreatedElement(n, tag, svg))
    {
      n := |nodes|;
      nodes := nodes + [DomNode(ElementNode, tag, svg, "", [])];
      trace := trace + [CreatedElement(n, tag, svg)];
    }

    /** `document.createTextNode(text)`. */
    method CreateTextNode(text: string) returns (n: NodeId)
      modifies this
      ensures n == |old(nodes)|
      ensures State() == old(State()).AddNode(DomNode(TextNode, "", false, text, []), CreatedText(n, text))
    {
      n := |nodes|;
      nodes := nodes + [DomNode(TextNode, "", false, text, [])];
      trace := trace + [CreatedText(n, text)];
    }

    /** `document.createDocumentFragment()`. */
    method CreateDocumentFragment() returns (n: NodeId)
      modifies this
      ensures n == |old(nodes)|
      ensures State() == old(State()).AddNode(DomNode(FragmentNode, "", false, "", []), CreatedFragment(n))
    {
      n := |nodes|;
      nodes := nodes + [DomNode(FragmentNode, "", false, "", [])];
      trace := trace + [CreatedFragment(n)];
    }

    /** `appendChild(parent, child)`. */
    method AppendChild(parent: NodeId, child: NodeId)
      requires parent < |nodes|
      modifies this
      ensures State() == old(State()).Append(parent, child)
    {
      nodes := nodes[parent := nodes[parent].WithChildren([child])];
      trace := trace + [Appended(parent, child)];
    }

    /** `setTextContent(node, text)`. */
    method SetTextContent(node: NodeId, text: string)
      requires node < |nodes|
      modifies this
      ensures State() == old(State()).SetText(node, text)
    {
      nodes := nodes[node := nodes[node].(text := text)];
      trace := trace + [TextContentSet(node, text)];
    }

    /** `patchProp(name, prev, next, node, isSVG)`: only the call is recorded. */
    method PatchProp(name: string, prev: Value, next: Value, node: NodeId, svg: bool)
      modifies this
      ensures State() == old(State()).Log([PropPatched(name, prev, next, node, svg)])
    {
      trace := trace + [PropPatched(name, prev, next, node, svg)];
    }

    /**
     * `createStatefulComponentInstance(type, props, context, isSVG)`; what the instance
     * renders is the pre-resolved `rendering`.
     */
    method CreateStatefulComponentInstance(ctype: VType, props: Props, context: Context, svg: bool, rendering: Rendering)
      returns (i: InstanceId)
      modifies this
      ensures i == |old(instances)|
      ensures State() == old(State()).AddInstance(
        Instance(ctype, props, context, svg, rendering.input, rendering.childContext, rendering.hasDidMount))
    {
      i := |instances|;
      trace := trace + [InstanceCreated(i, ctype, props, context, svg)];
      instances := instances + [Instance(ctype, props, context, svg, rendering.input, rendering.childContext, rendering.hasDidMount)];
    }

    /** `createStatelessComponentInput(type, props, context)`; its output is pre-resolved. */
    method CreateStatelessComponentInput(ctype: VType, props: Props, context: Context)
      modifies this
      ensures State() == old(State()).Log([InputCreated(ctype, props, context)])
    {
      trace := trace + [InputCreated(ctype, props, context)];
    }

    /** A synchronous call of a user hook (`ref.onComponentWillMount()`). */
    method CallWillMount(hook: FnId)
      modifies this
      ensures State() == old(State()).Log([WillMountCalled(hook)])
    {
      trace := trace + [WillMountCalled(hook)];
    }

    /**
     * `mount(input, ...)` writes into the VNode object that is the instance's `_lastInput`;
     * the instance then holds the mounted input. Only the instance changes; no call is logged.
     */
    method SetLastInput(i: InstanceId, input: VNode)
      requires i < |instances|
      modifies this
      ensures State() == old(State()).WithLastInput(i, input)
    {
      instances := instances[i := instances[i].(lastInput := input)];
    }

    /** `componentToDOMNodeMap.set(instance, dom)`. */
    method SetComponentNode(i: InstanceId, dom: NodeId)
      modifies this
      ensures State() == old(State()).Register(i, dom)
    {
      componentNodes := componentNodes[i := dom];
    }
  }

  /** The lifecycle collaborator: listeners queued during a mount pass, drained by the caller. */
  class Lifecycle {
    var listeners: seq<Listener>

    constructor ()
      ensures listeners == []
    {
      listeners := [];
    }

    method AddListener(l: Listener)
      modifies this
      ensures listeners == old(listeners) + [l]
    {
      listeners := listeners + [l];
    }
  }

  function Snapshot(h: Host, l: Lifecycle): World
    reads h, l
  {
    World(h.State(), l.listeners)
  }
}
