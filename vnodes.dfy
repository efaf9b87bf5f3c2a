/**
 * The virtual nodes the mounting engine consumes: their kind flags, props, children
 * and refs, and the JavaScript value tests (truthiness, `isNullOrUndef`, `isInvalid`)
 * that mounting.ts applies to them.
 */
module VNodes {
  import opened Wrappers

  type NodeId = nat
  type InstanceId = nat
  /** The identity of a JavaScript function value (a callback ref or a hook). */
  type FnId = nat

  /** A JavaScript value held by a prop. */
  datatype Value = Undefined | Null | Bool(b: bool) | Num(n: int) | Str(s: string) | Obj(id: nat)

  datatype Prop = Prop(name: string, value: Value)

  /** JavaScript objects have no repeated own keys. */
  predicate DistinctNames(ps: seq<Prop>)
  {
    forall a, b | 0 <= a < b < |ps| :: ps[a].name != ps[b].name
  }

  /** A props object: its own keys in insertion order, which is the order `for...in` visits them. */
  type Props = ps: seq<Prop> | DistinctNames(ps)

  /** The context object handed down the tree; the engine never looks inside it. */
  type Context = Props

  predicate HasKey(ps: seq<Prop>, k: string)
  {
    exists j | 0 <= j < |ps| :: ps[j].name == k
  }

  /** `ps[k]`, or None when `k` is not a key of `ps`. */
  function Lookup(ps: seq<Prop>, k: string): (r: Option<Value>)
    ensures r.Some? <==> HasKey(ps, k)
  {
    if ps == [] then None
    else if ps[0].name == k then Some(ps[0].value)
    else
      assert forall j | 1 <= j < |ps| :: ps[j] == ps[1..][j - 1];
      assert HasKey(ps[1..], k) ==> HasKey(ps, k);
      Lookup(ps[1..], k)
  }

  /**
   * `copyPropsTo(defaults, props)` from ./utils, which is not part of this model: it is taken
   * to add, in the defaults' order, every default whose key `props` lacks.
   */
  function CopyPropsTo(from: seq<Prop>, to: Props): (r: Props)
    ensures to <= r && |r| <= |to| + |from|
    decreases |from|
  {
    if from == [] then to
    else CopyPropsTo(from[1..], if HasKey(to, from[0].name) then to else to + [from[0]])
  }

  /** `vNode.props || EMPTY_OBJ`. */
  function PropsOrEmpty(p: Option<Props>): (r: Props)
    ensures p.Some? ==> r == p.value
    ensures p.None? ==> forall k :: !HasKey(r, k)
  {
    if p.Some? then p.value else []
  }

  /** `vNode.type`: a tag name for elements, a component descriptor for components. */
  datatype VType =
    | NoType
    | Tag(name: string)
      /** `defaultProps` is None when undefined; a null `defaultProps` behaves as an empty one. */
    | ComponentType(name: string, defaultProps: Option<Props>)

  /** `type.defaultProps`, None when it is undefined (also for a type that is not a component). */
  function DefaultPropsOf(t: VType): (d: Option<Props>)
    ensures d.Some? ==> t.ComponentType? && t.defaultProps == d
    ensures t.ComponentType? ==> d == t.defaultProps
  {
    if t.ComponentType? then t.defaultProps else None
  }

  /**
   * `vNode.ref`. Null and undefined behave alike on every path, as do a non-empty string
   * and any other truthy primitive; an object may carry the stateless-component hooks.
   */
  datatype Ref =
    | NullRef
    | BoolRef(b: bool)
    | FunctionRef(fn: FnId)
    | StringRef(s: string)
    | ObjectRef(willMount: Option<FnId>, didMount: Option<FnId>)

  /** `isNullOrUndef(ref)`: such a ref is both invalid and falsy. */
  predicate IsNullOrUndef(r: Ref): (b: bool)
    ensures b ==> IsInvalid(r) && !Truthy(r)
  {
    r.NullRef?
  }

  /**
   * `isInvalid(ref)`: null, undefined, true or false. The one invalid ref that is truthy is
   * `true`; the one ref that is neither invalid nor truthy is the empty string.
   */
  predicate IsInvalid(r: Ref): (b: bool)
    ensures b && Truthy(r) <==> r == BoolRef(true)
    ensures !b && !Truthy(r) <==> r == StringRef("")
  {
    r.NullRef? || r.BoolRef?
  }

  /** JavaScript truthiness of `ref` (`if (ref)`): the falsy refs are null, undefined, false and "". */
  predicate Truthy(r: Ref): (b: bool)
    ensures !b <==> r in {NullRef, BoolRef(false), StringRef("")}
  {
    match r
    case NullRef => false
    case BoolRef(b) => b
    case FunctionRef(_) => true
    case StringRef(s) => s != ""
    case ObjectRef(_, _) => true
  }

  /** `ref.onComponentWillMount` when it is neither null nor undefined; only an object ref has hooks. */
  function WillMountHook(r: Ref): (h: Option<FnId>)
    ensures h.Some? <==> r.ObjectRef? && r.willMount.Some?
    ensures h.Some? ==> h == r.willMount
  {
    if r.ObjectRef? then r.willMount else None
  }

  /** `ref.onComponentDidMount` when it is neither null nor undefined; only an object ref has hooks. */
  function DidMountHook(r: Ref): (h: Option<FnId>)
    ensures h.Some? <==> r.ObjectRef? && r.didMount.Some?
    ensures h.Some? ==> h == r.didMount
  {
    if r.ObjectRef? then r.didMount else None
  }

  /**
   * What the component helpers of ./utils yield for a component VNode: the rendered input, the
   * instance's child context and whether `instance.componentDidMount` is not null.
   */
  datatype Rendering = Rendering(input: VNode, childContext: Context, hasDidMount: bool)

  /**
   * `vNode.children`: absent (`null`), a string, a list, one nested VNode, the instance a
   * stateful component stores there once mounted, or a value of any other shape. The
   * instance's `_lastInput` is the very VNode object that mount updates in place, so a
   * mounted component reaches its mounted input through its children: `InstanceOf` carries
   * the instance's id and that input as mount left it.
   */
  datatype Children =
    | NoChildren
    | Text(s: string)
    | Many(kids: seq<VNode>)
    | One(kid: VNode)
    | InstanceOf(instance: InstanceId, input: VNode)
    | Other

  /**
   * A VNode. `dom` is unset before mount. `render` is the output the component helpers
   * produce for it (only read when the flags name a component).
   */
  datatype VNode = VNode(
    flags: int,
    vtype: VType,
    props: Option<Props>,
    children: Children,
    ref: Ref,
    dom: Option<NodeId>,
    render: Option<Rendering>)

  // VNodeFlags. core/shapes.ts is not part of this model: each kind is taken to be its own
  // bit, which is all mount relies on.
  const TextFlag := 1
  const HtmlElement := 2
  const ComponentClass := 4
  const ComponentFunction := 8
  const SvgElement := 16
  const InputElement := 32
  const TextAreaElement := 64
  const FragmentFlag := 128
  const VoidFlag := 256

  /** `flags & bit` is non-zero, for a bit that is a power of two. */
  predicate HasBit(flags: int, bit: nat): (b: bool)
    requires bit > 0
    ensures flags == bit ==> b
    ensures 0 <= flags < bit ==> !b
  {
    (flags / bit) % 2 == 1
  }

  datatype Kind = ElementKind | ComponentKind | VoidKind | FragmentKind | TextKind

  /** The case of `mount`'s switch that `flags` selects; None is its default case. */
  function KindOf(flags: int): (k: Option<Kind>)
    ensures k == Some(ElementKind) <==>
              flags in {HtmlElement, SvgElement, InputElement, TextAreaElement}
    ensures k == Some(ComponentKind) <==> flags in {ComponentClass, ComponentFunction}
    ensures k == Some(VoidKind) <==> flags == VoidFlag
    ensures k == Some(FragmentKind) <==> flags == FragmentFlag
    ensures k == Some(TextKind) <==> flags == TextFlag
  {
    if flags == HtmlElement || flags == SvgElement || flags == InputElement || flags == TextAreaElement then
      Some(ElementKind)
    else if flags == ComponentClass || flags == ComponentFunction then Some(ComponentKind)
    else if flags == VoidFlag then Some(VoidKind)
    else if flags == FragmentFlag then Some(FragmentKind)
    else if flags == TextFlag then Some(TextKind)
    else None
  }

  /**
   * What the source needs of its input without checking it: an element carries a tag
   * name, and a component the output of the helpers that render it and a type they can
   * render: not a tag name, and for a stateless component a component type (a stateful
   * one without a type fails in `mountComponent` itself, which is modelled).
   */
  predicate WellFormed(v: VNode)
    decreases v
  {
    && (KindOf(v.flags) == Some(ElementKind) ==> v.vtype.Tag?)
    && (KindOf(v.flags) == Some(ComponentKind) ==> v.render.Some? && !v.vtype.Tag?)
    && (KindOf(v.flags) == Some(ComponentKind) && !HasBit(v.flags, ComponentClass) ==> v.vtype.ComponentType?)
    && (v.children.Many? ==> forall k | 0 <= k < |v.children.kids| :: WellFormed(v.children.kids[k]))
    && (v.children.One? ==> WellFormed(v.children.kid))
    && (v.render.Some? ==> WellFormed(v.render.value.input))
  }

  /** The text `createTextNode(vNode.children)` receives: the string, or empty for children of any other shape. */
  function TextOf(c: Children): (t: string)
    ensures c.Text? ==> t == c.s
    ensures !c.Text? ==> t == ""
  {
    if c.Text? then c.s else ""
  }
}
