# Mounting engine of inferno-meehawk, in Dafny

This project models the virtual-DOM mounting engine of inferno-meehawk (`src/DOM/mounting.ts`).
`mount` turns a virtual node (VNode) into concrete DOM nodes and dispatches on the VNode's kind
flags: element, stateful or stateless component, void, fragment or text. The engine creates the
nodes, patches each prop, attaches children in order and binds refs. It also defers
user callbacks (callback refs, `componentDidMount`, `onComponentDidMount`) by appending them to
a lifecycle queue. A mount aborts on an unknown kind, on an unsupported ref, and in a fragment whose children are absent or a non-empty string.

The model has three layers.

- `wrappers.dfy`, `vnodes.dfy` and `dom.dfy` hold the data.
  - A VNode is a value: flags, type, props, children, ref, node and the rendered output of a
    component.
  - The document and the engine's collaborators sit behind the class `Dom.Host`. It keeps a node
    table, the component instances, the instance-to-node map (`componentToDOMNodeMap`) and a
    log of every call made on it: element creation, `patchProp`, `appendChild`, the hooks.
  - The lifecycle queue is the class `Dom.Lifecycle`.
- `mount_spec.dfy` (module `MountSpec`) states each function of `mounting.ts` as a pure
  function. It maps the host state and queue before the call to the state after the call and
  a `Result`. The error of a `Result` is the one `throwError` would raise.
- `mounting.dfy` (module `Mounting`) is the imperative engine. It is a set of methods over
  `Host` and `Lifecycle`, with the source's loops over props and children. Each method is
  proved to leave exactly the state, and return exactly the result, that its `MountSpec`
  function gives.
- `properties.dfy` (module `MountProperties`) proves what the engine promises about those
  functions:
  - SVG mode is sticky downward.
  - Mount succeeds exactly on the trees it accepts.
  - Every VNode reached ends up holding a fresh node.
  - Element and fragment nodes hold their children in order.
  - Host calls and queued listeners come in a fixed order.
  - Default props are merged so that explicit props win.

## Model

| member | source | states |
|---|---|---|
| VNodes.KindOf | src/DOM/mounting.ts:38-53 | which case of the switch a flags value selects: exactly the four element flags select elements, the two component flags components, and each of void, fragment and text its own case; all others select none |
| VNodes.HasBit | src/DOM/mounting.ts:43-46 | `flags & bit` for a power of two: the bit's own flag value tests true, and every smaller non-negative flag tests false |
| VNodes.Truthy | src/DOM/mounting.ts:178 | the `if (ref)` test, used again at line 196: a ref is falsy exactly when it is null or undefined, `false` or the empty string |
| VNodes.IsInvalid | src/DOM/mounting.ts:210 | `isInvalid`: null, undefined or a boolean. Among these only `true` is truthy. The only ref that is neither invalid nor truthy is the empty string |
| VNodes.IsNullOrUndef | src/DOM/mounting.ts:90 | `isNullOrUndef(ref)`, also at lines 197 and 200: such a ref is both invalid and falsy |
| VNodes.TextOf | src/DOM/mounting.ts:62 | the text `createTextNode(vNode.children)` receives: the children string, and the empty text for children of any other shape |
| VNodes.PropsOrEmpty | src/DOM/mounting.ts:142 | `vNode.props` or else `EMPTY_OBJ`: the props when there are any, otherwise an object with no key |
| VNodes.DefaultPropsOf | src/DOM/mounting.ts:147 | `type.defaultProps`: defined only for a component type, and then exactly the type's defaults |
| VNodes.CopyPropsTo | src/DOM/mounting.ts:150 | the merge keeps every explicit prop, in its place and order, and adds at most one entry per default |
| VNodes.WellFormed | src/DOM/mounting.ts:82-84 | defines what callers must supply and the source does not check, throughout the tree: an element carries a tag name, a component a rendered output and a type that is not a tag name, and a stateless component a component type (the helpers at lines 153 and 165 need one). A stateful component without a type is accepted: its mount fails at line 147, which is modelled |
| MountSpec.MountedFrom | src/DOM/mounting.ts:64 | defines "mounted from": the output VNode is the input with its node set, and below it every VNode mount reaches is mounted from the one at the same place in the input |
| MountSpec.ComponentMountedFrom | src/DOM/mounting.ts:150-168 | defines it for components: a stateful one gets the merged props (only when defaults exist) and as children the instance together with its last input, which is mounted from the rendered input and holds the component's node; a stateless one gets as only child its input mounted from the rendered input, with the same node |
| MountSpec.Mount | src/DOM/mounting.ts:35-59 | a mount only appends nodes, instances, log entries and queue entries, and every instance that already existed keeps the node it was registered with. On success, its node is the first node it created, the VNode holds it, and no earlier node changed except that the parent gained it as last child through the very last host call. Child links still point forward. The result is mounted from the input at every level (`MountedFrom`). Unknown flags give `InvalidNode` and change nothing |
| MountSpec.MountText | src/DOM/mounting.ts:61-69 | always succeeds. It creates one text node holding the children string and stores it in the VNode, which changes in nothing else. The log is the creation, then the append exactly when a parent is given. The queue is untouched |
| MountSpec.MountVoid | src/DOM/mounting.ts:71-79 | always succeeds. It creates one empty text node and stores it in the VNode, which changes in nothing else. The log is the creation, then the append when a parent is given. The queue is untouched |
| MountSpec.PatchCalls | src/DOM/mounting.ts:93-98 | one `patchProp(name, null, value, dom, isSVG)` call per prop, in key order, with no filtering |
| MountSpec.WithText | src/DOM/mounting.ts:100-101 | `setTextContent` on a string child changes only the node's text, to that string; other children leave the node as it was |
| MountSpec.MountedChildren | src/DOM/mounting.ts:102-108 | the children after an in-place mount: a list becomes the mounted VNodes index by index, one nested VNode the one mounted VNode, any other shape stays as it was |
| MountSpec.Attach | src/DOM/mounting.ts:110-112 | appends the node to the parent's children when a parent is given. Nothing else changes. Child links still point forward |
| MountSpec.MountElement | src/DOM/mounting.ts:81-114 | a mount of an element only adds. On success the element is placed as `Mount` says, its VNode changes only in its node and children, and each child is mounted from the input child at the same place |
| MountSpec.ElementRest | src/DOM/mounting.ts:93-114 | once the element node exists: patching props, mounting children and appending place it as `Mount` says, with each child mounted from the input child at the same place |
| MountSpec.ElementRestOutcome | src/DOM/mounting.ts:93-113 | once the node exists the element mount is the prop patches, then the children, then the append; an error of the children is returned with the state they left, and nothing is appended |
| MountSpec.MountElementChildren | src/DOM/mounting.ts:99-109 | a string child sets the text content. A list mounts one child per entry under the element, and a single VNode mounts one; any other shape mounts nothing. The element gains the children's nodes in order, no other earlier node changes, and each mounted child is mounted from the input child at the same place |
| MountSpec.MountChildren | src/DOM/mounting.ts:103-105 | the children loop from index `i` mounts one child per remaining entry, each under `dom`, the one at position `k` mounted from the input child `i + k`. `dom` gains their nodes in index order |
| MountSpec.MountFragment | src/DOM/mounting.ts:116-128 | a mount of a fragment only adds. On success the fragment is placed as `Mount` says; a list of children is mounted in place index by index, and children of any other shape stay as they were |
| MountSpec.FragmentChildren | src/DOM/mounting.ts:120-122 | the fragment loop over children of every shape: a list mounts one child per entry under the fragment; absent children throw `TypeError`; a non-empty string throws `InvalidNode` and changes nothing; the empty string, one nested VNode and any other shape mount nothing. These are the only errors besides a list child's |
| MountSpec.MountComponent | src/DOM/mounting.ts:130-175 | a mount of a component only adds. A stateful component without a type throws `TypeError` at line 147 and changes nothing. On success the component's node is placed as `Mount` says and the VNode is as `ComponentMountedFrom` says; the order of the calls is in `MountProperties.StatefulShape` and `MountProperties.StatelessShape` |
| MountSpec.MountStateful | src/DOM/mounting.ts:146-163 | the same for the class branch: without a type it throws `TypeError` before anything is created; on success the VNode gets the merged props when defaults exist and as children the instance with its mounted last input, which shares the component's node |
| MountSpec.StatefulMountedFrom | src/DOM/mounting.ts:149-163 | the VNode the class branch builds from a mounted input is mounted from the component, as `ComponentMountedFrom` says |
| MountSpec.StatefulPlaced | src/DOM/mounting.ts:153-162 | the instance creation, the detached mount of the input, the recorded last input, the append and the registration only add, and place the component's node as `Mount` says |
| MountSpec.MountStateless | src/DOM/mounting.ts:164-173 | the same for the function branch: the VNode's one child is its input mounted from the rendered input, sharing its node |
| MountSpec.MountStatefulComponentCallbacks | src/DOM/mounting.ts:177-193 | the host is unchanged. It fails exactly when the ref is truthy and not a function, and then queues nothing. Otherwise it queues `ref(instance)` for a function ref, then `componentDidMount` if the instance has one |
| MountSpec.MountStatelessComponentCallbacks | src/DOM/mounting.ts:195-204 | never fails. It logs the call of `onComponentWillMount` when the ref carries one, and queues `onComponentDidMount(dom)` when it carries that; any other ref changes nothing |
| MountSpec.MountRef | src/DOM/mounting.ts:206-218 | the host is unchanged. It succeeds exactly for a function or an invalid value, and queues `ref(dom)` only for a function |
| Mounting.Mount | src/DOM/mounting.ts:35-59 | the switch over the flags, dispatching to the mounters; leaves host and queue exactly as `MountSpec.Mount` says and returns its result |
| Mounting.MountText | src/DOM/mounting.ts:61-69 | leaves host and queue as `MountSpec.MountText` says, for any queue, and returns the mounted node |
| Mounting.MountVoid | src/DOM/mounting.ts:71-79 | leaves host and queue as `MountSpec.MountVoid` says and returns the mounted node |
| Mounting.MountElement | src/DOM/mounting.ts:81-114 | the straight-line element mount; leaves host and queue as `MountSpec.MountElement` says and returns its result |
| Mounting.PatchProps | src/DOM/mounting.ts:93-98 | the `for...in` loop over the props; the log gains exactly `MountSpec.PatchCalls` |
| Mounting.MountElementChildren | src/DOM/mounting.ts:99-109 | the children branch, as `MountSpec.MountElementChildren` says |
| Mounting.MountChildren | src/DOM/mounting.ts:103-105 | the indexed children loop; its invariant is that what is mounted so far, followed by what the rest of the loop mounts, is what `MountSpec.MountChildren` mounts |
| Mounting.MountFragment | src/DOM/mounting.ts:116-128 | the fragment mount over children of every shape, as `MountSpec.MountFragment` says |
| Mounting.MountComponent | src/DOM/mounting.ts:130-175 | both component paths, as `MountSpec.MountComponent` says |
| Mounting.MountStatefulComponentCallbacks | src/DOM/mounting.ts:177-193 | changes only the queue, as `MountSpec.MountStatefulComponentCallbacks` says |
| Mounting.MountStatelessComponentCallbacks | src/DOM/mounting.ts:195-204 | as `MountSpec.MountStatelessComponentCallbacks` says |
| Mounting.MountRef | src/DOM/mounting.ts:206-218 | changes only the queue, as `MountSpec.MountRef` says, whatever the host |
| Dom.Host.CreateElement | src/DOM/mounting.ts:83 | adds one element node with the tag and namespace and logs its creation; returns the new node's id |
| Dom.Host.CreateTextNode | src/DOM/mounting.ts:62 | adds one text node and logs its creation |
| Dom.Host.CreateDocumentFragment | src/DOM/mounting.ts:118 | adds one empty fragment node and logs its creation |
| Dom.Host.AppendChild | src/DOM/mounting.ts:66 | the parent gains the child as last child; logged |
| Dom.Host.SetTextContent | src/DOM/mounting.ts:101 | the node's text becomes the string; logged |
| Dom.Host.PatchProp | src/DOM/mounting.ts:96 | logs the `patchProp` call only |
| Dom.Host.CreateStatefulComponentInstance | src/DOM/mounting.ts:153 | adds one instance with the given type, props, context, namespace and rendering, logs it, and returns its id |
| Dom.Host.CreateStatelessComponentInput | src/DOM/mounting.ts:165 | logs the call with type, props and context |
| Dom.Host.CallWillMount | src/DOM/mounting.ts:198 | logs the synchronous call of the will-mount hook |
| VNodes.WillMountHook | src/DOM/mounting.ts:197-199 | the will-mount hook is present exactly when the ref is an object whose `onComponentWillMount` is set, and is that function |
| VNodes.DidMountHook | src/DOM/mounting.ts:200-202 | the did-mount hook is present exactly when the ref is an object whose `onComponentDidMount` is set, and is that function |
| Dom.Host.SetComponentNode | src/DOM/mounting.ts:162 | the instance-to-node map gains `instance -> dom`; nothing else changes |
| Dom.Host.SetLastInput | src/DOM/mounting.ts:154-157 | the mount at line 157 writes into the object the instance holds as `_lastInput`: that instance's last input becomes the mounted input; nothing else changes and nothing is logged |
| Dom.Lifecycle.AddListener | src/DOM/mounting.ts:180 | appends one listener to the queue |
| MountProperties.SvgStickyMount | src/DOM/mounting.ts:43 | mounting in SVG mode, or mounting an SVG element, makes every element creation, prop patch and instance creation of the whole subtree in SVG mode |
| MountProperties.SvgStickyElement | src/DOM/mounting.ts:81-114 | the same for an element mounted in SVG mode |
| MountProperties.SvgStickyRest | src/DOM/mounting.ts:93-112 | the same for the props, children and append of an SVG element |
| MountProperties.SvgStickyElementChildren | src/DOM/mounting.ts:99-109 | the same for an element's children, which receive `isSVG` unchanged |
| MountProperties.SvgStickyChildren | src/DOM/mounting.ts:103-105 | the same for each child of the loop |
| MountProperties.SvgStickyFragment | src/DOM/mounting.ts:120-122 | the same for a fragment's children, whatever their shape |
| MountProperties.SvgStickyComponent | src/DOM/mounting.ts:153-167 | the same for a component's rendered input |
| MountProperties.SvgStickyStateful | src/DOM/mounting.ts:153-157 | the instance is created in SVG mode and its input is mounted in SVG mode |
| MountProperties.SvgStickyStateless | src/DOM/mounting.ts:165-171 | the stateless input is mounted in SVG mode |
| MountProperties.MountOkIff | src/DOM/mounting.ts:35-59 | `mount` returns normally if and only if the tree is `Mountable`. That means every flag is known, every element ref is a function or invalid, every stateful component has a type and a ref that is a function or falsy, and no fragment's children are absent or a non-empty string |
| MountProperties.ElementOkIff | src/DOM/mounting.ts:90-109 | an element mounts if and only if its ref is a function or invalid and its children mount |
| MountProperties.ElementChildrenOkIff | src/DOM/mounting.ts:99-109 | an element's children mount if and only if each VNode among them is mountable |
| MountProperties.ChildrenOkIff | src/DOM/mounting.ts:103-105 | the loop from `i` succeeds if and only if every child from `i` on is mountable |
| MountProperties.FragmentOkIff | src/DOM/mounting.ts:116-122 | a fragment mounts if and only if its children are a list of mountable VNodes, the empty string, or a shape without a length; absent children and a non-empty string fail |
| MountProperties.ComponentOkIff | src/DOM/mounting.ts:147-169 | a component mounts if and only if its input does and, when it is stateful, it has a type and its ref is a function or falsy. A stateless ref is never an error |
| MountProperties.MountedTreeMount | src/DOM/mounting.ts:64 | after a successful mount, the result is mounted from the input at every level, and every VNode of it reached through children holds a node created by this mount. A stateless component shares its input's node, and a stateful one holds its instance and, through it, its mounted input, which shares its node |
| MountProperties.RealisedMount | src/DOM/mounting.ts:35-175 | after a successful mount, every node of the subtree holds the content of the VNode mounted into it: a text node its string, a void an empty text node, an element its tag and string child, a fragment a fragment node. The child list of an element or fragment is exactly the nodes of its children, in order, each realised in turn, and a component is realised by its rendered input: a stateless one through its child, a stateful one through its instance's last input |
| MountProperties.RealisedFrame | src/DOM/mounting.ts:103-112 | a realised VNode stays realised when no node in the range of its tree changes. This is why a later sibling's mount, or the append of the parent, leaves the earlier children realised |
| MountProperties.RealisedAttached | src/DOM/mounting.ts:110-112 | appending to a parent below a subtree's range leaves every VNode of that subtree realised |
| MountProperties.RealisedElement | src/DOM/mounting.ts:81-114 | `mountElement` realises the element it returns |
| MountProperties.RealisedElementNode | src/DOM/mounting.ts:86-109 | an element node built as `ElementBuilt` says, with realised children, realises the element |
| MountProperties.RealisedElementChildren | src/DOM/mounting.ts:99-109 | each child that `mountElement` mounts is realised in the table the children branch leaves |
| MountProperties.RealisedChildren | src/DOM/mounting.ts:103-105 | each child of the children loop is realised once the loop is done: a later sibling's mount changes no node of an earlier sibling's tree |
| MountProperties.RealisedFragment | src/DOM/mounting.ts:116-128 | `mountFragment` realises the fragment it returns |
| MountProperties.RealisedFragmentNode | src/DOM/mounting.ts:118-123 | a fragment node built as `FragmentBuilt` says realises the fragment, with an empty child list for children that are not a list |
| MountProperties.RealisedStateless | src/DOM/mounting.ts:166-172 | a stateless component is realised by its rendered input, which neither the hooks nor the append change |
| MountProperties.RealisedStateful | src/DOM/mounting.ts:153-163 | a stateful component is realised by its rendered input, held as the instance's last input, which neither the callbacks, the registration nor the append change |
| MountProperties.RealisedInstanceInput | src/DOM/mounting.ts:157-163 | a realised input, appended to a parent outside its tree, realises the component whose instance holds it and whose node is the input's |
| MountProperties.ElementKids | src/DOM/mounting.ts:99-109 | each child an element mounts is realised and its tree lies in the nodes the children created |
| MountProperties.FragmentKids | src/DOM/mounting.ts:119-122 | each child a fragment's list mounts is realised in the table the fragment's append leaves |
| MountProperties.FragmentFromChildren | src/DOM/mounting.ts:118-127 | the fragment node holds its children's nodes in order, each realised, and is unchanged by its append; children that are not a list leave the node empty and the log and queue untouched |
| MountProperties.ChildrenAttached | src/DOM/mounting.ts:119-127 | each child of a fragment's children loop is realised in the table the fragment's append leaves |
| MountProperties.MountedTreeElement | src/DOM/mounting.ts:89 | the same for an element, whose VNode changes only in its node and children |
| MountProperties.MountedTreeRest | src/DOM/mounting.ts:99-113 | the same once an element's node exists |
| MountProperties.MountedTreeElementChildren | src/DOM/mounting.ts:99-109 | each mounted child of an element is mounted from the input child at the same place and holds a node created by mounting it |
| MountProperties.MountedTreeChildren | src/DOM/mounting.ts:103-105 | the same for each child of the loop: the one at position `j` comes from input child `i + j` |
| MountProperties.MountedTreeFragment | src/DOM/mounting.ts:116-128 | the same for a fragment: a list is mounted in place, any other children stay as they were |
| MountProperties.MountedTreeComponent | src/DOM/mounting.ts:157-168 | the same for a component, whose VNode is as `ComponentMountedFrom` says |
| MountProperties.MountedTreeStateful | src/DOM/mounting.ts:153-163 | the same for a stateful component: its instance's last input lies in the nodes its mount created and shares the component's node |
| MountProperties.RootLinks | src/DOM/mounting.ts:65-67 | the node a mount returns is the last child of the given parent and a child of no other node. Without a parent it is detached |
| MountProperties.ElementShape | src/DOM/mounting.ts:81-114 | a mounted element's node has the tag, the namespace (SVG for an SVG element) and the string child as text. It holds, at each index, the node of the child mounted from the input child at that index, and that node and its whole subtree hold that child's content (`Realised`), down through stateful components to their instances' mounted inputs. The VNode changes only in its node and children. The creation and every prop patch come before any child's call, and the ref is queued before any descendant's listener. A string child makes the log exactly create, patches, text, append, and the queue exactly the ref's listener |
| MountProperties.ElementBuiltByMountElement | src/DOM/mounting.ts:81-114 | the same, stated for `mountElement` with its `isSVG` |
| MountProperties.ElementRestShape | src/DOM/mounting.ts:93-113 | the same once the node exists and the ref is bound |
| MountProperties.ElementRestNode | src/DOM/mounting.ts:99-109 | the node and VNode half of it |
| MountProperties.ElementNodeFromChildren | src/DOM/mounting.ts:99-112 | the element node holds the mounted children's nodes in order, each child mounted from the input child at its place and realised; neither it nor the children's subtrees is changed by the append to its parent |
| MountProperties.ElementRestLog | src/DOM/mounting.ts:93-113 | the call log and queue half of it |
| MountProperties.ElementRefRejected | src/DOM/mounting.ts:206-218 | an element ref that is neither a function nor invalid throws `UnsupportedRefKind` right after the node is created. No prop is patched, no child mounted, nothing appended or queued |
| MountProperties.FragmentShape | src/DOM/mounting.ts:116-128 | a mounted fragment's node is a fragment holding, at each index, the node of the child mounted from the input child at that index, and that node and its whole subtree hold that child's content (`Realised`), down through stateful components to their instances' mounted inputs. It is created before any child, and the VNode changes only in its node and children. Children that are not a list mount nothing: the log is exactly the creation and the append, and nothing is queued |
| MountProperties.FragmentBuiltByMountFragment | src/DOM/mounting.ts:116-128 | the same, stated for `mountFragment` |
| MountProperties.FragmentChildrenRejected | src/DOM/mounting.ts:117-122 | absent fragment children throw `TypeError` and a non-empty string throws `InvalidNode`; either way only the fragment node was created, detached, and nothing was queued |
| MountProperties.CopyPropsToLookup | src/DOM/mounting.ts:150 | after the merge a key of the explicit props keeps its value; any other key takes the default |
| MountProperties.CopyPropsToExamples | src/DOM/mounting.ts:147-152 | `{a: 1}` merged into `{b: 2}` gives `{b: 2, a: 1}`. Merged into `{a: 9, b: 2}` it changes nothing |
| MountProperties.MergedProps | src/DOM/mounting.ts:147-153 | the props a stateful instance receives: explicit props first and winning, defaults for missing keys |
| MountProperties.StatefulShape | src/DOM/mounting.ts:141-163 | a mounted stateful component: `vNode.props` is replaced by the merged props only when defaults are defined. One fresh instance is logged with the merged props, the caller's context and the namespace. Its rendered input is mounted detached with the instance's child context, and the log and queue are exactly that mount's, then the append, then the instance's own `ref(instance)` and `componentDidMount`. The component's node is the input's node, registered for the instance. The instance becomes the VNode's children and holds the mounted input as its last input, in the VNode and in the instance table alike |
| MountProperties.StatefulBuiltByMountStateful | src/DOM/mounting.ts:141-163 | the same, stated for the class branch of `mountComponent` |
| MountProperties.StatefulInstanceByMountStateful | src/DOM/mounting.ts:147-163 | the VNode and instance half of it: merged props, the instance with its mounted last input as children, the instance record and the instance-to-node entry |
| MountProperties.StatefulCallsByMountStateful | src/DOM/mounting.ts:153-161 | the call half of it: the input is mounted with the instance's child context; the log is that mount's then the append; the queue is that mount's then the instance's listeners |
| MountProperties.StatefulTrace | src/DOM/mounting.ts:157-160 | the class branch's log is exactly that of its input's mount, then the append when the mount succeeded |
| MountProperties.StatefulRefRejected | src/DOM/mounting.ts:145-165 | a truthy non-function ref on a stateful component with a type and a mountable input throws `UnsupportedRefKind` after the node is already appended to the parent (no rollback). The instance was created and holds the mounted input, but is not registered: the instance-to-node map is exactly the one its input's mount left |
| MountProperties.StatelessShape | src/DOM/mounting.ts:164-173 | a mounted stateless component: its rendered input is mounted detached with the caller's context right after the input is computed, and that mount's result is the component's one child, sharing its node. The log is exactly that mount's, then the will-mount call, then the append; the queue is that mount's, then the did-mount hook |
| MountProperties.StatelessBuiltByMountStateless | src/DOM/mounting.ts:164-173 | the same, stated for the function branch of `mountComponent` |

## Left out

- The real DOM is an abstract node table. Appending a document fragment does not move its children into the parent; the fragment stays an ordinary container node.
- A mount that throws returns no VNode, so every in-place write made in its subtree before the throw is lost in the model: the `vNode.dom` writes at lines 64, 74, 89, 123, 157 and 167, the `vNode.props` write at line 151 and the `vNode.children` writes at lines 163 and 168. The nodes, instances, log and queue it left behind are modelled.
- `children.length` on absent fragment children (line 120) throws a JavaScript `TypeError`; it is modelled as the error `TypeError`. A children value of another shape (`Other`) is taken to have no `length`, so a fragment with it mounts nothing.
- VNodes are values, not objects. The in-place writes of `vNode.dom`, `vNode.props` and `vNode.children` are modelled by the updated VNode that each mount returns (`Mounted`).
  - Object identity and aliasing are not captured: a VNode reachable twice, and the `instance._vNode = vNode` back link (line 156).
  - The instance's `_lastInput` is the VNode object its input's mount writes into. The model copies the mounted input into the instance record and into `InstanceOf`; the two copies are equal but not one object.
- `vNode.props || EMPTY_OBJ` gives values, not the shared empty object. The aliasing that would arise if `copyPropsTo` wrote into `EMPTY_OBJ` (lines 142 and 150) is not modelled.
- The parent is an `Option`. The source tests it by truthiness in `mountText`, `mountVoid` and `mountFragment`, and by `isNull` in `mountElement` and `mountComponent`. An `undefined` parent, which only the second test lets through and which would crash `appendChild`, is not modelled.
- A children list is `seq<VNode>`, which cannot hold `null` or `undefined`. Such an entry makes the source throw a `TypeError` when `mount` reads its `.flags` (line 104 or line 121, through line 36); that case is not modelled.
- `document.createTextNode(vNode.children)` for children that are not a string (a number, say) is modelled as the empty text.
- Number refs are not a separate case; a string ref stands for any truthy or falsy primitive ref alike.
- Props are an ordered list of distinct keys, visited in that order. JavaScript's rule that integer-like keys are visited first, and inherited enumerable keys, are not modelled.
- `patchProp`, `createStatefulComponentInstance` and `createStatelessComponentInput`, from ./patching and ./utils, are not part of this model. Their calls are logged. A component's rendered input, its child context and whether it has `componentDidMount` are given in the VNode (`render`).
- `copyPropsTo` from ./utils is not part of this model. It is taken to append, in order, every default whose key the props lack.
- `VNodes.KindOf`: core/shapes.ts is not part of this model. The flag values are taken to be distinct powers of two. `flags & SvgElement` and `flags & ComponentClass` are read as bit tests on those values.
- `VNodes.WellFormed` is required of every input: an element carries a tag name, a component a rendered output and a type that is not a tag name, and a stateless component a component type. On other inputs the source fails inside code that is not part of this model. Fragment children of every shape are modelled.
- The dev-mode error messages and `devToolsStatus` are left out. An error is only its kind.
- The commented-out recycling and select-value code is left out.
- Draining the lifecycle queue and running the queued closures is the caller's job and is left out. The queue only records what is to be called.
- `Mounting.MountStatefulComponentCallbacks`: `instance.componentDidMount` is read from the instance value created just before. A `componentDidMount` assigned by user code during the subtree's mount is not modelled.
