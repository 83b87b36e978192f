/**
 * The node records of the graph editor and the pure helpers of the `App`
 * component: the `nodeOptions` style table, the record built by `createNode`,
 * the lookup `nodes.find(node => node.id === parentId)`, the parent-option
 * filter `ParentOptions`, the prompt normalisation of `passwordRequest` and the
 * permission rule that `hasPermissionToCreateNode` implements.
 */
module Nodes {

  import opened Wrappers

  datatype Position = Position(x: int, y: int)

  /** The `style` entry of a node: width and height are absent for leaf nodes. */
  datatype Style = Style(width: Option<int>, height: Option<int>, zIndex: int)

  /** A node's `data` object: the display label and the container password. */
  datatype NodeData = NodeData(labelText: string, password: Option<string>)

  /**
   * The record appended by `createNode`. `extent` is `Some("parent")` or absent,
   * `parentId` is the selection at creation time (possibly the empty string of
   * the placeholder option), `style` is absent when no option was spread in.
   */
  datatype Node = Node(
    id: string,
    data: NodeData,
    position: Position,
    extent: Option<string>,
    parentId: Option<string>,
    nodeType: string,
    style: Option<Style>)

  /** `initialNodePosition`: every node is created at (100, 100). */
  const InitialPosition: Position := Position(100, 100)

  /** The only extent value the component writes. */
  const ParentExtent: string := "parent"

  /** `nodeOptions.group.style`, `nodeOptions.panel.style`, `nodeOptions.node.style`. */
  const GroupStyle: Style := Style(Some(200), Some(200), 1)
  const PanelStyle: Style := Style(Some(300), Some(300), 0)
  const NodeStyle: Style := Style(None, None, 2)

  /** The node types the four buttons create. */
  const PlainType: string := ""
  const InputType: string := "input"
  const PanelType: string := "default"
  const GroupType: string := "group"

  /** JavaScript truthiness of the optional `parentId` string. */
  predicate Truthy(parentId: Option<string>) {
    parentId.Some? && parentId.value != ""
  }

  /** The types `ParentOptions` offers as parents: `["group", "default"].includes(type)`. */
  predicate IsContainerType(nodeType: string) {
    nodeType == GroupType || nodeType == PanelType
  }

  /** The object literal built by `createNode(type, password, option)`. */
  function MakeNode(id: string, labelText: string, parentId: Option<string>,
                    nodeType: string, password: Option<string>, option: Option<Style>): (n: Node)
  {
    Node(id, NodeData(labelText, password), InitialPosition,
         if Truthy(parentId) then Some(ParentExtent) else None,
         parentId, nodeType, option)
  }

  /** The ids of a node list, in order. */
  function Ids(nodes: seq<Node>): (ids: seq<string>)
    ensures |ids| == |nodes|
    ensures forall i :: 0 <= i < |nodes| ==> ids[i] == nodes[i].id
  {
    if nodes == [] then [] else [nodes[0].id] + Ids(nodes[1..])
  }

  /** The ids of a node list are pairwise distinct. */
  ghost predicate IdsDistinct(nodes: seq<Node>) {
    forall i, j :: 0 <= i < j < |nodes| ==> nodes[i].id != nodes[j].id
  }

  /** `nodes.find((node) => node.id === id)`: the first node carrying `id`. */
  function FindNode(nodes: seq<Node>, id: string): (r: Option<Node>)
    ensures r.None? <==> id !in Ids(nodes)
    ensures r.Some? ==> exists i :: 0 <= i < |nodes| && nodes[i] == r.value && r.value.id == id
                                     && forall j :: 0 <= j < i ==> nodes[j].id != id
  {
    if nodes == [] then None
    else if nodes[0].id == id then Some(nodes[0])
    else
      var r := FindNode(nodes[1..], id);
      assert r.Some? ==> exists i :: 1 <= i < |nodes| && nodes[i] == r.value && r.value.id == id
                                     && forall j :: 0 <= j < i ==> nodes[j].id != id by {
        if r.Some? {
          var k :| 0 <= k < |nodes[1..]| && nodes[1..][k] == r.value && r.value.id == id
                   && forall j :: 0 <= j < k ==> nodes[1..][j].id != id;
          assert nodes[k + 1] == r.value;
          assert forall j :: 1 <= j < k + 1 ==> nodes[j].id == nodes[1..][j - 1].id;
        }
      }
      r
  }

  /**
   * `nodes.map(ParentOptions)` with the `undefined` entries React skips: the
   * nodes of type "group" or "default", in list order.
   */
  function ParentCandidates(nodes: seq<Node>): (r: seq<Node>)
    ensures |r| <= |nodes|
    ensures forall n :: n in r <==> n in nodes && IsContainerType(n.nodeType)
  {
    if nodes == [] then []
    else (if IsContainerType(nodes[0].nodeType) then [nodes[0]] else []) + ParentCandidates(nodes[1..])
  }

  /** The `value`s of the parent `<select>`: the placeholder "" and each candidate's id. */
  function SelectValues(nodes: seq<Node>): (values: seq<string>)
    ensures forall v :: v in values <==>
      v == "" || exists c :: c in nodes && IsContainerType(c.nodeType) && c.id == v
  {
    var cs := ParentCandidates(nodes);
    assert forall v :: v in Ids(cs) <==> exists k :: 0 <= k < |cs| && cs[k].id == v;
    [""] + Ids(cs)
  }

  /**
   * `passwordRequest` applied to the prompt's answer (`None` is a cancelled
   * prompt): an empty or missing answer becomes `None`.
   */
  function PasswordRequest(answer: Option<string>): (r: Option<string>)
    ensures r == None || r == answer
    ensures r.Some? ==> r.value != ""
    ensures answer.Some? && answer.value != "" ==> r == answer
  {
    if answer.None? || answer.value == "" then None else answer
  }

  /**
   * The rule `hasPermissionToCreateNode` decides: without a selected parent
   * creation is allowed; with one, the parent found by id must store a password
   * and the prompt must yield exactly that non-empty password.
   */
  predicate Permitted(nodes: seq<Node>, parentId: Option<string>, answer: Option<string>) {
    !Truthy(parentId) ||
    (match FindNode(nodes, parentId.value)
     case None => false
     case Some(parent) =>
       parent.data.password.Some? && parent.data.password.value != "" && answer == parent.data.password)
  }

  /** The JavaScript values compared with `!==` in `hasPermissionToCreateNode`. */
  datatype Js = Undefined | Null | Str(s: string)

  /** An optional string where absence is `undefined` (a missing node or property). */
  function OrUndefined(v: Option<string>): (js: Js) {
    if v.None? then Undefined else Str(v.value)
  }

  /** An optional string where absence is `null` (what `passwordRequest` returns). */
  function OrNull(v: Option<string>): (js: Js) {
    if v.None? then Null else Str(v.value)
  }
}
