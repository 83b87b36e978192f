/**
 * The session state of the `App` component as a value, the effect of each user
 * intent on it (the four buttons, the label input and the parent `<select>`),
 * sequences of intents, and the invariants every reachable session keeps.
 */
module Session {

  import opened Wrappers
  import opened Nodes

  /** The three pieces of component state: `nodes`, `label` and `parentId`. */
  datatype SessionState = SessionState(nodes: seq<Node>, labelText: string, parentId: Option<string>)

  /**
   * One user intent. A button press carries the prompt's answer (consulted only
   * when the handler prompts) and the id `uuidv4` would produce.
   */
  datatype Action =
    | EditLabel(text: string)
    | ChooseParent(value: string)
    | PressNode(answer: Option<string>, freshId: string)
    | PressInput(answer: Option<string>, freshId: string)
    | PressPanel(answer: Option<string>, freshId: string)
    | PressGroup(answer: Option<string>, freshId: string)

  /** `useState("")`, `useState()` and `useNodesState([])`. */
  function Initial(): (s: SessionState) {
    SessionState([], "", None)
  }

  /** `createNode(type, password, option)` applied to a session. */
  function Create(s: SessionState, id: string, nodeType: string,
                  password: Option<string>, option: Option<Style>): (s2: SessionState)
  {
    s.(nodes := s.nodes + [MakeNode(id, s.labelText, s.parentId, nodeType, password, option)])
  }

  /** The effect of one intent: the handlers of the label input, the select and the buttons. */
  function Step(s: SessionState, a: Action): (s2: SessionState) {
    match a
    case EditLabel(text) => s.(labelText := text)
    case ChooseParent(value) => s.(parentId := Some(value))
    case PressNode(answer, id) =>
      if Permitted(s.nodes, s.parentId, answer) then Create(s, id, PlainType, None, Some(NodeStyle)) else s
    case PressInput(answer, id) =>
      if Permitted(s.nodes, s.parentId, answer) then Create(s, id, InputType, None, None) else s
    case PressPanel(answer, id) =>
      var password := PasswordRequest(answer);
      if password.Some? then Create(s, id, PanelType, password, Some(PanelStyle)) else s
    case PressGroup(answer, id) =>
      var password := PasswordRequest(answer);
      if password.Some? then Create(s, id, GroupType, password, Some(GroupStyle)) else s
  }

  /** The session after a sequence of intents. */
  function Run(s: SessionState, trace: seq<Action>): (s2: SessionState)
    decreases |trace|
  {
    if trace == [] then s else Run(Step(s, trace[0]), trace[1..])
  }

  /**
   * What the environment guarantees about an intent: `uuidv4` yields a
   * non-empty id no node has, and the `<select>` only reports one of its
   * option values.
   */
  predicate ValidAction(s: SessionState, a: Action) {
    match a
    case EditLabel(_) => true
    case ChooseParent(value) => value in SelectValues(s.nodes)
    case PressNode(_, id) => id != "" && id !in Ids(s.nodes)
    case PressInput(_, id) => id != "" && id !in Ids(s.nodes)
    case PressPanel(_, id) => id != "" && id !in Ids(s.nodes)
    case PressGroup(_, id) => id != "" && id !in Ids(s.nodes)
  }

  predicate ValidTrace(s: SessionState, trace: seq<Action>)
    decreases |trace|
  {
    trace == [] || (ValidAction(s, trace[0]) && ValidTrace(Step(s, trace[0]), trace[1..]))
  }

  /** A node stores a non-empty password. */
  predicate Protected(n: Node) {
    n.data.password.Some? && n.data.password.value != ""
  }

  /**
   * The shapes the four buttons produce: type, password and style agree with
   * the button, the position is the initial one and the extent is "parent"
   * exactly when the recorded parent id is truthy.
   */
  predicate NodeWellFormed(n: Node) {
    n.position == InitialPosition &&
    n.extent == (if Truthy(n.parentId) then Some(ParentExtent) else None) &&
    ((n.nodeType == PlainType && n.data.password == None && n.style == Some(NodeStyle)) ||
     (n.nodeType == InputType && n.data.password == None && n.style == None) ||
     (n.nodeType == PanelType && Protected(n) && n.style == Some(PanelStyle)) ||
     (n.nodeType == GroupType && Protected(n) && n.style == Some(GroupStyle)))
  }

  ghost predicate NodesWellFormed(nodes: seq<Node>) {
    forall n :: n in nodes ==> NodeWellFormed(n)
  }

  /** Every node with a truthy parent id names a container that comes before it. */
  ghost predicate ParentsPrecede(nodes: seq<Node>) {
    forall i :: 0 <= i < |nodes| && Truthy(nodes[i].parentId) ==>
      exists j :: 0 <= j < i && nodes[j].id == nodes[i].parentId.value && IsContainerType(nodes[j].nodeType)
  }

  /** A truthy selection names a container of the list. */
  ghost predicate SelectionResolves(s: SessionState) {
    Truthy(s.parentId) ==>
      exists c :: c in s.nodes && IsContainerType(c.nodeType) && c.id == s.parentId.value
  }

  ghost predicate SessionInvariant(s: SessionState) {
    NodesWellFormed(s.nodes) &&
    IdsDistinct(s.nodes) &&
    (forall n :: n in s.nodes ==> n.id != "") &&
    ParentsPrecede(s.nodes) &&
    SelectionResolves(s)
  }

  /**
   * `s2` is `s` with exactly one node appended, carrying the given id, type,
   * password and style, the current label, the initial position, the selected
   * parent id, and extent "parent" exactly when that id is truthy.
   */
  ghost predicate AppendedOne(s: SessionState, s2: SessionState, id: string, nodeType: string,
                              password: Option<string>, style: Option<Style>)
  {
    s2.labelText == s.labelText && s2.parentId == s.parentId &&
    |s2.nodes| == |s.nodes| + 1 && s2.nodes[..|s.nodes|] == s.nodes &&
    var n := s2.nodes[|s.nodes|];
    n.id == id && n.data.labelText == s.labelText && n.data.password == password &&
    n.position == Position(100, 100) &&
    (n.extent == Some("parent") <==> Truthy(s.parentId)) &&
    n.parentId == s.parentId && n.nodeType == nodeType && n.style == style
  }

  // ----- lookups -----

  /** With distinct ids, looking a node's id up finds that node. */
  lemma FindDistinct(nodes: seq<Node>, c: Node)
    requires IdsDistinct(nodes) && c in nodes
    ensures FindNode(nodes, c.id) == Some(c)
  {
    var k :| 0 <= k < |nodes| && nodes[k] == c;
    assert Ids(nodes)[k] == c.id;
    var r := FindNode(nodes, c.id);
    var i :| 0 <= i < |nodes| && nodes[i] == r.value && r.value.id == c.id
             && forall j :: 0 <= j < i ==> nodes[j].id != c.id;
    assert !(k < i) && !(i < k);
  }

  /** Appending a node does not change which node an id already present finds. */
  lemma {:induction false} FindAfterAppend(nodes: seq<Node>, x: Node, id: string)
    requires id in Ids(nodes)
    ensures FindNode(nodes + [x], id) == FindNode(nodes, id)
  {
    if nodes[0].id != id {
      assert (nodes + [x])[1..] == nodes[1..] + [x];
      assert id in Ids(nodes[1..]) by {
        var k :| 0 <= k < |nodes| && Ids(nodes)[k] == id;
        assert k > 0 && Ids(nodes[1..])[k - 1] == id;
      }
      FindAfterAppend(nodes[1..], x, id);
    }
  }

  /** Parent candidates of a concatenation are the candidates of each part, in order. */
  lemma {:induction false} CandidatesOfConcat(a: seq<Node>, b: seq<Node>)
    ensures ParentCandidates(a + b) == ParentCandidates(a) + ParentCandidates(b)
  {
    if a == [] {
      assert a + b == b;
    } else {
      assert (a + b)[0] == a[0];
      assert (a + b)[1..] == a[1..] + b;
      CandidatesOfConcat(a[1..], b);
    }
  }

  // ----- the effect of each button -----

  lemma CreateAppends(s: SessionState, id: string, nodeType: string,
                      password: Option<string>, option: Option<Style>)
    ensures AppendedOne(s, Create(s, id, nodeType, password, option), id, nodeType, password, option)
  {
    assert Create(s, id, nodeType, password, option).nodes[..|s.nodes|] == s.nodes;
  }

  /** Node: denied leaves the session alone; granted appends a plain node with z-index 2 and no password. */
  lemma NodeButtonEffect(s: SessionState, answer: Option<string>, id: string)
    ensures !Permitted(s.nodes, s.parentId, answer) ==> Step(s, PressNode(answer, id)) == s
    ensures Permitted(s.nodes, s.parentId, answer) ==>
      AppendedOne(s, Step(s, PressNode(answer, id)), id, "", None, Some(Style(None, None, 2)))
  {
    CreateAppends(s, id, PlainType, None, Some(NodeStyle));
  }

  /** Input: denied leaves the session alone; granted appends an "input" node with no password and no style. */
  lemma InputButtonEffect(s: SessionState, answer: Option<string>, id: string)
    ensures !Permitted(s.nodes, s.parentId, answer) ==> Step(s, PressInput(answer, id)) == s
    ensures Permitted(s.nodes, s.parentId, answer) ==>
      AppendedOne(s, Step(s, PressInput(answer, id)), id, "input", None, None)
  {
    CreateAppends(s, id, InputType, None, None);
  }

  /**
   * Panel: a missing or empty answer leaves the session alone; any other answer
   * appends a 300x300 "default" node at z-index 0 storing that answer, whatever
   * the selected parent's password is.
   */
  lemma PanelButtonEffect(s: SessionState, answer: Option<string>, id: string)
    ensures (answer.None? || answer.value == "") ==> Step(s, PressPanel(answer, id)) == s
    ensures answer.Some? && answer.value != "" ==>
      AppendedOne(s, Step(s, PressPanel(answer, id)), id, "default", answer, Some(Style(Some(300), Some(300), 0)))
  {
    CreateAppends(s, id, PanelType, answer, Some(PanelStyle));
  }

  /**
   * Group: a missing or empty answer leaves the session alone; any other answer
   * appends a 200x200 "group" node at z-index 1 storing that answer, whatever
   * the selected parent's password is.
   */
  lemma GroupButtonEffect(s: SessionState, answer: Option<string>, id: string)
    ensures (answer.None? || answer.value == "") ==> Step(s, PressGroup(answer, id)) == s
    ensures answer.Some? && answer.value != "" ==>
      AppendedOne(s, Step(s, PressGroup(answer, id)), id, "group", answer, Some(Style(Some(200), Some(200), 1)))
  {
    CreateAppends(s, id, GroupType, answer, Some(GroupStyle));
  }

  // ----- append-only history -----

  /** No intent removes or changes a node; at most one node is appended. */
  lemma StepAppendOnly(s: SessionState, a: Action)
    ensures s.nodes <= Step(s, a).nodes
    ensures |Step(s, a).nodes| <= |s.nodes| + 1
  {
  }

  /** Along any sequence of intents the earlier node list stays a prefix, growing by at most one per intent. */
  lemma {:induction false} RunAppendOnly(s: SessionState, trace: seq<Action>)
    ensures s.nodes <= Run(s, trace).nodes
    ensures |Run(s, trace).nodes| <= |s.nodes| + |trace|
    decreases |trace|
  {
    if trace != [] {
      StepAppendOnly(s, trace[0]);
      RunAppendOnly(Step(s, trace[0]), trace[1..]);
    }
  }

  // ----- invariants -----

  lemma StepKeepsWellFormed(s: SessionState, a: Action)
    requires NodesWellFormed(s.nodes)
    ensures NodesWellFormed(Step(s, a).nodes)
  {
  }

  lemma {:induction false} RunKeepsWellFormed(s: SessionState, trace: seq<Action>)
    requires NodesWellFormed(s.nodes)
    ensures NodesWellFormed(Run(s, trace).nodes)
    decreases |trace|
  {
    if trace != [] {
      StepKeepsWellFormed(s, trace[0]);
      RunKeepsWellFormed(Step(s, trace[0]), trace[1..]);
    }
  }

  /** In a well-formed list a node stores a password exactly when it is a container, and then a non-empty one. */
  lemma WellFormedPasswords(nodes: seq<Node>)
    requires NodesWellFormed(nodes)
    ensures forall n :: n in nodes ==> (n.data.password.Some? <==> IsContainerType(n.nodeType))
    ensures forall c :: c in ParentCandidates(nodes) ==> Protected(c)
  {
  }

  /**
   * Whatever the order of intents, prompt answers and ids, every node offered
   * as a parent stores a non-empty password, and exactly the "group" and
   * "default" nodes store one.
   */
  lemma {:induction false} CandidatesAlwaysProtected(trace: seq<Action>)
    ensures forall c :: c in ParentCandidates(Run(Initial(), trace).nodes) ==> Protected(c)
    ensures forall n :: n in Run(Initial(), trace).nodes ==>
      (n.data.password.Some? <==> IsContainerType(n.nodeType))
  {
    RunKeepsWellFormed(Initial(), trace);
    WellFormedPasswords(Run(Initial(), trace).nodes);
  }

  lemma CreateKeepsInvariant(s: SessionState, id: string, nodeType: string,
                             password: Option<string>, option: Option<Style>)
    requires SessionInvariant(s)
    requires id != "" && id !in Ids(s.nodes)
    requires NodeWellFormed(MakeNode(id, s.labelText, s.parentId, nodeType, password, option))
    ensures SessionInvariant(Create(s, id, nodeType, password, option))
  {
    var x := MakeNode(id, s.labelText, s.parentId, nodeType, password, option);
    var s2 := Create(s, id, nodeType, password, option);
    var n := |s.nodes|;
    assert s2.nodes == s.nodes + [x];
    assert forall i :: 0 <= i < n ==> s2.nodes[i] == s.nodes[i];
    forall i | 0 <= i < n
      ensures s.nodes[i].id != id
    {
      assert Ids(s.nodes)[i] == s.nodes[i].id;
    }
    forall i | 0 <= i < |s2.nodes| && Truthy(s2.nodes[i].parentId)
      ensures exists j :: 0 <= j < i && s2.nodes[j].id == s2.nodes[i].parentId.value
                          && IsContainerType(s2.nodes[j].nodeType)
    {
      if i == n {
        var c :| c in s.nodes && IsContainerType(c.nodeType) && c.id == s.parentId.value;
        var j :| 0 <= j < n && s.nodes[j] == c;
        assert s2.nodes[j] == c;
      } else {
        var j :| 0 <= j < i && s.nodes[j].id == s.nodes[i].parentId.value && IsContainerType(s.nodes[j].nodeType);
        assert s2.nodes[j] == s.nodes[j];
      }
    }
  }

  lemma StepKeepsInvariant(s: SessionState, a: Action)
    requires SessionInvariant(s) && ValidAction(s, a)
    ensures SessionInvariant(Step(s, a))
  {
    match a
    case EditLabel(_) =>
    case ChooseParent(value) =>
      assert value in SelectValues(s.nodes);
    case PressNode(answer, id) =>
      if Permitted(s.nodes, s.parentId, answer) { CreateKeepsInvariant(s, id, PlainType, None, Some(NodeStyle)); }
    case PressInput(answer, id) =>
      if Permitted(s.nodes, s.parentId, answer) { CreateKeepsInvariant(s, id, InputType, None, None); }
    case PressPanel(answer, id) =>
      var password := PasswordRequest(answer);
      if password.Some? { CreateKeepsInvariant(s, id, PanelType, password, Some(PanelStyle)); }
    case PressGroup(answer, id) =>
      var password := PasswordRequest(answer);
      if password.Some? { CreateKeepsInvariant(s, id, GroupType, password, Some(GroupStyle)); }
  }

  lemma {:induction false} RunKeepsInvariant(s: SessionState, trace: seq<Action>)
    requires SessionInvariant(s) && ValidTrace(s, trace)
    ensures SessionInvariant(Run(s, trace))
    decreases |trace|
  {
    if trace != [] {
      StepKeepsInvariant(s, trace[0]);
      RunKeepsInvariant(Step(s, trace[0]), trace[1..]);
    }
  }

  /**
   * Every session reached by intents the environment can produce keeps the
   * invariant: well-formed nodes with distinct non-empty ids, parents that
   * precede their children, and a selection that names a container.
   */
  lemma ReachableInvariant(trace: seq<Action>)
    requires ValidTrace(Initial(), trace)
    ensures SessionInvariant(Run(Initial(), trace))
  {
    RunKeepsInvariant(Initial(), trace);
  }

  // ----- the password gate in reachable sessions -----

  /**
   * In a reachable session with a parent selected, the parent is found, is a
   * container with a non-empty password, and Node/Input creation is permitted
   * exactly when the prompt yields that password.
   */
  lemma SelectedParentGate(s: SessionState, answer: Option<string>)
    requires SessionInvariant(s) && Truthy(s.parentId)
    ensures FindNode(s.nodes, s.parentId.value).Some?
    ensures var p := FindNode(s.nodes, s.parentId.value).value;
      IsContainerType(p.nodeType) && Protected(p) &&
      (Permitted(s.nodes, s.parentId, answer) <==> answer == p.data.password)
  {
    var c :| c in s.nodes && IsContainerType(c.nodeType) && c.id == s.parentId.value;
    FindDistinct(s.nodes, c);
  }

  /**
   * For every container C of a reachable session with C selected: an answer
   * equal to C's password is permitted, any other answer (including none and
   * the empty string) is refused.
   */
  lemma ContainerGate(s: SessionState, c: Node, answer: Option<string>)
    requires SessionInvariant(s)
    requires c in s.nodes && IsContainerType(c.nodeType) && s.parentId == Some(c.id)
    ensures Permitted(s.nodes, s.parentId, answer) <==> answer == c.data.password
    ensures PasswordRequest(answer).None? ==> !Permitted(s.nodes, s.parentId, answer)
  {
    FindDistinct(s.nodes, c);
  }

  /**
   * Panel and Group do not consult the selected container's password: with a
   * container C selected, an answer that would be refused for Node/Input still
   * creates a new container recorded under C.
   */
  lemma ContainerIgnoresParentPassword(s: SessionState, c: Node, answer: Option<string>, id: string)
    requires SessionInvariant(s)
    requires c in s.nodes && IsContainerType(c.nodeType) && s.parentId == Some(c.id)
    requires answer.Some? && answer.value != "" && answer != c.data.password
    ensures !Permitted(s.nodes, s.parentId, answer)
    ensures var s2 := Step(s, PressPanel(answer, id));
      |s2.nodes| == |s.nodes| + 1 && s2.nodes[|s.nodes|].parentId == Some(c.id) &&
      s2.nodes[|s.nodes|].extent == Some("parent")
    ensures var s2 := Step(s, PressGroup(answer, id));
      |s2.nodes| == |s.nodes| + 1 && s2.nodes[|s.nodes|].parentId == Some(c.id) &&
      s2.nodes[|s.nodes|].extent == Some("parent")
  {
    assert Truthy(s.parentId);
    ContainerGate(s, c, answer);
    PanelButtonEffect(s, answer, id);
    GroupButtonEffect(s, answer, id);
  }
}
