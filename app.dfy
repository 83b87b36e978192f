/**
 * The `App` component as an object: its three pieces of state are fields that
 * the handlers overwrite, and each handler is specified by the pure step
 * function of module Session.
 */
module AppComponent {

  import opened Wrappers
  import opened Nodes
  import opened Session

  class App {
    var nodes: seq<Node>
    var labelText: string
    var parentId: Option<string>

    /** The component state as a value. */
    function Snapshot(): (s: SessionState)
      reads this
    {
      SessionState(nodes, labelText, parentId)
    }

    ghost predicate Valid()
      reads this
    {
      SessionInvariant(Snapshot())
    }

    /** The initial state: no nodes, an empty label, no parent selected. */
    constructor ()
      ensures Valid() && Snapshot() == Initial()
    {
      nodes := [];
      labelText := "";
      parentId := None;
    }

    /** The label input's `onChange`: `setLabel(value)`. */
    method SetLabel(text: string)
      requires Valid()
      modifies this
      ensures Valid() && Snapshot() == Step(old(Snapshot()), EditLabel(text))
      ensures nodes == old(nodes) && parentId == old(parentId) && labelText == text
    {
      labelText := text;
    }

    /** The select's `onChange`: `setParentId(value)` with one of the select's option values. */
    method SetParentId(value: string)
      requires Valid() && value in SelectValues(nodes)
      modifies this
      ensures Valid() && Snapshot() == Step(old(Snapshot()), ChooseParent(value))
      ensures nodes == old(nodes) && labelText == old(labelText) && parentId == Some(value)
    {
      StepKeepsInvariant(Snapshot(), ChooseParent(value));
      parentId := Some(value);
    }

    /** `createNode(type, password, option)` with `freshId` standing for `uuidv4()`. */
    method CreateNode(nodeType: string, password: Option<string>, option: Option<Style>, freshId: string)
      modifies this
      ensures Snapshot() == Create(old(Snapshot()), freshId, nodeType, password, option)
      ensures AppendedOne(old(Snapshot()), Snapshot(), freshId, nodeType, password, option)
    {
      CreateAppends(Snapshot(), freshId, nodeType, password, option);
      var newNode := MakeNode(freshId, labelText, parentId, nodeType, password, option);
      nodes := nodes + [newNode];
    }

    /**
     * `hasPermissionToCreateNode()` with `answer` standing for the prompt's
     * result; `!==` compares the stored password (undefined when the parent or
     * its password is missing) with the normalised answer (null when missing).
     */
    method HasPermissionToCreateNode(answer: Option<string>) returns (ok: bool)
      ensures ok == Permitted(nodes, parentId, answer)
      ensures !Truthy(parentId) ==> ok
      ensures Truthy(parentId) && parentId.value !in Ids(nodes) ==> !ok
    {
      var password: Js := Undefined;
      if Truthy(parentId) {
        var requestedPass := OrNull(PasswordRequest(answer));
        var parent := FindNode(nodes, parentId.value);
        password := if parent.None? then Undefined else OrUndefined(parent.value.data.password);
        if password != requestedPass {
          ok := false;
          return;
        }
      }
      ok := true;
    }

    /** The Node button: gated by the parent's password, then a plain node with z-index 2. */
    method NodeButton(answer: Option<string>, freshId: string) returns (created: bool)
      requires Valid() && freshId != "" && freshId !in Ids(nodes)
      modifies this
      ensures Valid() && Snapshot() == Step(old(Snapshot()), PressNode(answer, freshId))
      ensures created == Permitted(old(nodes), old(parentId), answer)
      ensures created <==> |nodes| == |old(nodes)| + 1
    {
      ghost var before := Snapshot();
      StepKeepsInvariant(before, PressNode(answer, freshId));
      created := HasPermissionToCreateNode(answer);
      if created {
        CreateNode(PlainType, None, Some(NodeStyle), freshId);
      }
    }

    /** The nodeInput button: gated by the parent's password, then an "input" node without style. */
    method InputButton(answer: Option<string>, freshId: string) returns (created: bool)
      requires Valid() && freshId != "" && freshId !in Ids(nodes)
      modifies this
      ensures Valid() && Snapshot() == Step(old(Snapshot()), PressInput(answer, freshId))
      ensures created == Permitted(old(nodes), old(parentId), answer)
      ensures created <==> |nodes| == |old(nodes)| + 1
    {
      ghost var before := Snapshot();
      StepKeepsInvariant(before, PressInput(answer, freshId));
      created := HasPermissionToCreateNode(answer);
      if created {
        CreateNode(InputType, None, None, freshId);
      }
    }

    /** The Panel button: a "default" container storing the prompted password. */
    method PanelButton(answer: Option<string>, freshId: string) returns (created: bool)
      requires Valid() && freshId != "" && freshId !in Ids(nodes)
      modifies this
      ensures Valid() && Snapshot() == Step(old(Snapshot()), PressPanel(answer, freshId))
      ensures created <==> answer.Some? && answer.value != ""
      ensures created <==> |nodes| == |old(nodes)| + 1
    {
      ghost var before := Snapshot();
      StepKeepsInvariant(before, PressPanel(answer, freshId));
      var password := PasswordRequest(answer);
      created := password.Some?;
      if created {
        CreateNode(PanelType, password, Some(PanelStyle), freshId);
      }
    }

    /** The Group button: a "group" container storing the prompted password. */
    method GroupButton(answer: Option<string>, freshId: string) returns (created: bool)
      requires Valid() && freshId != "" && freshId !in Ids(nodes)
      modifies this
      ensures Valid() && Snapshot() == Step(old(Snapshot()), PressGroup(answer, freshId))
      ensures created <==> answer.Some? && answer.value != ""
      ensures created <==> |nodes| == |old(nodes)| + 1
    {
      ghost var before := Snapshot();
      StepKeepsInvariant(before, PressGroup(answer, freshId));
      var password := PasswordRequest(answer);
      created := password.Some?;
      if created {
        CreateNode(GroupType, password, Some(GroupStyle), freshId);
      }
    }
  }
}
