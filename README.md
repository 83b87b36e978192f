# Session model of the bogdan-diagram `App` component

`src/App.tsx` is a React component for a node-graph editor (ReactFlow). Behind its
JSX it keeps three pieces of state: the node list, the label typed into the input
and the parent id chosen in a `<select>`. Four buttons append nodes to the list:

- **Node** and **nodeInput** create leaf nodes. When a parent is selected, they first
  prompt for that parent's password.
- **Panel** (type `"default"`) and **Group** (type `"group"`) create containers. They
  prompt for a new password and store it on the container.

The select offers the nodes of type `"group"` and `"default"` as parents.

This project models that session in Dafny 4.11:

- `wrappers.dfy`: `Option`, which stands for JavaScript's absent values.
- `nodes.dfy` (module `Nodes`) has the pure parts:
  - the node record and the `nodeOptions` style table;
  - the record `createNode` builds;
  - `nodes.find` by id;
  - the `ParentOptions` filter and the select's option values;
  - `passwordRequest`'s normalisation;
  - the permission rule of `hasPermissionToCreateNode`.
- `session.dfy` (module `Session`) holds the session as a value. It has:
  - `Step`, which gives the effect of each intent (label edit, parent choice, the four buttons);
  - `Run`, which applies a sequence of intents;
  - the invariants every reachable session keeps, and the lemmas about them.
- `app.dfy` (module `AppComponent`) has the component as a class `App`:
  - the fields are `nodes`, `labelText` and `parentId`;
  - the handlers are methods that overwrite them;
  - each method's postcondition ties the new state to `Session.Step` of the old state.

The boundary calls are parameters:
- The prompt's answer is an `Option<string>`; `None` means the prompt was cancelled.
- The id `uuidv4()` would produce is passed in. The model assumes it is non-empty and not
  yet used, which is what `ValidAction` and the handlers' preconditions state.
- The `<select>` reports only one of its option values. `SelectValues` lists those values.

JavaScript's `!==` in `hasPermissionToCreateNode` uses a small `Js` datatype (`Undefined | Null | Str`):
- A missing parent or a missing stored password is `undefined`.
- A missing answer is `null`.
- The two never compare equal.

Notes on the code:
- The parent candidates are exactly the `"group"` and `"default"` nodes. `"default"` is the
  type the Panel button creates, and the Node button creates type `""`, so plain nodes are
  never offered as parents.
- An unknown parent id just denies Node/Input creation (`HasPermissionToCreateNode`). Among
  the modelled intents, a selected parent id always names an existing container
  (`SelectedParentGate`).
- Panel and Group never check the selected parent's password
  (`ContainerIgnoresParentPassword`).

## Model

| member | source | states |
|---|---|---|
| Nodes.FindNode | src/App.tsx:103-104 | the result is absent exactly when no node has the id; otherwise it is the first node in list order with that id |
| Nodes.ParentCandidates | src/App.tsx:74-84 | no longer than the list; a node is offered exactly when it is in the list and its type is "group" or "default" |
| Nodes.SelectValues | src/App.tsx:131-134 | a value can be selected exactly when it is the placeholder "" or the id of a "group"/"default" node of the list |
| Nodes.PasswordRequest | src/App.tsx:86-95 | the result is either none or the answer itself, is never the empty string, and is the answer whenever the answer is a non-empty string |
| Session.FindDistinct | src/App.tsx:103-104 | with pairwise distinct ids, looking up a node's id finds exactly that node |
| Session.FindAfterAppend | src/App.tsx:63 | appending a node never changes what an id already in the list finds |
| Session.CandidatesOfConcat | src/App.tsx:133 | candidates of a concatenation are the candidates of each part in order (the filter keeps list order) |
| Session.CreateAppends | src/App.tsx:51-64 | creation appends exactly one node and keeps every earlier node, the label and the selection; the new node has the fresh id, the current label, the given password, position (100,100), the selected parent id, extent "parent" iff that id is truthy, and the given type and style |
| Session.NodeButtonEffect | src/App.tsx:142-149 | denied: the session is unchanged; granted: one node of type "" with no password and style z-index 2, no size, is appended |
| Session.InputButtonEffect | src/App.tsx:151-155 | denied: the session is unchanged; granted: one node of type "input" with no password and no style is appended |
| Session.PanelButtonEffect | src/App.tsx:157-164 | a missing or empty answer leaves the session unchanged; otherwise one "default" node 300x300 at z-index 0 storing the answer is appended, whatever the parent's password |
| Session.GroupButtonEffect | src/App.tsx:166-173 | a missing or empty answer leaves the session unchanged; otherwise one "group" node 200x200 at z-index 1 storing the answer is appended, whatever the parent's password |
| Session.StepAppendOnly | src/App.tsx:63 | no intent removes or changes a node; at most one is appended |
| Session.RunAppendOnly | src/App.tsx:63 | along any sequence of intents the earlier list stays a prefix and grows by at most one node per intent |
| Session.StepKeepsWellFormed | src/App.tsx:19-41 | every intent keeps each node's type, password, style, position and extent consistent with the button that made it |
| Session.RunKeepsWellFormed | src/App.tsx:142-173 | any sequence of intents keeps every node well formed |
| Session.WellFormedPasswords | src/App.tsx:74-84 | in a well-formed list a node stores a password iff it is a container, and every offered parent stores a non-empty one |
| Session.CandidatesAlwaysProtected | src/App.tsx:157-173 | after any sequence of intents from the initial session, every parent candidate stores a non-empty password and exactly the "group"/"default" nodes store a password |
| Session.CreateKeepsInvariant | src/App.tsx:51-64 | appending a well-formed node with a fresh non-empty id keeps ids distinct and non-empty, parents before children and the selection resolvable |
| Session.StepKeepsInvariant | src/App.tsx:131-173 | every intent the environment can produce keeps the session invariant |
| Session.RunKeepsInvariant | src/App.tsx:131-173 | every valid sequence of intents keeps the session invariant |
| Session.ReachableInvariant | src/App.tsx:44-48 | every session reached from the initial state by valid intents satisfies the invariant |
| Session.SelectedParentGate | src/App.tsx:97-113 | in a session satisfying the invariant, with a parent selected, the parent is found, is a container with a non-empty password, and Node/Input creation is permitted iff the answer equals that password |
| Session.ContainerGate | src/App.tsx:97-113 | with a container selected, creation is permitted iff the answer equals its stored password; a missing or empty answer is always refused |
| Session.ContainerIgnoresParentPassword | src/App.tsx:157-173 | with a container selected and an answer it would refuse, Panel and Group still append a container recorded under it with extent "parent" |
| AppComponent.App.constructor | src/App.tsx:44-48 | starts with no nodes, an empty label and no parent; the invariant holds |
| AppComponent.App.SetLabel | src/App.tsx:136-140 | overwrites the label and nothing else |
| AppComponent.App.SetParentId | src/App.tsx:131 | overwrites the selection with the chosen option value and nothing else; the invariant is kept |
| AppComponent.App.CreateNode | src/App.tsx:51-64 | appends exactly the record `createNode` builds, leaving label and selection unchanged |
| AppComponent.App.HasPermissionToCreateNode | src/App.tsx:97-113 | the result is the permission rule; true with no parent selected; false when the selected id matches no node |
| AppComponent.App.NodeButton | src/App.tsx:142-149 | the new state is the Node step of the old one; a node is appended iff permission is granted; the invariant is kept |
| AppComponent.App.InputButton | src/App.tsx:151-155 | the new state is the nodeInput step of the old one; a node is appended iff permission is granted; the invariant is kept |
| AppComponent.App.PanelButton | src/App.tsx:157-164 | the new state is the Panel step of the old one; a node is appended iff the answer is a non-empty string; the invariant is kept |
| AppComponent.App.GroupButton | src/App.tsx:166-173 | the new state is the Group step of the old one; a node is appended iff the answer is a non-empty string; the invariant is kept |

## Left out

- `onConnect` / `addEdge` (src/App.tsx:66-71): the edge list and its rules (deduplication, endpoint checks) belong to the `reactflow` library. That library is not part of this model, so edges are not modelled.
- `onNodesChange` / `onEdgesChange` (src/App.tsx:48-49, 120-121): the library applies every node change, and the model leaves all of them out. That includes position, dimension and selection changes, and also `remove` changes: with no `deleteKeyCode` passed, Backspace deletes the selected nodes. The shared `initialNodePosition` object is treated as a value.
- StepAppendOnly, RunAppendOnly, SelectionResolves and SelectedParentGate hold only for the modelled intents. Once a node is removed, the list is no longer append-only. `parentId` can then keep naming a deleted container: Node/Input then deny, while Panel/Group still create a node under that dangling id with extent "parent".
- Rendering (`ReactFlow`, `MiniMap`, `Controls`, `Background`, the `Panel` layout), `className`, the background colours in `nodeOptions`, and the `alert` texts are not modelled. They add only cosmetic fields or messages to the user.
- React's `useState`/`useCallback` mechanics become plain fields that the methods overwrite. Re-render timing is not modelled.
- `prompt` and `uuidv4` are inputs. Id freshness is assumed, not derived: uuid collisions are outside the model.
- The `label` state and `data.label` are named `labelText`, because `label` is a reserved word in Dafny.
