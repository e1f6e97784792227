# Todo dApp interface: a Dafny model of its list handlers

The repository is a todo application. A CosmWasm contract on the MANTRA
chain stores the entries. A React interface shows them and sends signed
`new_entry`, `update_entry` and `delete_entry` messages through a Keplr wallet.
Nearly all of the interface is markup. This project models the part that has
behaviour of its own:

- **The top-level component's state** (`todos`, `newTodo`, `isOpen`,
  `editingTodo`, `newTodoPriority`) and its four handlers: add, save, edit and
  delete. In `App.TodoApp`, each handler is a method. It assigns to the fields
  the result of a pure list expression: a spread append, a `map` that replaces
  by id, or a `filter` that deletes by id (module `TodoLists`).
- **The guard on the add handler**, `newTodo.trim()`. Module `JsString` models
  ECMAScript's `trim`: it strips WhiteSpace and LineTerminator code points.
  `JsString.TrimEmptyIffBlank` proves that the trimmed text is empty exactly
  when every character of the text is whitespace.
- **The status toggle of the list component** (module `StatusToggle`). It
  computes the next status and builds the partial `update_entry` request that
  carries it.
- **The messages sent to the contract** (module `Remote`), as values.

Modelling choices:

- A record is `Records.Todo(id, description, priority, status)`.
- `id` is an `Option<int>`, and `None` stands for `undefined`. The save
  handler branches on JavaScript truthiness, which for an id is "present and
  not zero" (`Records.IsTruthyId`). Ids compare with `===`, and on this type
  that is plain equality.
- Status and priority are strings, not enumerations. The interface writes
  `"none"` and `"Completed"`, and neither is a value of the contract's
  `Status` enum.
- Nothing keeps ids unique, and the model states no uniqueness invariant.
- Remote calls are not run. Each handler takes a `Remote.Reply` parameter that
  says how its promise settled:
  - `Resolved(value)`: the `.then` callback runs.
  - `Rejected`: the callback never runs.

  The add, save and delete handlers return the message they ask the hook to
  send. A `Rejected` reply also covers a hook that fails before sending
  anything, for instance when no wallet is found or no account is connected.
- A handler is one sequential step: its synchronous part, then its callback,
  with no other handler in between.
- The hook's `addTodo` has no `return`, so its promise resolves with
  `undefined`. The model does not rely on that: the value is a parameter.
  `App.UndefinedIdScenario` shows the consequence. A record added from the
  input has no id. Saving it from the modal sends a second `new_entry` instead
  of an update. Deleting it also removes every other record that has no id.
- Saving while no record is being edited reads `editingTodo.id` on `null` and
  throws before any setter runs. The model gives that case as "no message,
  nothing changes". The invariant `TodoApp.Valid()` (an open modal always has a
  record being edited) proves that the Save button in the modal never reaches
  this case: `HandleSaveTodo` ensures that a save with the modal open always
  sends a message.
- The status toggle returns `"Done"`. The top-level component's modal offers
  `"Completed"` instead, and strikes a record through only for `"Completed"`.
  So the two components do not agree on the name of a finished status. The
  model keeps both strings as they are written.

## Model

| member | source | states |
|---|---|---|
| `JsString.LeadingSpace` | interface/src/App.jsx:91 | the number of leading characters that are all whitespace, with the next character, if any, not whitespace |
| `JsString.TrailingSpace` | interface/src/App.jsx:91 | the number of trailing characters that are all whitespace, with the character before them, if any, not whitespace |
| `JsString.Trim` | interface/src/App.jsx:91 | `trim()` is a contiguous slice of the input with only whitespace outside it and no whitespace at either end |
| `JsString.TrimEmptyIffBlank` | interface/src/App.jsx:91 | the trimmed text is empty (falsy) if and only if every character is whitespace |
| `TodoLists.CountId` | interface/src/App.jsx:126 | the number of records with a given id, never more than the list length |
| `TodoLists.ReplaceById` | interface/src/App.jsx:104-106 | same length and order; every record whose id equals the edited id becomes the edited record; every other record is unchanged |
| `TodoLists.FilterOutId` | interface/src/App.jsx:126 | deleting by id never makes the list longer |
| `TodoLists.FilterOutIdLength` | interface/src/App.jsx:124-127 | the length drops by exactly the number of records with the id |
| `TodoLists.FilterOutIdMembers` | interface/src/App.jsx:126 | a record is in the result if and only if it was in the list and its id differs |
| `TodoLists.FilterOutIdConcat` | interface/src/App.jsx:126 | filtering distributes over concatenation, which fixes the relative order of the records kept |
| `TodoLists.FilterOutIdSingleton` | interface/src/App.jsx:126 | a one-record list is kept when its id differs and emptied when it matches |
| `TodoLists.FilterOutIdUnchangedIffAbsent` | interface/src/App.jsx:124-127 | deleting leaves the list unchanged if and only if no record has that id |
| `TodoLists.FilterOutIdMultiset` | interface/src/App.jsx:126 | each record keeps its number of occurrences unless it has the id, in which case none remain |
| `TodoLists.FilterOutIdIdempotent` | interface/src/App.jsx:124-127 | deleting an id twice gives the same list as deleting it once |
| `TodoLists.NoMemberWithIdNoCount` | interface/src/App.jsx:126 | a list none of whose members has the id counts zero matches |
| `TodoLists.ReplaceByIdKeepsIds` | interface/src/App.jsx:101-106 | replacing with a record that has the matched id keeps the id at every position |
| `TodoLists.ReplaceByIdIdempotent` | interface/src/App.jsx:101-106 | saving the same edit twice gives the same list as saving it once |
| `TodoLists.ReplaceThenDelete` | interface/src/App.jsx:104-106 | replacing the records with an id and then deleting that id equals just deleting it |
| `TodoLists.AppendThenDelete` | interface/src/App.jsx:93 | deleting the id of an appended record removes it together with every earlier record with that id, and leaves the rest as before |
| `Remote.RequestedFields` | interface/src/hooks/useTodoContract.js:38-47 | an update message asks to change a field if and only if that argument is not `undefined` |
| `StatusToggle.NextStatus` | interface/src/components/TodoList.jsx:21 | the result is always "ToDo" or "Done"; it is "Done" if and only if the current status is "ToDo" |
| `StatusToggle.NextStatusTwice` | interface/src/components/TodoList.jsx:21 | toggling twice returns "ToDo" to "ToDo" and "Done" to "Done", and sends every other status to "Done" |
| `StatusToggle.ToggleRequest` | interface/src/components/TodoList.jsx:22 | the toggle request carries the record's id and the new status, and asks for the status field alone to change |
| `App.TodoApp.constructor` | interface/src/App.jsx:55-59 | empty list, empty input, modal closed, no record being edited, priority "none" |
| `App.TodoApp.HandleAddTodo` | interface/src/App.jsx:90-98 | blank input: no message and no change. Otherwise the untrimmed text is sent with the selected priority. On resolution, one record is appended with the returned id, the text, the priority and status "none"; the earlier records are unchanged and in order; both inputs are reset |
| `App.TodoApp.HandleSaveTodo` | interface/src/App.jsx:100-117 | with the modal open a message is always sent. Truthy id: a full update is sent, and on resolution the records with that id are replaced (length and order kept). Otherwise a new entry is sent, and on resolution the edited record is appended with the returned id. Every branch closes the modal, clears the input and the edited record. With no edited record, nothing changes |
| `App.TodoApp.HandleEditTodo` | interface/src/App.jsx:119-122 | the chosen record is being edited and the modal is open; the list and the inputs are untouched |
| `App.TodoApp.HandleDeleteTodo` | interface/src/App.jsx:124-128 | the id is sent. On resolution, every record with the id is removed, the rest keep their order, and the length drops by the number of matches. A rejected promise changes nothing |

## Left out

- The effect that replaces the list with the contract's query result once the
  wallet connects, and the refetches of the list component. After each of
  them the list is whatever the remote returns, which is I/O.
- The list component's own add and delete handlers. They call the hook (the
  add handler without a priority), the add handler clears its input, and both
  then refetch.
- The hook itself: it enables Keplr, connects the signing client, sets the gas
  price and calls `execute` or `queryContractSmart`. The model keeps only the
  arguments of each message (`Remote.Call`) and how each promise settles
  (`Remote.Reply`). The `owner` argument is not modelled. The hook's
  "no account" early return is not modelled either; a caller chooses the
  `Reply` that stands for it.
- The contract's storage declarations (`Entry`, `Status`, `Priority`, the
  entry sequence and the entry map). They hold no behaviour, and the contract
  logic that uses them is not part of this model. Records therefore carry no
  `owner` field.
- Async ordering and stale closures. Each callback works on the `todos` that
  its render captured, so two overlapping resolutions can overwrite each
  other. That is concurrency.
- The input and modal bindings (`onChange` of the text input, the priority
  selector and the three modal fields, and the Cancel and close buttons). They
  are presentation. The scenario sets the input fields directly.
- Presentation in general: the icon pickers, the colour mode, the wallet
  buttons and the address shortening.
- A Dafny `string` is a sequence of Unicode scalar values, while a JavaScript
  string is a sequence of UTF-16 code units, so an input holding a lone
  surrogate cannot be represented. The trim test does not depend on this,
  because every whitespace code point lies in the Basic Multilingual Plane.
