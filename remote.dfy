/** The boundary to the remote contract, as values.  The interface's hook
    sends three kinds of signed messages; each returns a promise that either
    resolves or rejects.  The network, the wallet and the signing client are
    not modelled: a handler receives how its promise settled as a parameter
    and returns the message it sent. */
module Remote {
  import opened Records

  /** The entry fields an update message can carry. */
  datatype Field = DescriptionField | StatusField | PriorityField

  /** The arguments of `addTodo`, `updateTodo` and `deleteTodo`.  An update
      argument left `undefined` is `None`; JSON encoding drops it from the
      `update_entry` message. */
  datatype Call =
    | NewEntry(description: string, priority: string)
    | UpdateEntry(id: Option<int>, setDescription: Option<string>, setStatus: Option<string>,
                  setPriority: Option<string>)
    | DeleteEntry(id: Option<int>)

  /** How the promise of a call settled: resolved with a value (`None` is
      `undefined`), or rejected, in which case no `.then` callback runs. */
  datatype Reply = Resolved(value: Option<int>) | Rejected

  /** The fields an update message asks the contract to change: those that
      are not `undefined`. */
  function RequestedFields(c: Call): (fs: set<Field>)
    requires c.UpdateEntry?
    ensures DescriptionField in fs <==> c.setDescription.Some?
    ensures StatusField in fs <==> c.setStatus.Some?
    ensures PriorityField in fs <==> c.setPriority.Some?
  {
    (if c.setDescription.Some? then {DescriptionField} else {})
    + (if c.setStatus.Some? then {StatusField} else {})
    + (if c.setPriority.Some? then {PriorityField} else {})
  }
}
