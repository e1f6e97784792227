/** The records the todo interface keeps in its list, as plain values.

    A record is the JavaScript object the interface renders: an `id` (a number,
    or `undefined` for a record whose id the remote never gave back), a
    description, a priority and a status.  Status and priority are kept as the
    strings the interface writes ("none", "Completed", "ToDo", ...), because
    the interface does not restrict them to the contract's enumerations.
 */
module Records {

  datatype Option<+T> = None | Some(value: T)

  /** One todo record. `None` stands for an `id` that is `undefined`. */
  datatype Todo = Todo(id: Option<int>, description: string, priority: string, status: string)

  /** JavaScript truthiness of an id: present and not zero. */
  predicate IsTruthyId(id: Option<int>)
  {
    id.Some? && id.value != 0
  }

  /** The status the add handler gives every record it appends. */
  const AddedStatus: string := "none"

  /** The initial, and reset, value of the priority selector. */
  const DefaultPriority: string := "none"
}
