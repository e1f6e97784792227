/** The "Toggle Status" button of the list component: the next status, and
    the partial update message sent for it. */
module StatusToggle {
  import opened Records
  import opened Remote

  /** `currentStatus === 'ToDo' ? 'Done' : 'ToDo'`: only "ToDo" moves to
      "Done"; every other status, known or not, goes back to "ToDo". */
  function NextStatus(current: string): (r: string)
    ensures r == "ToDo" || r == "Done"
    ensures r == "Done" <==> current == "ToDo"
  {
    if current == "ToDo" then "Done" else "ToDo"
  }

  /** Toggling twice restores "ToDo" and "Done", and sends any other status
      to "Done". */
  lemma NextStatusTwice(current: string)
    ensures current == "ToDo" || current == "Done" ==> NextStatus(NextStatus(current)) == current
    ensures current != "ToDo" ==> NextStatus(NextStatus(current)) == "Done"
  {
  }

  /** `updateTodo(id, undefined, newStatus)`: the message carries the record's
      id and the new status, and asks for no other field to change. */
  function ToggleRequest(id: Option<int>, current: string): (c: Call)
    ensures c.UpdateEntry? && c.id == id && c.setStatus == Some(NextStatus(current))
    ensures RequestedFields(c) == {StatusField}
  {
    UpdateEntry(id, None, Some(NextStatus(current)), None)
  }
}
