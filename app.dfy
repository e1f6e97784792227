/** The state of the interface's top-level component and the four handlers
    that rewrite it once a remote call has settled.

    Each handler runs as one sequential step: the synchronous part of the
    click, and then, when the promise resolves, its `.then` callback, with
    no other handler in between.  The remote call itself is not run: the
    handler is told how its promise settled and returns the message it sent. */
module App {
  import opened Records
  import opened JsString
  import opened TodoLists
  import opened Remote

  class TodoApp {
    var todos: seq<Todo>
    var newTodo: string
    var isOpen: bool
    var editingTodo: Option<Todo>
    var newTodoPriority: string

    /** The edit modal is only ever open on a record: the one handler that
        opens it also sets the record, and saving clears both. */
    ghost predicate Valid()
      reads this
    {
      isOpen ==> editingTodo.Some?
    }

    /** The component's initial state. */
    constructor ()
      ensures Valid()
      ensures todos == [] && newTodo == "" && !isOpen && editingTodo == None
      ensures newTodoPriority == DefaultPriority
    {
      todos := [];
      newTodo := "";
      isOpen := false;
      editingTodo := None;
      newTodoPriority := DefaultPriority;
    }

    /** Add: a blank input sends nothing and changes nothing.  Otherwise the
        untrimmed text is sent with the selected priority; on resolution one
        record is appended (the promise's value as id, status "none") and
        both inputs are reset.  A rejected promise changes nothing. */
    method HandleAddTodo(reply: Reply) returns (call: Option<Call>)
      requires Valid()
      modifies this`todos, this`newTodo, this`newTodoPriority
      ensures Valid()
      ensures IsBlank(old(newTodo)) ==> call == None && unchanged(this)
      ensures !IsBlank(old(newTodo)) ==> call == Some(NewEntry(old(newTodo), old(newTodoPriority)))
      ensures !IsBlank(old(newTodo)) && reply.Rejected? ==> unchanged(this)
      ensures !IsBlank(old(newTodo)) && reply.Resolved? ==>
        && |todos| == |old(todos)| + 1
        && todos[..|old(todos)|] == old(todos)
        && todos[|old(todos)|] == Todo(reply.value, old(newTodo), old(newTodoPriority), AddedStatus)
        && newTodo == "" && newTodoPriority == DefaultPriority
    {
      TrimEmptyIffBlank(newTodo);
      if Trim(newTodo) != "" {
        call := Some(NewEntry(newTodo, newTodoPriority));
        if reply.Resolved? {
          todos := todos + [Todo(reply.value, newTodo, newTodoPriority, AddedStatus)];
          newTodo := "";
          newTodoPriority := DefaultPriority;
        }
      } else {
        call := None;
      }
    }

    /** Save: with no record being edited, reading its id throws before any
        state changes.  Otherwise a record with a truthy id is sent as a full
        update and, on resolution, replaces every record with that id; a
        record without one is sent as a new entry and, on resolution,
        appended with the promise's value as id.  Whatever the branch and
        however the promise settles, the modal closes, the add input is
        cleared and no record is being edited any more. */
    method HandleSaveTodo(reply: Reply) returns (call: Option<Call>)
      requires Valid()
      modifies this`todos, this`isOpen, this`newTodo, this`editingTodo
      ensures Valid()
      ensures old(editingTodo) == None ==> call == None && unchanged(this)
      ensures old(isOpen) ==> call.Some?
      ensures old(editingTodo).Some? ==> !isOpen && newTodo == "" && editingTodo == None
      ensures old(editingTodo).Some? ==>
        var e := old(editingTodo).value;
        call == Some(if IsTruthyId(e.id) then UpdateEntry(e.id, Some(e.description), Some(e.status), Some(e.priority))
                     else NewEntry(e.description, e.priority))
      ensures old(editingTodo).Some? && reply.Rejected? ==> todos == old(todos)
      ensures old(editingTodo).Some? && reply.Resolved? && IsTruthyId(old(editingTodo).value.id) ==>
        var e := old(editingTodo).value;
        && todos == ReplaceById(old(todos), e.id, e)
        && |todos| == |old(todos)|
        && forall i :: 0 <= i < |todos| ==> todos[i] == (if old(todos)[i].id == e.id then e else old(todos)[i])
      ensures old(editingTodo).Some? && reply.Resolved? && !IsTruthyId(old(editingTodo).value.id) ==>
        var e := old(editingTodo).value;
        todos == old(todos) + [e.(id := reply.value)]
    {
      if editingTodo == None {
        call := None;
        return;
      }
      var e := editingTodo.value;
      if IsTruthyId(e.id) {
        call := Some(UpdateEntry(e.id, Some(e.description), Some(e.status), Some(e.priority)));
        if reply.Resolved? {
          todos := ReplaceById(todos, e.id, e);
        }
      } else {
        call := Some(NewEntry(e.description, e.priority));
        if reply.Resolved? {
          todos := todos + [e.(id := reply.value)];
        }
      }
      isOpen := false;
      newTodo := "";
      editingTodo := None;
    }

    /** Edit: the chosen record becomes the one being edited and the modal
        opens; the list and the add inputs are left alone. */
    method HandleEditTodo(todo: Todo)
      requires Valid()
      modifies this`editingTodo, this`isOpen
      ensures Valid()
      ensures editingTodo == Some(todo) && isOpen
      ensures todos == old(todos) && newTodo == old(newTodo) && newTodoPriority == old(newTodoPriority)
    {
      editingTodo := Some(todo);
      isOpen := true;
    }

    /** Delete: sends the id and, on resolution, drops every record with that
        id, keeping the others in order; a rejected promise changes nothing. */
    method HandleDeleteTodo(id: Option<int>, reply: Reply) returns (call: Call)
      requires Valid()
      modifies this`todos
      ensures Valid()
      ensures call == DeleteEntry(id)
      ensures reply.Rejected? ==> todos == old(todos)
      ensures reply.Resolved? ==>
        && todos == FilterOutId(old(todos), id)
        && |todos| == |old(todos)| - CountId(old(todos), id)
        && (forall t :: t in todos <==> t in old(todos) && t.id != id)
        && (CountId(old(todos), id) == 0 <==> todos == old(todos))
    {
      call := DeleteEntry(id);
      if reply.Resolved? {
        FilterOutIdUnchangedIffAbsent(todos, id);
        FilterOutIdMembers(todos, id);
        FilterOutIdLength(todos, id);
        todos := FilterOutId(todos, id);
      }
    }
  }

  /** A client of the handlers.  The hook's `addTodo` resolves with
      `undefined`, so a record added from the input has no id: saving it
      from the modal sends a second new entry instead of an update, and
      deleting it drops every other record without an id as well. */
  method UndefinedIdScenario()
  {
    var app := new TodoApp();
    app.newTodo := "Buy milk";
    app.newTodoPriority := "Low";
    assert !IsJsWhitespace(app.newTodo[0]);
    var add := app.HandleAddTodo(Resolved(None));
    assert add == Some(NewEntry("Buy milk", "Low"));
    var milk := Todo(None, "Buy milk", "Low", AddedStatus);
    assert app.todos == [milk];

    app.HandleEditTodo(milk);
    var save := app.HandleSaveTodo(Resolved(None));
    assert save == Some(NewEntry("Buy milk", "Low"));
    assert app.todos == [milk, milk];
    assert !app.isOpen && app.editingTodo == None;

    var del := app.HandleDeleteTodo(None, Resolved(None));
    assert del == DeleteEntry(None);
    assert app.todos == [];
  }
}
