/**
 * The todo list page: a text input and a list of todos. Adding takes the
 * trimmed input as a new, not yet completed todo at the end of the list and
 * clears the input; clicking a todo flips its completion. The page's state is
 * replaced as a whole by each handler, so each handler is a function from the
 * old state to the new one. A new todo's id is `Date.now()`, a parameter here.
 */
module TodoList {
  import opened JsSupport

  datatype Todo = Todo(id: int, text: string, completed: bool)

  datatype PageState = PageState(todos: seq<Todo>, newTodo: string)

  const EnterKey: string := "Enter"

  /** The page as it first appears: no todos and an empty input. */
  const InitialPage: PageState := PageState([], "")

  /**
   * `handleAddTodo`: an input that is empty or only whitespace changes
   * nothing; otherwise exactly one todo, with the trimmed text and not
   * completed, is appended at the end and the input is cleared.
   */
  function AddTodo(st: PageState, now: int): (r: PageState)
    ensures Blank(st.newTodo) ==> r == st
    ensures !Blank(st.newTodo) ==>
              && |r.todos| == |st.todos| + 1
              && r.todos[..|st.todos|] == st.todos
              && r.todos[|st.todos|] == Todo(now, Trim(st.newTodo), false)
              && r.newTodo == ""
  {
    if Blank(st.newTodo) then st
    else PageState(st.todos + [Todo(now, Trim(st.newTodo), false)], "")
  }

  /** The text of an added todo is never empty and has no whitespace left to trim. */
  lemma AddedTextIsTrimmed(st: PageState, now: int)
    requires !Blank(st.newTodo)
    ensures var text := AddTodo(st, now).todos[|st.todos|].text;
            text != "" && Trim(text) == text
  {
    TrimEmptyIffAllWhitespace(st.newTodo);
    TrimIdempotent(st.newTodo);
  }

  /**
   * `toggleTodo`: every todo with the given id has its completion flipped;
   * ids, texts, order and length stay as they were.
   */
  function Toggle(todos: seq<Todo>, id: int): (r: seq<Todo>)
    ensures |r| == |todos|
    ensures forall k :: 0 <= k < |r| ==>
              && r[k].id == todos[k].id && r[k].text == todos[k].text
              && r[k].completed == (if todos[k].id == id then !todos[k].completed else todos[k].completed)
  {
    if todos == [] then []
    else
      var t := todos[0];
      [if t.id == id then t.(completed := !t.completed) else t] + Toggle(todos[1..], id)
  }

  /** Toggling the same id twice gives back the original list. */
  lemma ToggleTwice(todos: seq<Todo>, id: int)
    ensures Toggle(Toggle(todos, id), id) == todos
  {
    var r := Toggle(Toggle(todos, id), id);
    assert forall k :: 0 <= k < |r| ==> r[k] == todos[k];
  }

  /** Toggles of different ids touch different todos, so their order does not matter. */
  lemma TogglesCommute(todos: seq<Todo>, a: int, b: int)
    ensures Toggle(Toggle(todos, a), b) == Toggle(Toggle(todos, b), a)
  {
    var r := Toggle(Toggle(todos, a), b);
    var r' := Toggle(Toggle(todos, b), a);
    assert forall k :: 0 <= k < |r| ==> r[k] == r'[k];
  }

  /** A toggle of an id no todo has changes nothing. */
  lemma ToggleAbsent(todos: seq<Todo>, id: int)
    requires forall k :: 0 <= k < |todos| ==> todos[k].id != id
    ensures Toggle(todos, id) == todos
  {
    var r := Toggle(todos, id);
    assert forall k :: 0 <= k < |r| ==> r[k] == todos[k];
  }

  /** The page's `toggleTodo` handler: only the list changes. */
  function ToggleTodo(st: PageState, id: int): (r: PageState)
    ensures r.newTodo == st.newTodo && r.todos == Toggle(st.todos, id)
  {
    st.(todos := Toggle(st.todos, id))
  }

  /** `handleKeyPress`: Enter adds the todo; any other key does nothing. */
  function KeyPress(st: PageState, key: string, now: int): (r: PageState)
    ensures key == EnterKey ==> r == AddTodo(st, now)
    ensures key != EnterKey ==> r == st
  {
    if key == EnterKey then AddTodo(st, now) else st
  }

  /** Adding, then pressing Enter on the cleared input, adds nothing more. */
  lemma EnterAfterAddIsIdle(st: PageState, now: int, later: int)
    requires !Blank(st.newTodo)
    ensures KeyPress(AddTodo(st, now), EnterKey, later) == AddTodo(st, now)
  {
  }
}
