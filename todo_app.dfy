/**
 * The todo screen's state engine: four state slots (the list, the error
 * banner, whether the edit form is open, the record being edited) plus the
 * tab flag, changed by the list refresh, save, delete, create, edit and
 * toggle handlers.
 *
 * The HTTP client is not modelled: each awaited API call is an `Outcome`
 * handed in by the caller, and every request the screen issues is appended
 * to `issued` so that what was asked of the server can be stated.
 */
module TodoApp {
  import opened Wrappers
  import opened Json
  import opened Normalize
  import opened ItemsView

  const TodosPath: string := "/api/todos/"

  const LoadError: string := "Could not load todos. Check VITE_API_URL and that your backend is running and exposes /api/todos/."
  const SaveError: string := "Save failed. See console for details."
  const DeleteError: string := "Delete failed. See console for details."

  datatype Verb = GET | POST | PUT | DELETE

  /** One API call: its verb, its path below the client's base URL, and its body. */
  datatype Request = Request(verb: Verb, path: string, body: Option<Fields>)

  /** How one awaited API call settles: resolved with a response body, or rejected. */
  datatype Outcome = Resolved(data: Value) | Rejected

  const ListRequest: Request := Request(GET, TodosPath, None)

  /** `/api/todos/${id}/` */
  function ItemPath(id: Option<Value>): string {
    TodosPath + PropToString(id) + "/"
  }

  /** Two item paths are equal only when the ids spell the same. */
  lemma ItemPathInjective(a: Option<Value>, b: Option<Value>)
    requires ItemPath(a) == ItemPath(b)
    ensures PropToString(a) == PropToString(b)
  {
    var pa, pb := ItemPath(a), ItemPath(b);
    assert PropToString(a) == pa[|TodosPath|..|pa| - 1];
    assert PropToString(b) == pb[|TodosPath|..|pb| - 1];
  }

  /**
   * The request `handleSubmit` sends for a draft: PUT to the draft's own
   * path when its `id` is truthy, POST to the collection otherwise (so an id
   * of 0 or "" creates a new record); either way the draft is the body.
   */
  function SaveRequest(item: Fields): (req: Request)
    ensures req.body == Some(item)
    ensures req.verb == PUT || req.verb == POST
    ensures req.verb == PUT <==> TruthyProp(Get(item, "id"))
    ensures req.verb == PUT ==> req.path == ItemPath(Get(item, "id"))
    ensures req.verb == POST ==> req.path == TodosPath
  {
    var id := Get(item, "id");
    if TruthyProp(id) then Request(PUT, ItemPath(id), Some(item))
    else Request(POST, TodosPath, Some(item))
  }

  /** A draft with the numeric id `k` is saved by a PUT addressed to `k` and no other id. */
  lemma SaveAddressesId(item: Fields, k: int, other: int)
    requires Get(item, "id") == Some(Num(k)) && k != 0
    ensures SaveRequest(item).verb == PUT
    ensures SaveRequest(item).path == "/api/todos/" + IntToString(k) + "/"
    ensures other != k ==> SaveRequest(item).path != ItemPath(Some(Num(other)))
  {
    if other != k && SaveRequest(item).path == ItemPath(Some(Num(other))) {
      ItemPathInjective(Some(Num(k)), Some(Num(other)));
      IntToStringInjective(k, other);
    }
  }

  /** The request `handleDelete` sends for a record that is not null. */
  function DeleteRequest(item: Value): (req: Request)
    requires !item.Null?
    ensures req.verb == DELETE && req.body.None?
    ensures req.path == ItemPath(PropertyOf(item, "id"))
    ensures PropertyOf(item, "id").None? ==> req.path == "/api/todos/undefined/"
  {
    Request(DELETE, ItemPath(PropertyOf(item, "id")), None)
  }

  /** A record with the numeric id `k` is deleted by a DELETE addressed to `k` and no other id. */
  lemma DeleteAddressesId(item: Value, k: int, other: int)
    requires PropertyOf(item, "id") == Some(Num(k))
    ensures DeleteRequest(item) == Request(DELETE, "/api/todos/" + IntToString(k) + "/", None)
    ensures other != k ==> DeleteRequest(item).path != ItemPath(Some(Num(other)))
  {
    if other != k && DeleteRequest(item).path == ItemPath(Some(Num(other))) {
      ItemPathInjective(Some(Num(k)), Some(Num(other)));
      IntToStringInjective(k, other);
    }
  }

  // ---------------------------------------------------------------------------
  // The screen's state and its transitions, as values

  datatype Store = Store(
    viewCompleted: bool,
    todoList: seq<Value>,
    modal: bool,
    activeItem: Fields,
    apiError: string,
    issued: seq<Request>)

  /** The draft `createItem` opens, also the initial `activeItem`. */
  const EmptyDraft: Fields := [("title", Str("")), ("description", Str("")), ("completed", Bool(false))]

  const Initial: Store := Store(false, [], false, EmptyDraft, "", [])

  /** The error banner shows nothing or one of the three messages. */
  predicate KnownError(e: string) {
    e == "" || e == LoadError || e == SaveError || e == DeleteError
  }

  /** What every reachable state satisfies. */
  predicate Consistent(s: Store) {
    && KnownError(s.apiError)
    && UniqueKeys(s.activeItem)
    && forall i | 0 <= i < |s.todoList| :: WellFormed(s.todoList[i])
  }

  /**
   * `refreshList`: clears the banner, fetches the list and replaces the list
   * wholesale. A rejected fetch and an HTML page alike empty the list and
   * show the load message; no error escapes.
   */
  function Refreshed(s: Store, list: Outcome): (t: Store)
    ensures t.issued == s.issued + [ListRequest]
    ensures t.apiError == "" || t.apiError == LoadError
    ensures t.apiError == "" <==> list.Resolved? && NormalizeTodos(list.data).Ok?
    ensures t.apiError == "" ==> NormalizeTodos(list.data) == Ok(t.todoList)
    ensures t.apiError == LoadError ==> t.todoList == []
    ensures t.viewCompleted == s.viewCompleted && t.modal == s.modal && t.activeItem == s.activeItem
  {
    var cleared := s.(apiError := "", issued := s.issued + [ListRequest]);
    if list.Rejected? then cleared.(todoList := [], apiError := LoadError)
    else
      match NormalizeTodos(list.data)
      case Ok(todos) => cleared.(todoList := todos)
      case Err(_) => cleared.(todoList := [], apiError := LoadError)
  }

  /**
   * `handleSubmit(item)`: flips the form flag before anything else, sends the
   * save request, and refreshes when it succeeds. A failed save leaves the
   * list alone and shows the save message.
   */
  function Submitted(s: Store, item: Fields, save: Outcome, list: Outcome): (t: Store)
    ensures t.modal == !s.modal
    ensures t.issued == s.issued + [SaveRequest(item)] + (if save.Resolved? then [ListRequest] else [])
    ensures save.Rejected? ==> t.todoList == s.todoList && t.apiError == SaveError
    ensures save.Resolved? ==> t == Refreshed(s.(modal := !s.modal, issued := s.issued + [SaveRequest(item)]), list)
    ensures t.viewCompleted == s.viewCompleted && t.activeItem == s.activeItem
  {
    var toggled := s.(modal := !s.modal);
    var sent := toggled.(issued := toggled.issued + [SaveRequest(item)]);
    if save.Rejected? then sent.(apiError := SaveError) else Refreshed(sent, list)
  }

  /**
   * `handleDelete(item)`: sends the delete request and refreshes when it
   * succeeds. A failed delete leaves the list alone and shows the delete
   * message; so does a null record, whose `id` cannot be read.
   */
  function Deleted(s: Store, item: Value, del: Outcome, list: Outcome): (t: Store)
    ensures t.issued == s.issued +
      (if item.Null? then [] else [DeleteRequest(item)] + (if del.Resolved? then [ListRequest] else []))
    ensures item.Null? || del.Rejected? ==> t.todoList == s.todoList && t.apiError == DeleteError
    ensures !item.Null? && del.Resolved? ==> t == Refreshed(s.(issued := s.issued + [DeleteRequest(item)]), list)
    ensures t.apiError == DeleteError <==> item.Null? || del.Rejected?
    ensures t.viewCompleted == s.viewCompleted && t.modal == s.modal && t.activeItem == s.activeItem
  {
    if item.Null? then s.(apiError := DeleteError)
    else
      var sent := s.(issued := s.issued + [DeleteRequest(item)]);
      if del.Rejected? then sent.(apiError := DeleteError) else Refreshed(sent, list)
  }

  // ---------------------------------------------------------------------------
  // Properties across transitions

  /** A failed load followed by a successful one clears the banner and shows the new list. */
  lemma RefreshRecovers(s: Store, todos: seq<Value>)
    ensures Refreshed(s, Rejected).todoList == [] && Refreshed(s, Rejected).apiError == LoadError
    ensures Refreshed(Refreshed(s, Rejected), Resolved(Arr(todos))).apiError == ""
    ensures Refreshed(Refreshed(s, Rejected), Resolved(Arr(todos))).todoList == todos
  {
  }

  /**
   * An HTML page from the list endpoint is reported with the generic load
   * message, not with a message of its own, and empties the list.
   */
  lemma HtmlPageShowsLoadError(s: Store, pre: string, marker: string, post: string)
    requires ToLower(marker) == HtmlMarker
    ensures Refreshed(s, Resolved(Str(pre + marker + post))).apiError == LoadError
    ensures Refreshed(s, Resolved(Str(pre + marker + post))).todoList == []
  {
    HtmlRejectedInAnyCase(pre, marker, post);
  }

  /**
   * When the delete succeeds but the refresh after it fails, the banner
   * shows the load message, not the delete message.
   */
  lemma DeleteThenLoadFailure(s: Store, item: Value, ack: Value)
    requires !item.Null?
    ensures Deleted(s, item, Resolved(ack), Rejected).apiError == LoadError
    ensures Deleted(s, item, Resolved(ack), Rejected).todoList == []
  {
  }

  /**
   * One record, incomplete, loaded either as a bare array or wrapped under
   * `results`: the same state, the record under the Incomplete tab and
   * nothing under the Complete tab.
   */
  lemma SingleRecordScenario(s: Store, rec: Value)
    requires rec == Obj([("id", Num(1)), ("title", Str("A")), ("completed", Bool(false))])
    ensures Refreshed(s, Resolved(Obj([("results", Arr([rec]))]))) == Refreshed(s, Resolved(Arr([rec])))
    ensures ItemsToShow(Arr(Refreshed(s, Resolved(Arr([rec]))).todoList), false) == [rec]
    ensures ItemsToShow(Arr(Refreshed(s, Resolved(Arr([rec]))).todoList), true) == []
  {
    assert !IsCompleted(rec);
  }

  /** Every transition keeps the state consistent, given well-formed response bodies. */
  lemma {:induction false} TransitionsKeepConsistent(s: Store, item: Fields, record: Value, call: Outcome, list: Outcome)
    requires Consistent(s)
    requires list.Resolved? ==> WellFormed(list.data)
    ensures Consistent(Refreshed(s, list))
    ensures Consistent(Submitted(s, item, call, list))
    ensures Consistent(Deleted(s, record, call, list))
  {
    if list.Resolved? { NormalizeWellFormed(list.data); }
  }

  // ---------------------------------------------------------------------------
  // The component

  class App {
    var viewCompleted: bool
    var todoList: seq<Value>
    var modal: bool
    var activeItem: Fields
    var apiError: string
    var issued: seq<Request>

    function Model(): Store
      reads this
    {
      Store(viewCompleted, todoList, modal, activeItem, apiError, issued)
    }

    ghost predicate Valid()
      reads this
    {
      Consistent(Model())
    }

    /** Mounting: the initial state, then the first `refreshList`. */
    constructor (list: Outcome)
      requires list.Resolved? ==> WellFormed(list.data)
      ensures Valid() && Model() == Refreshed(Initial, list)
    {
      viewCompleted := false;
      todoList := [];
      modal := false;
      activeItem := EmptyDraft;
      apiError := "";
      issued := [];
      new;
      RefreshList(list);
    }

    method RefreshList(list: Outcome)
      requires Valid() && (list.Resolved? ==> WellFormed(list.data))
      modifies this
      ensures Valid() && Model() == Refreshed(old(Model()), list)
    {
      apiError := "";
      issued := issued + [ListRequest];
      var caught := list.Rejected?;
      if !caught {
        var r := NormalizeTodos(list.data);
        if r.Ok? {
          NormalizeWellFormed(list.data);
          todoList := r.value;
        } else {
          caught := true;
        }
      }
      if caught {
        todoList := [];
        apiError := LoadError;
      }
    }

    method Toggle()
      requires Valid()
      modifies this
      ensures Valid() && Model() == old(Model()).(modal := !old(modal))
    {
      modal := !modal;
    }

    method HandleSubmit(item: Fields, save: Outcome, list: Outcome)
      requires Valid() && (list.Resolved? ==> WellFormed(list.data))
      modifies this
      ensures Valid() && Model() == Submitted(old(Model()), item, save, list)
    {
      Toggle();
      issued := issued + [SaveRequest(item)];
      if save.Rejected? {
        apiError := SaveError;
      } else {
        RefreshList(list);
      }
    }

    method HandleDelete(item: Value, del: Outcome, list: Outcome)
      requires Valid() && (list.Resolved? ==> WellFormed(list.data))
      modifies this
      ensures Valid() && Model() == Deleted(old(Model()), item, del, list)
    {
      if item.Null? {
        // reading `id` of null throws before any request is sent
        apiError := DeleteError;
        return;
      }
      issued := issued + [DeleteRequest(item)];
      if del.Rejected? {
        apiError := DeleteError;
      } else {
        RefreshList(list);
      }
    }

    /** `createItem`: opens the form on an empty draft without an id. */
    method CreateItem()
      requires Valid()
      modifies this
      ensures Valid() && Model() == old(Model()).(activeItem := EmptyDraft, modal := true)
      ensures Get(activeItem, "id") == None
    {
      activeItem := EmptyDraft;
      modal := true;
    }

    /** `editItem(item)`: opens the form on a shallow copy of the record. */
    method EditItem(item: Value)
      requires Valid() && WellFormed(item)
      modifies this
      ensures Valid() && Model() == old(Model()).(activeItem := Spread(item), modal := true)
      ensures item.Obj? ==> forall k :: Get(activeItem, k) == Get(item.fields, k)
    {
      activeItem := Spread(item);
      modal := true;
    }

    /** The "Complete" and "Incomplete" tabs. */
    method SetViewCompleted(flag: bool)
      requires Valid()
      modifies this
      ensures Valid() && Model() == old(Model()).(viewCompleted := flag)
    {
      viewCompleted := flag;
    }

    /**
     * `itemsToShow`: the records whose completion matches the tab, in list
     * order.
     */
    function ItemsShown(): (r: seq<Value>)
      reads this
      ensures forall t :: t in r <==> t in todoList && IsCompleted(t) == viewCompleted
      ensures forall t :: multiset(r)[t] == if IsCompleted(t) == viewCompleted then multiset(todoList)[t] else 0
      ensures IsSubsequence(r, todoList)
    {
      FilterKeepsOrder(todoList, viewCompleted);
      ItemsToShow(Arr(todoList), viewCompleted)
    }
  }
}
