/** The wish form used to create a wish or to edit one: its defaults, the
    subtask list editing, the category default after loading, validation, and
    the request it sends. */
module AddWishModal {
  import opened Js
  import opened TaskUtils
  import opened TaskService
  import opened CategoryService

  const DefaultCategory := "Health"
  const FallbackCategories: seq<string> := ["Health", "Career", "Personal", "Travel"]
  const TitleRequiredMessage := "Title is required"
  const DescriptionRequiredMessage := "Description is required"
  const TargetDateRequiredMessage := "Target date is required"
  const SaveFallbackMessage := "Failed to save wish"

  /** The form's fields, priority and status in their frontend form. */
  datatype WishForm = WishForm(
    title: string,
    description: string,
    category: string,
    priority: FrontendPriority,
    targetDate: string,
    status: FrontendStatus)

  /** The form of a new wish. */
  const BlankForm := WishForm("", "", DefaultCategory, High, "", InProgress)

  /** What create and update send: priority and status in backend form. */
  datatype TaskRequest = TaskRequest(
    title: string,
    description: string,
    category: string,
    priority: BackendPriority,
    targetDate: string,
    status: BackendStatus,
    subTasks: seq<SubTask>)

  datatype WishCall = CreateTask(request: TaskRequest) | UpdateTask(id: string, request: TaskRequest)

  /** `addSubTask`: one empty, unfinished subtask at the end. */
  function AddSubTask(subTasks: seq<SubTask>): (r: seq<SubTask>)
    ensures |r| == |subTasks| + 1 && r[..|subTasks|] == subTasks
    ensures r[|subTasks|] == SubTask("", false)
  {
    subTasks + [SubTask("", false)]
  }

  /** `subTasks.filter((_, i) => i !== index)`, on the part of the list that
      starts at position `offset`. */
  function DropPosition(subTasks: seq<SubTask>, index: int, offset: int): (r: seq<SubTask>)
    ensures offset <= index < offset + |subTasks| ==>
              r == subTasks[..index - offset] + subTasks[index - offset + 1..]
    ensures !(offset <= index < offset + |subTasks|) ==> r == subTasks
    decreases subTasks
  {
    if subTasks == [] then []
    else
      var rest := DropPosition(subTasks[1..], index, offset + 1);
      if offset == index then rest else [subTasks[0]] + rest
  }

  /** `removeSubTask(index)`: the list without the element at `index`, the
      others in their order; an index outside the list removes nothing. */
  function RemoveSubTask(subTasks: seq<SubTask>, index: int): (r: seq<SubTask>)
    ensures 0 <= index < |subTasks| ==>
              |r| == |subTasks| - 1 && r == subTasks[..index] + subTasks[index + 1..]
    ensures !(0 <= index < |subTasks|) ==> r == subTasks
  {
    DropPosition(subTasks, index, 0)
  }

  /** Removing the subtask just added gives the list back. */
  lemma RemoveUndoesAdd(subTasks: seq<SubTask>)
    ensures RemoveSubTask(AddSubTask(subTasks), |subTasks|) == subTasks
  {
    assert AddSubTask(subTasks)[..|subTasks|] == subTasks;
  }

  /** The field an `updateSubTask` call sets. */
  datatype SubTaskEdit = SetDescription(description: string) | SetCompleted(isCompleted: bool)

  /** One subtask with one field replaced. */
  function Edited(s: SubTask, edit: SubTaskEdit): (r: SubTask)
    ensures edit.SetDescription? ==> r.description == edit.description && r.isCompleted == s.isCompleted
    ensures edit.SetCompleted? ==> r.isCompleted == edit.isCompleted && r.description == s.description
  {
    match edit
    case SetDescription(d) => s.(description := d)
    case SetCompleted(c) => s.(isCompleted := c)
  }

  /** A subtask the filter keeps: its description is not blank. */
  predicate Kept(s: SubTask) {
    Trim(s.description) != ""
  }

  /** A kept subtask as it is sent: description trimmed, completion kept. */
  function Cleaned(s: SubTask): SubTask {
    SubTask(Trim(s.description), s.isCompleted)
  }

  /** `validSubTasks`: the kept subtasks, in their order, cleaned. */
  function ValidSubTasks(subTasks: seq<SubTask>): (r: seq<SubTask>)
    ensures |r| <= |subTasks|
  {
    FilterMap(subTasks, Kept, Cleaned)
  }

  /** Exactly the kept subtasks are sent, cleaned: every kept one is there,
      every one sent comes from a kept one and has a non-blank, trimmed
      description; the order is kept, and all are sent when none is blank. */
  lemma ValidSubTasksExactly(subTasks: seq<SubTask>)
    ensures forall i :: 0 <= i < |subTasks| && Kept(subTasks[i]) ==> Cleaned(subTasks[i]) in ValidSubTasks(subTasks)
    ensures forall t :: t in ValidSubTasks(subTasks) ==>
              (exists i :: 0 <= i < |subTasks| && Kept(subTasks[i]) && t == Cleaned(subTasks[i])) &&
              t.description != "" && Trim(t.description) == t.description
    ensures (forall i :: 0 <= i < |subTasks| ==> Kept(subTasks[i])) ==> |ValidSubTasks(subTasks)| == |subTasks|
    ensures forall a, b :: subTasks == a + b ==> ValidSubTasks(subTasks) == ValidSubTasks(a) + ValidSubTasks(b)
  {
    forall i | 0 <= i < |subTasks| && Kept(subTasks[i])
      ensures Cleaned(subTasks[i]) in ValidSubTasks(subTasks)
    {
      FilterMapKeeps(subTasks, Kept, Cleaned, i);
    }
    var r := ValidSubTasks(subTasks);
    forall t | t in r
      ensures exists i :: 0 <= i < |subTasks| && Kept(subTasks[i]) && t == Cleaned(subTasks[i])
      ensures t.description != "" && Trim(t.description) == t.description
    {
      var k :| 0 <= k < |r| && r[k] == t;
      var i := FilterMapSource(subTasks, Kept, Cleaned, k);
      TrimIdempotent(subTasks[i].description);
    }
    FilterMapExtremes(subTasks, Kept, Cleaned);
    forall a, b | subTasks == a + b
      ensures ValidSubTasks(subTasks) == ValidSubTasks(a) + ValidSubTasks(b)
    {
      FilterMapAppend(a, b, Kept, Cleaned);
    }
  }

  /** Filtering twice is filtering once: the submitted list is its own
      filtered form. */
  lemma ValidSubTasksIdempotent(subTasks: seq<SubTask>)
    ensures ValidSubTasks(ValidSubTasks(subTasks)) == ValidSubTasks(subTasks)
  {
    forall s | Kept(s)
      ensures Kept(Cleaned(s)) && Cleaned(Cleaned(s)) == Cleaned(s)
    {
      TrimIdempotent(s.description);
    }
    FilterMapIdempotent(subTasks, Kept, Cleaned);
  }

  /** `handleSubmit`'s checks, in order: the trimmed title, the trimmed
      description, then the target date; only the first failure is reported. */
  function ValidateWish(form: WishForm): (e: Option<string>)
    ensures e == Some(TitleRequiredMessage) <==> Blank(form.title)
    ensures e == Some(DescriptionRequiredMessage) <==> !Blank(form.title) && Blank(form.description)
    ensures e == Some(TargetDateRequiredMessage) <==>
              !Blank(form.title) && !Blank(form.description) && form.targetDate == ""
    ensures e.None? <==> !Blank(form.title) && !Blank(form.description) && form.targetDate != ""
  {
    TrimEmptyIffBlank(form.title);
    TrimEmptyIffBlank(form.description);
    if Trim(form.title) == "" then Some(TitleRequiredMessage)
    else if Trim(form.description) == "" then Some(DescriptionRequiredMessage)
    else if form.targetDate == "" then Some(TargetDateRequiredMessage)
    else None
  }

  /** The form filled from the wish being edited. `dateOnly` stands for the
      date part of the wish's target date as an ISO string. */
  function FormFromWish(wish: Task, dateOnly: string): (form: WishForm)
    ensures form.title == wish.title && form.description == wish.description && form.category == wish.category
    ensures PriorityToBackend(form.priority) == wish.priority && StatusToBackend(form.status) == wish.status
    ensures wish.targetDate == "" ==> form.targetDate == ""
    ensures wish.targetDate != "" ==> form.targetDate == dateOnly
  {
    PriorityRoundTrips(wish.priority, High);
    StatusRoundTrips(wish.status, NotStarted);
    WishForm(wish.title, wish.description, wish.category, PriorityToFrontend(wish.priority),
             if wish.targetDate != "" then dateOnly else "", StatusToFrontend(wish.status))
  }

  /** The subtasks of the wish being edited, none when it has no list. */
  function SubTasksOf(wish: Task): (r: seq<SubTask>)
    ensures wish.subTasks.Some? ==> r == wish.subTasks.value
    ensures wish.subTasks.None? ==> r == []
  {
    match wish.subTasks
    case Some(s) => s
    case None => []
  }

  /** The request body: the form's title, description and category as typed,
      priority and status converted to backend form, the ISO target date and
      the filtered subtasks. */
  function RequestFromForm(form: WishForm, subTasks: seq<SubTask>, isoDate: string): (req: TaskRequest)
    ensures req.title == form.title && req.description == form.description && req.category == form.category
    ensures PriorityToFrontend(req.priority) == form.priority && StatusToFrontend(req.status) == form.status
    ensures req.targetDate == isoDate
    ensures req.subTasks == ValidSubTasks(subTasks)
  {
    PriorityRoundTrips(HIGH, form.priority);
    StatusRoundTrips(NOT_STARTED, form.status);
    TaskRequest(form.title, form.description, form.category, PriorityToBackend(form.priority), isoDate,
                StatusToBackend(form.status), ValidSubTasks(subTasks))
  }

  /** Saving an edit without changing anything sends back the wish's own
      title, description, category, backend priority and backend status. */
  lemma UnchangedEditResubmits(wish: Task, dateOnly: string, isoDate: string)
    ensures var req := RequestFromForm(FormFromWish(wish, dateOnly), SubTasksOf(wish), isoDate);
            req.title == wish.title && req.description == wish.description &&
            req.category == wish.category && req.priority == wish.priority && req.status == wish.status
  {
    var form := FormFromWish(wish, dateOnly);
    PriorityRoundTrips(wish.priority, form.priority);
    StatusRoundTrips(wish.status, form.status);
  }

  /** The category after the list has loaded: the default "Health" gives way
      to the first loaded name when the non-empty list lacks it. */
  function CategoryDefault(current: string, names: seq<string>): (c: string)
    ensures c == current || (|names| > 0 && c == names[0])
    ensures c != current <==> current == DefaultCategory && |names| > 0 && DefaultCategory !in names
  {
    if |names| > 0 && current == DefaultCategory && DefaultCategory !in names then names[0] else current
  }

  /** A category the user already chose, or a list holding "Health", is never
      overridden; an overriding choice is one of the loaded names. */
  lemma CategoryDefaultKeepsChoice(current: string, names: seq<string>)
    ensures current != DefaultCategory ==> CategoryDefault(current, names) == current
    ensures DefaultCategory in names ==> CategoryDefault(current, names) == current
    ensures CategoryDefault(current, names) != current ==> CategoryDefault(current, names) in names
  {
  }

  /** The names the modal takes from `getAllCategories`: none when the
      request fails, or when the list holds an element that is not a record
      (reading its name throws); otherwise every record's name, in order. */
  function LoadedNames(fetched: Option<Payload<Category>>): (r: Option<seq<string>>)
    ensures fetched.None? ==> r.None?
    ensures fetched.Some? ==> (r.Some? <==> forall p :: p in CategoryList(fetched.value) ==> p.Object?)
    ensures r.Some? ==> var list := CategoryList(fetched.value);
              |r.value| == |list| && forall k :: 0 <= k < |list| ==> r.value[k] == list[k].value.categoryName
  {
    match fetched
    case None => None
    case Some(data) =>
      var list := CategoryList(data);
      if forall p :: p in list ==> p.Object? then
        Some(seq(|list|, k requires 0 <= k < |list| => list[k].value.categoryName))
      else None
  }

  /** A null payload becomes a one-element list holding null, so the modal
      falls back to its built-in list; an array of records gives their names. */
  lemma NullPayloadFallsBack(cats: seq<Category>)
    ensures LoadedNames(Some(Null)) == None
    ensures LoadedNames(Some(Array(cats))).Some?
    ensures |LoadedNames(Some(Array(cats))).value| == |cats|
  {
    assert Null in CategoryList(Null);
    var list := CategoryList(Array(cats));
    forall p | p in list
      ensures p.Object?
    {
      var k :| 0 <= k < |list| && list[k] == p;
    }
  }

  /** How a save settled: the thrown value, an `Error` with its message or
      anything else. */
  datatype SaveOutcome = Saved | FailedWithError(message: string) | FailedWithValue

  /** `err instanceof Error ? err.message : 'Failed to save wish'`. */
  function SaveErrorMessage(outcome: SaveOutcome): (m: string)
    requires !outcome.Saved?
    ensures outcome.FailedWithError? ==> m == outcome.message
    ensures outcome.FailedWithValue? ==> m == SaveFallbackMessage
  {
    if outcome.FailedWithError? then outcome.message else SaveFallbackMessage
  }

  /** The call a save makes: an update of the wish being edited, else a
      creation. */
  function SaveCall(editing: Option<Task>, req: TaskRequest): (c: WishCall)
    ensures editing.Some? <==> c.UpdateTask?
    ensures editing.Some? ==> c.id == editing.value.id
    ensures c.request == req
  {
    if editing.Some? then UpdateTask(editing.value.id, req) else CreateTask(req)
  }

  /** What the modal tells its parent. */
  datatype Notice = SuccessNotice | CloseNotice

  /** After a save: `onSuccess` when the parent gave one, then `onClose`. */
  function SavedNotices(hasOnSuccess: bool): (ns: seq<Notice>)
    ensures |ns| == (if hasOnSuccess then 2 else 1) && ns[|ns| - 1] == CloseNotice
    ensures SuccessNotice in ns <==> hasOnSuccess
  {
    if hasOnSuccess then [SuccessNotice, CloseNotice] else [CloseNotice]
  }

  class WishModal {
    var form: WishForm
    var subTasks: seq<SubTask>
    var categories: seq<string>
    var error: Option<string>
    var calls: seq<WishCall>
    var notices: seq<Notice>
    /** The wish being edited, if any. */
    const editing: Option<Task>
    /** Whether the parent passed `onSuccess`. */
    const hasOnSuccess: bool

    constructor (editing: Option<Task>, hasOnSuccess: bool)
      ensures this.editing == editing && this.hasOnSuccess == hasOnSuccess
      ensures form == BlankForm && subTasks == [] && categories == [] && error.None?
      ensures calls == [] && notices == []
    {
      this.editing, this.hasOnSuccess := editing, hasOnSuccess;
      form, subTasks, categories, error := BlankForm, [], [], None;
      calls, notices := [], [];
    }

    /** The edit/reset effect when the modal opens: the wish's own values, or
        the blank form with no subtasks; the error is cleared either way. */
    method Open(dateOnly: string)
      modifies this`form, this`subTasks, this`error
      ensures editing.Some? ==> form == FormFromWish(editing.value, dateOnly) && subTasks == SubTasksOf(editing.value)
      ensures editing.None? ==> form == BlankForm && subTasks == []
      ensures error.None?
    {
      if editing.Some? {
        form := FormFromWish(editing.value, dateOnly);
        subTasks := SubTasksOf(editing.value);
      } else {
        form := BlankForm;
        subTasks := [];
      }
      error := None;
    }

    /** The category-loading effect. */
    method LoadCategories(fetched: Option<Payload<Category>>)
      modifies this`categories, this`form
      ensures var names := LoadedNames(fetched);
              names.Some? ==>
                categories == names.value &&
                form == old(form).(category := CategoryDefault(old(form).category, names.value))
      ensures LoadedNames(fetched).None? ==> categories == FallbackCategories && form == old(form)
    {
      var names := LoadedNames(fetched);
      if names.None? {
        categories := FallbackCategories;
        return;
      }
      categories := names.value;
      if |names.value| > 0 && form.category == DefaultCategory && DefaultCategory !in names.value {
        form := form.(category := names.value[0]);
      }
    }

    method AddSubTaskRow()
      modifies this`subTasks
      ensures subTasks == AddSubTask(old(subTasks))
    {
      subTasks := subTasks + [SubTask("", false)];
    }

    method RemoveSubTaskRow(index: int)
      modifies this`subTasks
      ensures subTasks == RemoveSubTask(old(subTasks), index)
    {
      subTasks := RemoveSubTask(subTasks, index);
    }

    /** `updateSubTask`: one field of the subtask at `index` changes; the length
        and every other subtask stay as they were. */
    method UpdateSubTask(index: int, edit: SubTaskEdit)
      requires 0 <= index < |subTasks|
      modifies this`subTasks
      ensures |subTasks| == |old(subTasks)|
      ensures subTasks[index] == Edited(old(subTasks)[index], edit)
      ensures forall k :: 0 <= k < |subTasks| && k != index ==> subTasks[k] == old(subTasks)[k]
    {
      var updated := subTasks;
      updated := updated[index := Edited(updated[index], edit)];
      subTasks := updated;
    }

    /** The saving part of `handleSubmit`: one create or update call with the
        request; success tells the parent and closes, a failure shows its
        message. */
    method Save(req: TaskRequest, outcome: SaveOutcome)
      modifies this`error, this`calls, this`notices
      ensures calls == old(calls) + [SaveCall(editing, req)]
      ensures outcome.Saved? ==> error.None? && notices == old(notices) + SavedNotices(hasOnSuccess)
      ensures !outcome.Saved? ==> error == Some(SaveErrorMessage(outcome)) && notices == old(notices)
    {
      calls := calls + [SaveCall(editing, req)];
      if outcome.Saved? {
        error := None;
        notices := notices + SavedNotices(hasOnSuccess);
      } else {
        error := Some(SaveErrorMessage(outcome));
      }
    }

    /** `handleSubmit`. A failed check shows its message and sends nothing;
        a target date that cannot be converted throws before any call;
        otherwise the wish is created or, when one is being edited, updated,
        with the filtered subtasks. */
    method Submit(outcome: SaveOutcome, isoDate: Result<string>)
      modifies this`error, this`calls, this`notices
      ensures var checked := ValidateWish(old(form));
              checked.Some? ==> error == checked && calls == old(calls) && notices == old(notices)
      ensures var checked := ValidateWish(old(form));
              checked.None? && isoDate.Thrown? ==>
                error == Some(isoDate.message) && calls == old(calls) && notices == old(notices)
      ensures var checked := ValidateWish(old(form));
              checked.None? && isoDate.Ok? ==>
                calls == old(calls) + [SaveCall(editing, RequestFromForm(old(form), old(subTasks), isoDate.value))]
      ensures var checked := ValidateWish(old(form));
              checked.None? && isoDate.Ok? && outcome.Saved? ==>
                error.None? && notices == old(notices) + SavedNotices(hasOnSuccess)
      ensures var checked := ValidateWish(old(form));
              checked.None? && isoDate.Ok? && !outcome.Saved? ==>
                error == Some(SaveErrorMessage(outcome)) && notices == old(notices)
    {
      var checked := ValidateWish(form);
      if checked.Some? {
        error := checked;
        return;
      }
      if isoDate.Thrown? {
        error := Some(isoDate.message);
        return;
      }
      var req := RequestFromForm(form, subTasks, isoDate.value);
      Save(req, outcome);
    }
  }
}
