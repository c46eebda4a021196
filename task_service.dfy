/** The task service: each call sends one request and reshapes the `data`
    field of the response envelope. The request itself is not modelled; the
    envelope's `data` is the input. */
module TaskService {
  import opened Js
  import opened TaskUtils

  /** The JSON value found in an envelope's `data` field, as the services
      inspect it: an array of records, one record, null, undefined, or a
      primitive (string, number, boolean), which is never an array or a
      record. */
  datatype Payload<T> =
    | Array(items: seq<T>)
    | Object(value: T)
    | Null
    | Undefined
    | Primitive

  /** `Array.isArray(data) ? data[0] : data`, shared by the single-item calls
      of the task and category services. Indexing an empty array gives
      undefined. */
  function FirstOrSelf<T>(data: Payload<T>): (r: Payload<T>)
    ensures !r.Array?
    ensures data.Array? && |data.items| > 0 ==> r == Object(data.items[0])
    ensures data.Array? && |data.items| == 0 ==> r == Undefined
    ensures !data.Array? ==> r == data
  {
    match data
    case Array(items) => if |items| > 0 then Object(items[0]) else Undefined
    case _ => data
  }

  datatype SubTask = SubTask(description: string, isCompleted: bool)

  datatype Task = Task(
    id: string,
    title: string,
    description: string,
    category: string,
    priority: BackendPriority,
    targetDate: string,
    status: BackendStatus,
    progress: int,
    userId: string,
    subTasks: Option<seq<SubTask>>,
    createdAt: string,
    updatedAt: string)

  /** The list normalisation of `getAllTasks` and `getTasksByUserId`: an array
      as it is, one record wrapped, and anything else (null, undefined, a
      primitive) as the empty list. */
  function TaskList(data: Payload<Task>): (r: seq<Task>)
    ensures forall t :: t in r <==> (data.Array? && t in data.items) || data == Object(t)
    ensures !data.Array? ==> |r| <= 1
  {
    match data
    case Array(items) => items
    case Object(t) => [t]
    case _ => []
  }

  /** An array payload is kept element for element, in order and with its
      repetitions, and the list is empty exactly when the payload carries no
      record. */
  lemma TaskListKeepsRecords(data: Payload<Task>)
    ensures data.Array? ==> TaskList(data) == data.items
    ensures TaskList(data) == [] <==> !data.Object? && (!data.Array? || data.items == [])
  {
  }

  /** Normalising is a projection: re-wrapping the list as an array payload
      and normalising again changes nothing. */
  lemma TaskListIdempotent(data: Payload<Task>)
    ensures TaskList(Array(TaskList(data))) == TaskList(data)
  {
  }

  /** The single-item calls (`getTaskById`, `createTask`, `updateTask`) and the
      list calls agree: whenever the list is non-empty, the single item is its
      first element, and when the list is empty the single item is not a
      record. */
  lemma SingleAgreesWithList(data: Payload<Task>)
    ensures |TaskList(data)| > 0 ==> FirstOrSelf(data) == Object(TaskList(data)[0])
    ensures |TaskList(data)| == 0 ==> !FirstOrSelf(data).Object?
  {
  }
}
