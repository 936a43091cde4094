/**
 * Values shared by the task store: identifiers, task records, transport
 * responses, toast notifications and the way an async thunk settles.
 */
module TaskTypes {

  /** Identifiers are used only as keys and compared for equality. */
  type TaskId = int
  type ColumnId = int
  type BoardId = int

  datatype Option<T> = None | Some(value: T)

  /**
   * A task record as the server returns it. `details` stands for the
   * remaining fields of the record, which the store never reads.
   */
  datatype Task = Task(id: TaskId, title: string, column: ColumnId, details: string)

  /** The payload of a create request; the server assigns the id. */
  datatype NewTask = NewTask(title: string, column: ColumnId, details: string)

  /** A JavaScript error value as the transport rejects with it. */
  datatype HttpError = HttpError(name: string, message: string)

  /** What one transport call comes back with. */
  datatype Response<T> = Ok(value: T) | Failed(error: HttpError)

  datatype ToastKind = Success | Error | Info

  /** A toast action dispatched to the notification slice. */
  datatype Toast = Toast(kind: ToastKind, message: string)

  /**
   * How the promise returned by dispatching an async thunk settles:
   * with its fulfilled action, with a rejected action carrying a value
   * given to `rejectWithValue`, with a rejected action carrying the
   * serialized error's message, or by rejecting outright because a
   * reducer threw while the final action was dispatched.
   */
  datatype Settled<T> =
    | Fulfilled(value: T)
    | RejectedWithValue(payload: string)
    | RejectedWithError(message: string)
    | Threw

  /**
   * `err.toString()` as `Error.prototype.toString` renders it: the name and
   * the message joined by ": ", or whichever of the two is not empty.
   * The rendered text always ends with the message and starts with the name.
   */
  function ErrorText(e: HttpError): (r: string)
    ensures |e.message| <= |r| && r[|r| - |e.message|..] == e.message
    ensures e.name <= r
    ensures e.name != "" && e.message != "" ==> |r| == |e.name| + 2 + |e.message|
    ensures e.name != "" && e.message != "" ==> r[|e.name|..|e.name| + 2] == ": "
    ensures e.name == "" ==> r == e.message
    ensures e.message == "" ==> r == e.name
  {
    if e.name == "" then e.message
    else if e.message == "" then e.name
    else e.name + ": " + e.message
  }
}
