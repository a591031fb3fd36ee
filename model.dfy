/**
 * The records the download service keeps: a task is a batch of URLs, each
 * URL is a file with its own status and outcome.
 */
module Model {

  /** The four status strings ("pending", "running", "done", "failed"). */
  datatype Status = Pending | Running | Done | Failed

  /**
   * One URL of a task. `path` and `error` are the empty string while unset,
   * which is also what the JSON encoding omits.
   */
  datatype File = File(url: string, status: Status, path: string, error: string)

  /**
   * A task; `createdAt` is the creation instant, kept opaque. Tasks only ever
   * carry Pending, Running or Done; Failed is a file-level status.
   */
  datatype Task = Task(id: string, createdAt: string, status: Status, files: seq<File>)

  /** A file the worker has finished with, one way or the other. */
  predicate Settled(f: File) {
    f.status == Done || f.status == Failed
  }

  /** The "all files done" rule the worker applies after every download. */
  predicate AllFilesDone(files: seq<File>) {
    forall j :: 0 <= j < |files| ==> files[j].status == Done
  }

  /** No download of this task is in flight. */
  predicate NoneRunning(t: Task) {
    forall j :: 0 <= j < |t.files| ==> t.files[j].status != Running
  }

  /** Every file of the task is done or failed. */
  predicate AllSettled(t: Task) {
    forall j :: 0 <= j < |t.files| ==> Settled(t.files[j])
  }

  /** The invariant the worker keeps: a task is done only when all its files are. */
  predicate Consistent(t: Task) {
    t.status == Done ==> AllFilesDone(t.files)
  }
}
