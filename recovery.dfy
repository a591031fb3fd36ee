/**
 * Crash recovery (storage.go, loadSnapshot): a download that was in flight
 * when the process stopped counts as lost, so every running file and task is
 * put back to pending, and the loaded tasks are merged into the registry.
 */
module Recovery {
  import opened Model

  /** What reading and decoding the state file gave. */
  datatype Stored =
    | Unreadable                                  // the file could not be read (first run)
    | Malformed(msg: string)                      // it was read but did not decode
    | Decoded(snapshot: map<string, Task>)        // the decoded map from id to task

  /** A running file goes back to pending. */
  function Reset(f: File): File
  {
    if f.status == Running then f.(status := Pending) else f
  }

  /** Reset applied to every file, in order. */
  function ResetAll(files: seq<File>): seq<File>
  {
    if files == [] then [] else ResetAll(files[..|files| - 1]) + [Reset(files[|files| - 1])]
  }

  /** A loaded task after the reset of its files and its own status. */
  function Recovered(t: Task): Task
  {
    t.(files := ResetAll(t.files), status := if t.status == Running then Pending else t.status)
  }

  /** The live registry after the merge: loaded ids overwrite, the others stay. */
  function Restore(live: map<string, Task>, loaded: map<string, Task>): (r: map<string, Task>)
    ensures r.Keys == live.Keys + loaded.Keys
    ensures forall k :: k in loaded ==> r[k] == Recovered(loaded[k])
    ensures forall k :: k in live && k !in loaded ==> r[k] == live[k]
  {
    live + map k | k in loaded :: Recovered(loaded[k])
  }

  /** The loop of loadSnapshot over one task's files, then its status. */
  method RecoverTask(v: Task) returns (r: Task)
    ensures r == Recovered(v)
  {
    var files := v.files;
    for i := 0 to |files|
      invariant |files| == |v.files|
      invariant forall j :: 0 <= j < i ==> files[j] == Reset(v.files[j])
      invariant forall j :: i <= j < |files| ==> files[j] == v.files[j]
    {
      if files[i].status == Running {
        files := files[i := files[i].(status := Pending)];
      }
    }
    ResetAllAt(v.files);
    assert files == ResetAll(v.files);
    r := v.(files := files);
    if r.status == Running {
      r := r.(status := Pending);
    }
  }

  lemma {:induction false} ResetAllAt(files: seq<File>)
    ensures |ResetAll(files)| == |files|
    ensures forall j :: 0 <= j < |files| ==> ResetAll(files)[j] == Reset(files[j])
  {
    if files != [] {
      ResetAllAt(files[..|files| - 1]);
    }
  }

  /**
   * Recovery keeps every URL, path, error and the number of files; running
   * becomes pending and every other status is kept, for files and the task.
   */
  lemma RecoveredPreserves(t: Task)
    ensures var u := Recovered(t);
      && u.id == t.id && u.createdAt == t.createdAt && |u.files| == |t.files|
      && (t.status == Running ==> u.status == Pending)
      && (t.status != Running ==> u.status == t.status)
      && forall j :: 0 <= j < |t.files| ==>
           && u.files[j].url == t.files[j].url
           && u.files[j].path == t.files[j].path
           && u.files[j].error == t.files[j].error
           && (t.files[j].status == Running ==> u.files[j].status == Pending)
           && (t.files[j].status != Running ==> u.files[j].status == t.files[j].status)
  {
    ResetAllAt(t.files);
  }

  /** Nothing recovered is running: no task and no file. */
  lemma RecoveredIdle(t: Task)
    ensures Recovered(t).status != Running
    ensures NoneRunning(Recovered(t))
  {
    ResetAllAt(t.files);
  }

  /** Recovering twice is recovering once. */
  lemma RecoveredIdempotent(t: Task)
    ensures Recovered(Recovered(t)) == Recovered(t)
  {
    ResetAllAt(t.files);
    ResetAllAt(ResetAll(t.files));
    assert ResetAll(ResetAll(t.files)) == ResetAll(t.files);
  }

  /** Recovery never breaks the rule that a done task has only done files. */
  lemma RecoveredConsistent(t: Task)
    requires Consistent(t)
    ensures Consistent(Recovered(t))
  {
    ResetAllAt(t.files);
  }

  /** After the merge, no loaded task has a running status or a running file. */
  lemma RestoredIdle(live: map<string, Task>, loaded: map<string, Task>)
    ensures forall k :: k in loaded ==>
              Restore(live, loaded)[k].status != Running && NoneRunning(Restore(live, loaded)[k])
  {
    forall k | k in loaded
      ensures Restore(live, loaded)[k].status != Running && NoneRunning(Restore(live, loaded)[k])
    {
      RecoveredIdle(loaded[k]);
    }
  }
}
