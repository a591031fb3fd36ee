/**
 * The worker's state machine (download.go, worker): what one file step does
 * to a task, and what one full pass over a snapshot of the registry does.
 * The methods that run these steps on the live registry are in Registry.
 */
module Worker {
  import opened Wrappers
  import opened Model

  /** Starting file i: it becomes running, and so does its task if it was pending. */
  function Started(t: Task, i: nat): Task
    requires i < |t.files|
  {
    t.(status := if t.status == Pending then Running else t.status,
       files := t.files[i := t.files[i].(status := Running)])
  }

  /** The outcome of a download written into its file. */
  function Recorded(f: File, outcome: Result<string, string>): File
  {
    match outcome
    case Err(e) => f.(status := Failed, error := e)
    case Ok(p) => f.(status := Done, path := p)
  }

  /** The "all files done" rule: the task becomes done, or keeps its status. */
  function Settle(t: Task): Task
  {
    if AllFilesDone(t.files) then t.(status := Done) else t
  }

  /** The critical section after a download: record the outcome, then settle the task. */
  function Finished(t: Task, i: nat, outcome: Result<string, string>): Task
    requires i < |t.files|
  {
    Settle(t.(files := t.files[i := Recorded(t.files[i], outcome)]))
  }

  /**
   * The downloads of one pass: the outcome of fetching `url` when it is the
   * k-th download of the pass (counting from 0).
   */
  type Fetch = (string, nat) -> Result<string, string>

  /** One turn of the inner loop on file i of t, after k downloads. */
  function StepFile(t: Task, i: nat, fetch: Fetch, k: nat): (Task, nat)
    requires i < |t.files|
  {
    if t.files[i].status != Pending then (t, k)
    else (Finished(Started(t, i), i, fetch(t.files[i].url, k)), k + 1)
  }

  /** The inner loop's first n turns on t, starting after k downloads. */
  function RunFiles(t: Task, n: nat, fetch: Fetch, k: nat): (r: (Task, nat))
    requires n <= |t.files|
    ensures |r.0.files| == |t.files|
    ensures r.1 >= k
  {
    if n == 0 then (t, k)
    else
      var r := RunFiles(t, n - 1, fetch, k);
      StepFile(r.0, n - 1, fetch, r.1)
  }

  /** A pass over the snapshot `order`; ids missing from the map are skipped. */
  function Pass(m: map<string, Task>, order: seq<string>, fetch: Fetch): (r: (map<string, Task>, nat))
    ensures r.0.Keys == m.Keys
  {
    if order == [] then (m, 0)
    else
      var p := Pass(m, order[..|order| - 1], fetch);
      var id := order[|order| - 1];
      if id in p.0 then
        var r := RunFiles(p.0[id], |p.0[id].files|, fetch, p.1);
        (p.0[id := r.0], r.1)
      else p
  }

  /** allDone: the flag loop over the files, stopping at the first one not done. */
  method AllDone(files: seq<File>) returns (allDone: bool)
    ensures allDone <==> AllFilesDone(files)
  {
    allDone := true;
    for j := 0 to |files|
      invariant allDone
      invariant forall j' :: 0 <= j' < j ==> files[j'].status == Done
    {
      if files[j].status != Done {
        allDone := false;
        break;
      }
    }
  }

  /**
   * What a pass may do to a task: the same id, creation time, URLs and number
   * of files, and every file that was already done or failed is left alone.
   */
  predicate Advances(t: Task, u: Task) {
    && u.id == t.id && u.createdAt == t.createdAt
    && |u.files| == |t.files|
    && (forall j :: 0 <= j < |t.files| ==> u.files[j].url == t.files[j].url)
    && (forall j :: 0 <= j < |t.files| && Settled(t.files[j]) ==> u.files[j] == t.files[j])
  }

  /** Starting a file touches that file's status and the task's, nothing else. */
  lemma StartedEffect(t: Task, i: nat)
    requires i < |t.files|
    ensures var u := Started(t, i);
      && |u.files| == |t.files|
      && u.files[i] == t.files[i].(status := Running)
      && (forall j :: 0 <= j < |t.files| && j != i ==> u.files[j] == t.files[j])
      && (t.status == Pending ==> u.status == Running)
      && (t.status != Pending ==> u.status == t.status)
      && u.id == t.id && u.createdAt == t.createdAt
  {
  }

  /**
   * After a download: on an error the file is failed with that message and
   * its path untouched; on success it is done with the path and its error
   * untouched. No other file changes, and the task is done exactly when all
   * its files are, otherwise it keeps its status.
   */
  lemma FinishedEffect(t: Task, i: nat, outcome: Result<string, string>)
    requires i < |t.files|
    ensures var u := Finished(t, i, outcome);
      && |u.files| == |t.files|
      && (forall j :: 0 <= j < |t.files| && j != i ==> u.files[j] == t.files[j])
      && (outcome.Err? ==> u.files[i] == t.files[i].(status := Failed, error := outcome.error))
      && (outcome.Ok? ==> u.files[i] == t.files[i].(status := Done, path := outcome.value))
      && (AllFilesDone(u.files) ==> u.status == Done)
      && (!AllFilesDone(u.files) ==> u.status == t.status)
      && u.id == t.id && u.createdAt == t.createdAt
  {
  }

  /**
   * In the worker, a task whose file is running is not done; after the
   * outcome it is done exactly when all its files are. So a failed outcome,
   * or any other failed file, keeps it from being done.
   */
  lemma FinishedDoneIff(t: Task, i: nat, outcome: Result<string, string>)
    requires i < |t.files| && t.files[i].status == Running && Consistent(t)
    ensures Finished(t, i, outcome).status == Done <==> AllFilesDone(Finished(t, i, outcome).files)
    ensures outcome.Err? ==> Finished(t, i, outcome).status != Done
    ensures (exists j :: 0 <= j < |t.files| && t.files[j].status == Failed) ==>
              Finished(t, i, outcome).status != Done
    ensures Consistent(Finished(t, i, outcome))
  {
    var u := Finished(t, i, outcome);
    if exists j :: 0 <= j < |t.files| && t.files[j].status == Failed {
      var j :| 0 <= j < |t.files| && t.files[j].status == Failed;
      assert j != i;
      assert u.files[j].status == Failed;
    }
    if outcome.Err? {
      assert u.files[i].status == Failed;
    }
  }

  /** A step only advances the task and touches no file but the i-th. */
  lemma StepFileFrame(t: Task, i: nat, fetch: Fetch, k: nat)
    requires i < |t.files|
    ensures Advances(t, StepFile(t, i, fetch, k).0)
    ensures forall j :: 0 <= j < |t.files| && j != i ==> StepFile(t, i, fetch, k).0.files[j] == t.files[j]
  {
  }

  /** A step skips a file that is not pending and settles one that is, with one download. */
  lemma StepFileSettles(t: Task, i: nat, fetch: Fetch, k: nat)
    requires i < |t.files|
    ensures t.files[i].status == Pending ==>
              Settled(StepFile(t, i, fetch, k).0.files[i]) && StepFile(t, i, fetch, k).1 == k + 1
    ensures t.files[i].status != Pending ==> StepFile(t, i, fetch, k) == (t, k)
  {
  }

  /** A step keeps a task consistent. */
  lemma StepFileConsistent(t: Task, i: nat, fetch: Fetch, k: nat)
    requires i < |t.files| && Consistent(t)
    ensures Consistent(StepFile(t, i, fetch, k).0)
  {
    if t.files[i].status == Pending {
      var s := Started(t, i);
      assert !AllFilesDone(t.files) by { assert t.files[i].status != Done; }
      assert s.status != Done;
      FinishedDoneIff(s, i, fetch(t.files[i].url, k));
    }
  }

  lemma AdvancesTransitive(t: Task, u: Task, w: Task)
    requires Advances(t, u) && Advances(u, w)
    ensures Advances(t, w)
  {
  }

  /** The inner loop only advances a task, and leaves the files after the n-th alone. */
  lemma {:induction false} RunFilesAdvances(t: Task, n: nat, fetch: Fetch, k: nat)
    requires n <= |t.files|
    ensures Advances(t, RunFiles(t, n, fetch, k).0)
    ensures forall j :: n <= j < |t.files| ==> RunFiles(t, n, fetch, k).0.files[j] == t.files[j]
  {
    if n > 0 {
      RunFilesAdvances(t, n - 1, fetch, k);
      var r := RunFiles(t, n - 1, fetch, k);
      var w := StepFile(r.0, n - 1, fetch, r.1).0;
      assert RunFiles(t, n, fetch, k).0 == w;
      StepFileFrame(r.0, n - 1, fetch, r.1);
      AdvancesTransitive(t, r.0, w);
    }
  }

  /** With no download in flight, the inner loop's first n files end done or failed. */
  lemma {:induction false} RunFilesSettles(t: Task, n: nat, fetch: Fetch, k: nat)
    requires n <= |t.files| && NoneRunning(t)
    ensures forall j :: 0 <= j < n ==> Settled(RunFiles(t, n, fetch, k).0.files[j])
  {
    if n > 0 {
      RunFilesSettles(t, n - 1, fetch, k);
      RunFilesAdvances(t, n - 1, fetch, k);
      var r := RunFiles(t, n - 1, fetch, k);
      var w := StepFile(r.0, n - 1, fetch, r.1).0;
      assert RunFiles(t, n, fetch, k).0 == w;
      StepFileFrame(r.0, n - 1, fetch, r.1);
      StepFileSettles(r.0, n - 1, fetch, r.1);
      assert r.0.files[n - 1] == t.files[n - 1];
      forall j | 0 <= j < n ensures Settled(w.files[j]) {
        if j < n - 1 {
          assert Settled(r.0.files[j]);
          assert w.files[j] == r.0.files[j];
        }
      }
    }
  }

  /** The inner loop keeps a task consistent. */
  lemma {:induction false} RunFilesConsistent(t: Task, n: nat, fetch: Fetch, k: nat)
    requires n <= |t.files| && Consistent(t)
    ensures Consistent(RunFiles(t, n, fetch, k).0)
  {
    if n > 0 {
      RunFilesConsistent(t, n - 1, fetch, k);
      var r := RunFiles(t, n - 1, fetch, k);
      assert RunFiles(t, n, fetch, k) == StepFile(r.0, n - 1, fetch, r.1);
      StepFileConsistent(r.0, n - 1, fetch, r.1);
    }
  }

  /** The whole inner loop: with nothing in flight, every file ends done or failed. */
  lemma TaskSettles(t: Task, fetch: Fetch, k: nat)
    requires NoneRunning(t)
    ensures AllSettled(RunFiles(t, |t.files|, fetch, k).0)
  {
    RunFilesSettles(t, |t.files|, fetch, k);
  }

  /** A pass leaves tasks outside the snapshot alone; the others only advance. */
  lemma {:induction false} PassAdvances(m: map<string, Task>, order: seq<string>, fetch: Fetch)
    ensures forall id :: id in m && id !in order ==> Pass(m, order, fetch).0[id] == m[id]
    ensures forall id :: id in m ==> Advances(m[id], Pass(m, order, fetch).0[id])
  {
    if order != [] {
      var init, last := order[..|order| - 1], order[|order| - 1];
      PassAdvances(m, init, fetch);
      var p := Pass(m, init, fetch);
      var r := Pass(m, order, fetch).0;
      assert forall id :: id in order <==> id in init || id == last;
      if last in p.0 {
        var t := p.0[last];
        RunFilesAdvances(t, |t.files|, fetch, p.1);
        AdvancesTransitive(m[last], t, r[last]);
      }
    }
  }

  /**
   * After a full pass over the snapshot, every snapshotted task that had no
   * download in flight has all its files done or failed.
   */
  lemma {:induction false} PassSettles(m: map<string, Task>, order: seq<string>, fetch: Fetch)
    ensures forall id :: id in m && id in order && NoneRunning(m[id]) ==> AllSettled(Pass(m, order, fetch).0[id])
  {
    if order != [] {
      var init, last := order[..|order| - 1], order[|order| - 1];
      PassSettles(m, init, fetch);
      PassAdvances(m, init, fetch);
      var p := Pass(m, init, fetch);
      var r := Pass(m, order, fetch).0;
      assert forall id :: id in order <==> id in init || id == last;
      if last in p.0 {
        var t := p.0[last];
        if NoneRunning(m[last]) {
          if last !in init {
            assert t == m[last];
          }
          assert NoneRunning(t);
          RunFilesSettles(t, |t.files|, fetch, p.1);
        }
      }
    }
  }

  /** A pass keeps every consistent task consistent. */
  lemma {:induction false} PassConsistent(m: map<string, Task>, order: seq<string>, fetch: Fetch)
    ensures forall id :: id in m && Consistent(m[id]) ==> Consistent(Pass(m, order, fetch).0[id])
  {
    if order != [] {
      var init, last := order[..|order| - 1], order[|order| - 1];
      PassConsistent(m, init, fetch);
      var p := Pass(m, init, fetch);
      if last in p.0 {
        var t := p.0[last];
        if Consistent(t) {
          RunFilesConsistent(t, |t.files|, fetch, p.1);
        }
      }
    }
  }

  /** The inner loop leaves a task whose files are all done or failed exactly as it was. */
  lemma {:induction false} RunFilesSkipsSettled(t: Task, n: nat, fetch: Fetch, k: nat)
    requires n <= |t.files| && AllSettled(t)
    ensures RunFiles(t, n, fetch, k) == (t, k)
  {
    if n > 0 {
      RunFilesSkipsSettled(t, n - 1, fetch, k);
      StepFileSettles(t, n - 1, fetch, k);
    }
  }

  /** A pass leaves every task whose files are all done or failed exactly as it was. */
  lemma {:induction false} PassKeepsSettled(m: map<string, Task>, order: seq<string>, fetch: Fetch)
    ensures forall id :: id in m && AllSettled(m[id]) ==> Pass(m, order, fetch).0[id] == m[id]
  {
    if order != [] {
      var init, last := order[..|order| - 1], order[|order| - 1];
      PassKeepsSettled(m, init, fetch);
      var p := Pass(m, init, fetch);
      if last in p.0 && AllSettled(m[last]) {
        var t := p.0[last];
        assert t == m[last];
        RunFilesSkipsSettled(t, |t.files|, fetch, p.1);
      }
    }
  }

  /**
   * A pass over a registry with no download in flight leaves none in flight,
   * so every later pass again starts from an idle registry.
   */
  lemma PassKeepsIdle(m: map<string, Task>, order: seq<string>, fetch: Fetch)
    requires forall id :: id in m ==> NoneRunning(m[id])
    ensures forall id :: id in Pass(m, order, fetch).0 ==> NoneRunning(Pass(m, order, fetch).0[id])
  {
    PassAdvances(m, order, fetch);
    PassSettles(m, order, fetch);
  }

  /**
   * A task with a failed file is never done after a pass: the failed file
   * is left alone and the task stays consistent.
   */
  lemma PassNeverCompletesFailedTask(m: map<string, Task>, order: seq<string>, fetch: Fetch, id: string, j: nat)
    requires id in m && Consistent(m[id]) && j < |m[id].files| && m[id].files[j].status == Failed
    ensures Pass(m, order, fetch).0[id].status != Done
    ensures |Pass(m, order, fetch).0[id].files| == |m[id].files|
    ensures Pass(m, order, fetch).0[id].files[j].status == Failed
  {
    PassAdvances(m, order, fetch);
    PassConsistent(m, order, fetch);
  }
}
