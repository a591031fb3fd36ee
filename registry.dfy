/**
 * The registry of all tasks (the `tasks` map). The critical sections of the
 * source are methods run atomically: the two handlers' map accesses, the
 * worker's two writes per file (StartFile, FinishFile), and loading and
 * saving the snapshot. RunPass runs the worker's sections in order for one
 * pass, with no other writer in between; its `order` is the task list the
 * worker copies under the read lock.
 */
module Registry {
  import opened Wrappers
  import opened Model
  import opened TaskIds
  import opened Worker
  import opened Recovery
  import opened Requests

  class Registry {
    var tasks: map<string, Task>

    /** The process starts with an empty registry. */
    constructor ()
      ensures tasks == map[]
    {
      tasks := map[];
    }

    /**
     * handleTasks: POST with a non-empty URL list registers the task for its
     * id unless that id is already registered; every other request is
     * rejected and leaves the registry as it was.
     */
    method HandleTasks(httpMethod: string, body: Option<seq<string>>, hash: seq<byte> -> Digest, now: string)
      returns (resp: Response)
      modifies this
      ensures httpMethod != MethodPost ==>
                resp == Response(StatusMethodNotAllowed, NoBody) && tasks == old(tasks)
      ensures httpMethod == MethodPost && body == None ==>
                resp == Response(StatusBadRequest, ErrorJson("invalid json")) && tasks == old(tasks)
      ensures httpMethod == MethodPost && body == Some([]) ==>
                resp == Response(StatusBadRequest, ErrorJson("no urls")) && tasks == old(tasks)
      ensures httpMethod == MethodPost && body.Some? && body.value != [] ==>
                var id := IdOf(hash, body.value);
                && resp == Response(StatusAccepted, IdJson(id))
                && tasks == if id in old(tasks) then old(tasks)
                            else old(tasks)[id := NewTask(id, now, body.value)]
      ensures (forall id :: id in old(tasks) ==> NoneRunning(old(tasks)[id])) ==>
                forall id :: id in tasks ==> NoneRunning(tasks[id])
    {
      if httpMethod != MethodPost {
        return Response(StatusMethodNotAllowed, NoBody);
      }
      if body.None? {
        return Response(StatusBadRequest, ErrorJson("invalid json"));
      }
      var urls := body.value;
      if |urls| == 0 {
        return Response(StatusBadRequest, ErrorJson("no urls"));
      }
      var id := MakeId(hash, urls);
      if id !in tasks {
        tasks := tasks[id := Task(id, now, Pending, [])];
        for k := 0 to |urls|
          invariant tasks == old(tasks)[id := Task(id, now, Pending, PendingFiles(urls[..k]))]
        {
          assert urls[..k + 1][..k] == urls[..k];
          tasks := tasks[id := tasks[id].(files := tasks[id].files + [File(urls[k], Pending, "", "")])];
        }
        assert urls[..|urls|] == urls;
        NewTaskIdle(id, now, urls);
      }
      return Response(StatusAccepted, IdJson(id));
    }

    /**
     * handleTaskByID: an empty id is 404 with no body; otherwise the task is
     * returned exactly when its id is registered, and 404 "not found" if not.
     */
    method HandleTaskById(path: string) returns (resp: Response)
      ensures RequestId(path) == "" ==> resp == Response(StatusNotFound, NoBody)
      ensures RequestId(path) != "" && RequestId(path) in tasks ==>
                resp == Response(StatusOK, TaskJson(tasks[RequestId(path)]))
      ensures RequestId(path) != "" && RequestId(path) !in tasks ==>
                resp == Response(StatusNotFound, ErrorJson("not found"))
    {
      var id := TrimPrefix(path, TasksPrefix);
      id := ExpandSchemes(id);
      if id == "" {
        return Response(StatusNotFound, NoBody);
      }
      if id !in tasks {
        return Response(StatusNotFound, ErrorJson("not found"));
      }
      return Response(StatusOK, TaskJson(tasks[id]));
    }

    /** The worker marks file i of task id running, and the task if it was pending. */
    method StartFile(id: string, i: nat)
      requires id in tasks && i < |tasks[id].files|
      modifies this
      ensures tasks == old(tasks)[id := Started(old(tasks)[id], i)]
    {
      var t := tasks[id];
      t := t.(files := t.files[i := t.files[i].(status := Running)]);
      if t.status == Pending {
        t := t.(status := Running);
      }
      tasks := tasks[id := t];
    }

    /** The worker records a download's outcome and applies the all-files-done rule. */
    method FinishFile(id: string, i: nat, outcome: Result<string, string>)
      requires id in tasks && i < |tasks[id].files|
      modifies this
      ensures tasks == old(tasks)[id := Finished(old(tasks)[id], i, outcome)]
    {
      var t := tasks[id];
      var f := t.files[i];
      match outcome {
        case Err(e) =>
          f := f.(status := Failed, error := e);
        case Ok(p) =>
          f := f.(status := Done, path := p);
      }
      t := t.(files := t.files[i := f]);
      var allDone := AllDone(t.files);
      if allDone {
        t := t.(status := Done);
      }
      tasks := tasks[id := t];
    }

    /** saveSnapshot: the whole map is what gets written; the registry is only read. */
    method SaveSnapshot() returns (snapshot: map<string, Task>)
      ensures snapshot == tasks
    {
      snapshot := tasks;
    }

    /**
     * One pass of the worker over the snapshot `order`, each task's files in
     * order, with no other writer in between. `fetch` gives the download
     * outcomes; `saved` holds the state written after every download.
     */
    method RunPass(order: seq<string>, fetch: Fetch) returns (downloads: nat, saved: seq<map<string, Task>>)
      modifies this
      ensures (tasks, downloads) == Pass(old(tasks), order, fetch)
      ensures |saved| == downloads && (downloads > 0 ==> saved[downloads - 1] == tasks)
      ensures tasks.Keys == old(tasks).Keys
      ensures forall id :: id in old(tasks) && id !in order ==> tasks[id] == old(tasks)[id]
      ensures forall id :: id in old(tasks) && id in order && NoneRunning(old(tasks)[id]) ==> AllSettled(tasks[id])
      ensures forall id :: id in old(tasks) ==> Advances(old(tasks)[id], tasks[id])
      ensures forall id :: id in old(tasks) && Consistent(old(tasks)[id]) ==> Consistent(tasks[id])
      ensures (forall id :: id in old(tasks) ==> NoneRunning(old(tasks)[id])) ==>
                forall id :: id in tasks ==> NoneRunning(tasks[id])
    {
      downloads, saved := 0, [];
      for n := 0 to |order|
        invariant (tasks, downloads) == Pass(old(tasks), order[..n], fetch)
        invariant |saved| == downloads && (downloads > 0 ==> saved[downloads - 1] == tasks)
      {
        assert order[..n + 1][..n] == order[..n];
        var id := order[n];
        if id in tasks {
          ghost var before, k0 := tasks, downloads;
          var count := |tasks[id].files|;
          for i := 0 to count
            invariant tasks == before[id := RunFiles(before[id], i, fetch, k0).0]
            invariant downloads == RunFiles(before[id], i, fetch, k0).1
            invariant |saved| == downloads && (downloads > 0 ==> saved[downloads - 1] == tasks)
          {
            if tasks[id].files[i].status != Pending {
              continue;
            }
            StartFile(id, i);
            var outcome := fetch(tasks[id].files[i].url, downloads);
            FinishFile(id, i, outcome);
            var snapshot := SaveSnapshot();
            saved := saved + [snapshot];
            downloads := downloads + 1;
          }
        }
      }
      assert order[..|order|] == order;
      PassAdvances(old(tasks), order, fetch);
      PassSettles(old(tasks), order, fetch);
      PassConsistent(old(tasks), order, fetch);
      if forall id :: id in old(tasks) ==> NoneRunning(old(tasks)[id]) {
        PassKeepsIdle(old(tasks), order, fetch);
      }
    }

    /**
     * loadSnapshot: an unreadable file loads nothing and is no error; a
     * malformed one is an error and loads nothing; otherwise every loaded
     * task is recovered and stored under its key, and other keys are kept.
     */
    method LoadSnapshot(stored: Stored) returns (err: Option<string>)
      modifies this
      ensures stored.Unreadable? ==> err == None && tasks == old(tasks)
      ensures stored.Malformed? ==> err == Some(stored.msg) && tasks == old(tasks)
      ensures stored.Decoded? ==> err == None && tasks == Restore(old(tasks), stored.snapshot)
      ensures (forall id :: id in old(tasks) ==> NoneRunning(old(tasks)[id])) ==>
                forall id :: id in tasks ==> NoneRunning(tasks[id])
    {
      match stored {
        case Unreadable =>
          return None;
        case Malformed(msg) =>
          return Some(msg);
        case Decoded(m) =>
          var todo := m.Keys;
          ghost var done: set<string> := {};
          while todo != {}
            invariant todo + done == m.Keys && todo !! done
            invariant tasks.Keys == old(tasks).Keys + done
            invariant forall k :: k in done ==> tasks[k] == Recovered(m[k])
            invariant forall k :: k in old(tasks) && k !in done ==> tasks[k] == old(tasks)[k]
            decreases todo
          {
            var k :| k in todo;
            var v := RecoverTask(m[k]);
            tasks := tasks[k := v];
            todo, done := todo - {k}, done + {k};
          }
          assert tasks == Restore(old(tasks), m);
          RestoredIdle(old(tasks), m);
          return None;
      }
    }
  }
}
