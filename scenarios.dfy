/**
 * Whole-system behaviour, stated over the specification functions: what a
 * pass does to a freshly created one-file task, and what the first pass after
 * a restart does to the recovered tasks.
 */
module Scenarios {
  import opened Model
  import opened Worker
  import opened Recovery
  import opened Requests

  /** The pass over [id] on a new one-URL task: one download, with the given outcome. */
  lemma OneFilePass(m: map<string, Task>, id: string, now: string, url: string, fetch: Fetch)
    requires id in m && m[id] == NewTask(id, now, [url])
    ensures Pass(m, [id], fetch).1 == 1
    ensures Pass(m, [id], fetch).0[id] == Finished(Started(m[id], 0), 0, fetch(url, 0))
  {
    NewTaskShape(id, now, [url]);
    var t := m[id];
    assert [id][..0] == [];
    assert Pass(m, [], fetch) == (m, 0);
    assert RunFiles(t, 1, fetch, 0) == StepFile(RunFiles(t, 0, fetch, 0).0, 0, fetch, 0);
  }

  /** A one-URL task whose download succeeds ends done, with its path recorded. */
  lemma OneFileSucceeds(m: map<string, Task>, id: string, now: string, url: string, fetch: Fetch)
    requires id in m && m[id] == NewTask(id, now, [url]) && fetch(url, 0).Ok?
    ensures var t := Pass(m, [id], fetch).0[id];
      t.status == Done && t.files == [File(url, Done, fetch(url, 0).value, "")]
  {
    OneFilePass(m, id, now, url, fetch);
    NewTaskShape(id, now, [url]);
  }

  /**
   * A one-URL task whose download fails keeps running, its file failed with
   * the message, and every later pass leaves it exactly as it is, so it is
   * running for good.
   */
  lemma OneFileFails(m: map<string, Task>, id: string, now: string, url: string,
                     fetch: Fetch, later: seq<string>, fetch': Fetch)
    requires id in m && m[id] == NewTask(id, now, [url]) && fetch(url, 0).Err?
    ensures var t := Pass(m, [id], fetch).0[id];
      t.status == Running && t.files == [File(url, Failed, "", fetch(url, 0).error)]
    ensures Pass(Pass(m, [id], fetch).0, later, fetch').0[id] == Pass(m, [id], fetch).0[id]
  {
    OneFilePass(m, id, now, url, fetch);
    NewTaskShape(id, now, [url]);
    var m' := Pass(m, [id], fetch).0;
    var t := m'[id];
    assert t.files[0].status == Failed;
    assert Consistent(t);
    assert AllSettled(t);
    PassKeepsSettled(m', later, fetch');
  }

  /**
   * After a restart, the first pass that reaches a recovered task downloads
   * again whatever was in flight: all its files end done or failed.
   */
  lemma RecoveredTasksSettle(live: map<string, Task>, loaded: map<string, Task>, order: seq<string>, fetch: Fetch)
    ensures forall k :: k in loaded && k in order ==>
              AllSettled(Pass(Restore(live, loaded), order, fetch).0[k])
  {
    RestoredIdle(live, loaded);
    PassSettles(Restore(live, loaded), order, fetch);
  }
}
