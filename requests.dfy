/**
 * The HTTP side of the core (handlers.go): the responses, the task a
 * creation request builds, and how GET /tasks/{id} turns its path into an id.
 */
module Requests {
  import opened Model

  const MethodPost: string := "POST"
  const TasksPrefix: string := "/tasks/"

  const StatusOK: int := 200
  const StatusAccepted: int := 202
  const StatusBadRequest: int := 400
  const StatusNotFound: int := 404
  const StatusMethodNotAllowed: int := 405

  /** The JSON a handler writes: nothing, {"error": ..}, {"id": ..} or a task. */
  datatype Body = NoBody | ErrorJson(error: string) | IdJson(id: string) | TaskJson(task: Task)

  datatype Response = Response(code: int, body: Body)

  /** strings.TrimPrefix. */
  function TrimPrefix(s: string, prefix: string): string
  {
    if prefix <= s then s[|prefix|..] else s
  }

  /** strings.ReplaceAll(s, ":/", "://"), scanning left to right. */
  function ExpandSchemes(s: string): string
    decreases |s|
  {
    if |s| < 2 then s
    else if s[0] == ':' && s[1] == '/' then "://" + ExpandSchemes(s[2..])
    else [s[0]] + ExpandSchemes(s[1..])
  }

  /** strings.ReplaceAll(s, "://", ":/"), the reverse rewrite. */
  function CollapseSchemes(s: string): string
    decreases |s|
  {
    if |s| < 3 then s
    else if s[0] == ':' && s[1] == '/' && s[2] == '/' then ":/" + CollapseSchemes(s[3..])
    else [s[0]] + CollapseSchemes(s[1..])
  }

  /** The task id a GET path names. */
  function RequestId(path: string): string
  {
    ExpandSchemes(TrimPrefix(path, TasksPrefix))
  }

  /** One pending file per URL, appended in request order. */
  function PendingFiles(urls: seq<string>): seq<File>
  {
    if urls == [] then []
    else PendingFiles(urls[..|urls| - 1]) + [File(urls[|urls| - 1], Pending, "", "")]
  }

  /** The task a creation request builds for an id that is not yet registered. */
  function NewTask(id: string, now: string, urls: seq<string>): Task
  {
    Task(id, now, Pending, PendingFiles(urls))
  }

  lemma {:induction false} ExpandHead(s: string)
    ensures |ExpandSchemes(s)| >= |s|
    ensures s != [] ==> ExpandSchemes(s)[0] == s[0]
    decreases |s|
  {
    if |s| >= 2 {
      if s[0] == ':' && s[1] == '/' {
        ExpandHead(s[2..]);
      } else {
        ExpandHead(s[1..]);
      }
    }
  }

  /** The rewrite loses nothing: collapsing undoes it. */
  lemma {:induction false} CollapseExpand(s: string)
    ensures CollapseSchemes(ExpandSchemes(s)) == s
    decreases |s|
  {
    if |s| >= 2 {
      if s[0] == ':' && s[1] == '/' {
        var rest := ExpandSchemes(s[2..]);
        CollapseExpand(s[2..]);
        assert ("://" + rest)[3..] == rest;
        assert s == ":/" + s[2..];
      } else {
        var rest := ExpandSchemes(s[1..]);
        ExpandHead(s[1..]);
        CollapseExpand(s[1..]);
        var e := [s[0]] + rest;
        assert e[1..] == rest;
        if |e| >= 3 {
          assert e[0] == s[0] && e[1] == rest[0] == s[1];
        }
        assert s == [s[0]] + s[1..];
      }
    }
  }

  /** Distinct paths name distinct ids. */
  lemma RequestIdInjective(p: string, q: string)
    requires TrimPrefix(p, TasksPrefix) != TrimPrefix(q, TasksPrefix)
    ensures RequestId(p) != RequestId(q)
  {
    CollapseExpand(TrimPrefix(p, TasksPrefix));
    CollapseExpand(TrimPrefix(q, TasksPrefix));
  }

  /** The id is empty exactly for the paths "" and "/tasks/". */
  lemma RequestIdEmpty(path: string)
    ensures RequestId(path) == "" <==> path == "" || path == TasksPrefix
  {
    var t := TrimPrefix(path, TasksPrefix);
    ExpandHead(t);
    if TasksPrefix <= path && t == "" {
      assert path == TasksPrefix + t;
    }
  }

  /** A separator collapsed to ":/" on the way in is restored. */
  lemma RequestIdExample()
    ensures RequestId("/tasks/ab:/c") == "ab://c"
  {
    assert TasksPrefix <= "/tasks/ab:/c";
    assert TrimPrefix("/tasks/ab:/c", TasksPrefix) == "ab:/c";
    var s := "ab:/c";
    assert s[1..] == "b:/c" && s[1..][1..] == ":/c" && s[1..][1..][2..] == "c";
  }

  /**
   * A new task carries the id, is pending, and has one pending file per URL,
   * in request order and with duplicates kept, each without path or error.
   */
  lemma {:induction false} NewTaskShape(id: string, now: string, urls: seq<string>)
    ensures var t := NewTask(id, now, urls);
      && t.id == id && t.createdAt == now && t.status == Pending
      && |t.files| == |urls|
      && forall k :: 0 <= k < |urls| ==> t.files[k] == File(urls[k], Pending, "", "")
  {
    if urls != [] {
      NewTaskShape(id, now, urls[..|urls| - 1]);
    }
  }

  /** A new task is consistent and has no download in flight. */
  lemma NewTaskIdle(id: string, now: string, urls: seq<string>)
    ensures Consistent(NewTask(id, now, urls)) && NoneRunning(NewTask(id, now, urls))
  {
    NewTaskShape(id, now, urls);
  }
}
