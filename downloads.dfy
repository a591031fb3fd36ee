/**
 * The naming and error logic of one download (download.go, download): which
 * replies are errors, and where a successful transfer is written. The fetch
 * and the disk writes are inputs.
 */
module Downloads {
  import opened Wrappers

  /** Everything up to the last run of separators, which is dropped. */
  function TrimTrailingSeparators(p: string): string
  {
    if p != [] && p[|p| - 1] == '/' then TrimTrailingSeparators(p[..|p| - 1]) else p
  }

  /** The characters after the last separator. */
  function LastElement(p: string): string
  {
    if p == [] || p[|p| - 1] == '/' then [] else LastElement(p[..|p| - 1]) + [p[|p| - 1]]
  }

  /** filepath.Base on '/'-separated paths. */
  function Base(p: string): string
  {
    if p == "" then "."
    else
      var q := TrimTrailingSeparators(p);
      if q == "" then "/" else LastElement(q)
  }

  lemma {:induction false} TrimmedShape(p: string)
    ensures TrimTrailingSeparators(p) != [] ==> TrimTrailingSeparators(p)[|TrimTrailingSeparators(p)| - 1] != '/'
    decreases |p|
  {
    if p != [] && p[|p| - 1] == '/' {
      TrimmedShape(p[..|p| - 1]);
    }
  }

  lemma {:induction false} LastElementShape(p: string)
    ensures '/' !in LastElement(p)
    ensures p != [] && p[|p| - 1] != '/' ==> LastElement(p) != []
    decreases |p|
  {
    if p != [] && p[|p| - 1] != '/' {
      LastElementShape(p[..|p| - 1]);
    }
  }

  /** A name without separators is its own last element. */
  lemma {:induction false} LastElementOfName(dir: string, name: string)
    requires '/' !in name
    ensures LastElement(dir + "/" + name) == name
    decreases |name|
  {
    var p := dir + "/" + name;
    if name == [] {
      assert p[|p| - 1] == '/';
    } else {
      var init := name[..|name| - 1];
      assert p[..|p| - 1] == dir + "/" + init;
      assert p[|p| - 1] == name[|name| - 1];
      assert name[|name| - 1] in name;
      assert forall c :: c in init ==> c in name;
      LastElementOfName(dir, init);
      assert init + [name[|name| - 1]] == name;
    }
  }

  /** Base is never empty, and it is either "/" or free of separators. */
  lemma BaseShape(p: string)
    ensures Base(p) != ""
    ensures Base(p) == "/" || '/' !in Base(p)
  {
    if p != "" {
      var q := TrimTrailingSeparators(p);
      TrimmedShape(p);
      LastElementShape(q);
    }
  }

  /** The base of `dir/name` is `name`, for a non-empty name without separators. */
  lemma BaseOfPath(dir: string, name: string)
    requires name != "" && '/' !in name
    ensures Base(dir + "/" + name) == name
  {
    var p := dir + "/" + name;
    assert p[|p| - 1] == name[|name| - 1];
    assert name[|name| - 1] in name;
    LastElementOfName(dir, name);
  }

  /** Trailing separators do not change the base. */
  lemma BaseIgnoresTrailingSeparator(p: string)
    requires p != ""
    ensures Base(p + "/") == Base(p)
  {
    assert (p + "/")[..|p|] == p;
  }

  /** A non-empty name without separators is its own base, so Base is idempotent. */
  lemma BaseIdempotent(p: string)
    ensures Base(Base(p)) == Base(p)
  {
    BaseShape(p);
    var b := Base(p);
    if b == "/" {
      assert b[|b| - 1] == '/' && b[..|b| - 1] == "";
      assert TrimTrailingSeparators(b) == TrimTrailingSeparators("") == "";
    } else {
      assert b[|b| - 1] in b;
      assert TrimTrailingSeparators(b) == b;
      LastElementBare(b);
    }
  }

  lemma {:induction false} LastElementBare(name: string)
    requires '/' !in name
    ensures LastElement(name) == name
    decreases |name|
  {
    if name != [] {
      var init := name[..|name| - 1];
      assert name[|name| - 1] in name;
      assert forall c :: c in init ==> c in name;
      LastElementBare(init);
      assert init + [name[|name| - 1]] == name;
    }
  }

  const DefaultName: string := "download"

  /** The base name a download is stored under: Base, or "download" for "", "/" and ".". */
  function LocalName(url: string): string
  {
    var b := Base(url);
    if b == "" || b == "/" || b == "." then DefaultName else b
  }

  /**
   * The local name is never empty, never a dot and never contains a separator;
   * it is "download" exactly when Base gives "/", "." or "download".
   */
  lemma LocalNameShape(url: string)
    ensures LocalName(url) != "" && LocalName(url) != "." && '/' !in LocalName(url)
    ensures LocalName(url) == DefaultName <==> Base(url) in {"/", ".", DefaultName}
    ensures LocalName(url) != DefaultName ==> LocalName(url) == Base(url)
  {
    BaseShape(url);
    assert '/' !in DefaultName;
  }

  /** A URL whose last path element is a proper name is stored under that name. */
  lemma LocalNameOfPath(dir: string, name: string)
    requires name != "" && name != "." && '/' !in name
    ensures LocalName(dir + "/" + name) == name
  {
    BaseOfPath(dir, name);
    assert name != "/" by { assert '/' !in name; }
  }

  /** The time layout "20060102-150405": eight digits, a dash, six digits. */
  predicate IsTimestamp(ts: string) {
    |ts| == 15 && ts[8] == '-' &&
    forall k :: 0 <= k < 15 && k != 8 ==> '0' <= ts[k] <= '9'
  }

  const DownloadDir: string := "downloads"

  /** What the HTTP client reports: a transport error, or a reply with its status. */
  datatype Reply = TransportError(msg: string) | Reply(code: int, statusText: string)

  /** What creating the destination file and copying the body into it reports. */
  datatype DiskWrite = Written | CreateFailed(msg: string) | CopyFailed(msg: string)

  /** The pair download returns: a path (possibly "") and an error (possibly nil). */
  datatype Fetched = Fetched(path: string, err: Option<string>)

  /**
   * download: a non-2xx reply fails with its status text (the simpleError);
   * a successful transfer is written to downloads/<ts>-<local name>.
   * filepath.Join adds only the separator here, since neither part holds a
   * separator or is a dot element.
   */
  function Download(reply: Reply, url: string, ts: string, disk: DiskWrite): (r: Fetched)
    requires IsTimestamp(ts)
    ensures reply.TransportError? ==> r == Fetched("", Some(reply.msg))
    ensures reply.Reply? && !(200 <= reply.code < 300) ==> r == Fetched("", Some(reply.statusText))
    ensures r.err == None <==> reply.Reply? && 200 <= reply.code < 300 && disk.Written?
    ensures r.path != "" ==> r.path == DownloadDir + "/" + ts + "-" + LocalName(url)
  {
    match reply
    case TransportError(msg) => Fetched("", Some(msg))
    case Reply(code, status) =>
      if code < 200 || code >= 300 then Fetched("", Some(status))
      else
        var path := DownloadDir + "/" + (ts + "-" + LocalName(url));
        match disk
        case Written => Fetched(path, None)
        case CreateFailed(msg) => Fetched("", Some(msg))
        case CopyFailed(msg) => Fetched(path, Some(msg))
  }

  /** How the worker reads the pair: the error decides, the path counts only without one. */
  function Outcome(r: Fetched): Result<string, string>
  {
    match r.err
    case Some(e) => Err(e)
    case None => Ok(r.path)
  }

  /**
   * A download succeeds exactly on a 2xx reply that was written out, and its
   * path is a file directly under downloads/ whose name is <ts>-<local name>.
   * A failed copy leaves a path behind, yet the outcome is the error.
   */
  lemma DownloadOutcome(reply: Reply, url: string, ts: string, disk: DiskWrite)
    requires IsTimestamp(ts)
    ensures Outcome(Download(reply, url, ts, disk)).Ok? <==>
              reply.Reply? && 200 <= reply.code < 300 && disk.Written?
    ensures reply.Reply? && !(200 <= reply.code < 300) ==>
              Outcome(Download(reply, url, ts, disk)) == Err(reply.statusText)
    ensures Outcome(Download(reply, url, ts, disk)).Ok? ==>
              var p := Outcome(Download(reply, url, ts, disk)).value;
              p[..|DownloadDir| + 1] == DownloadDir + "/" &&
              Base(p) == ts + "-" + LocalName(url) == p[|DownloadDir| + 1..]
    ensures disk.CopyFailed? ==> Outcome(Download(reply, url, ts, disk)).Err?
  {
    if reply.Reply? && 200 <= reply.code < 300 && disk.Written? {
      var name := ts + "-" + LocalName(url);
      LocalNameShape(url);
      assert '/' !in ts by {
        forall k | 0 <= k < |ts| ensures ts[k] != '/' {
        }
      }
      assert '/' !in name by {
        forall k | 0 <= k < |name| ensures name[k] != '/' {
          if k < |ts| {
            assert name[k] == ts[k] && ts[k] in ts;
          } else if k > |ts| {
            assert name[k] == LocalName(url)[k - |ts| - 1];
          }
        }
      }
      BaseOfPath(DownloadDir, name);
      var p := DownloadDir + "/" + name;
      assert p[..|DownloadDir| + 1] == DownloadDir + "/";
      assert p[|DownloadDir| + 1..] == name;
    }
  }
}
