/**
 * The job-queue protocol of `core/server_communicator.py`.
 *
 * The compute node is reached through an abstract command channel: its
 * file system is a map from paths to contents, and every shell command the
 * client sends is recorded, in order, in a log. What the remote commands
 * print (stderr of the job write, the worker count, the `sbatch` reply),
 * the clock, the timestamp and the random suffix are parameters.
 */
module JobQueue {
  import opened Wrappers
  import opened Text
  import opened Json
  import Auth

  /** `server_base_path`: the root of the queue and result directories on the compute node. */
  const BasePath: string := "/home/vdidur/Server_SatelliteProcessor"

  /** The status directories, in the order `get_job_status` probes them. */
  const StatusDirs: seq<string> := ["pending", "running", "completed", "failed"]

  /** Seconds slept between two polls of `wait_for_job`. */
  const PollInterval: nat := 5

  /** The text by which `sbatch` acknowledges a submission. */
  const Acknowledgement: string := "Submitted batch job"

  /** A remote file: a JSON document, or any other text (`Other("")` is an empty file). */
  datatype Content = Doc(doc: Value) | Other(text: string)

  /** The shell commands the client sends to the compute node. */
  datatype Command =
    | WriteFile(path: string, doc: Value)  // echo '<document>' > path
    | ReadFile(path: string)               // cat path 2>/dev/null
    | RemoveTree(path: string)             // rm -rf path
    | RemoveFile(path: string)             // rm -f path
    | CountWorkers                         // squeue -u vdidur -n satproc_job -h | wc -l
    | SubmitWorker                         // cd <base> && sbatch sbatch/process_job.sbatch

  /** What `cat path 2>/dev/null` prints: the file, or nothing when there is none. */
  function Read(files: map<string, Content>, path: string): (c: Content)
    ensures path !in files ==> IsEmptyRead(c)
    ensures path in files ==> c == files[path]
  {
    if path in files then files[path] else Other("")
  }

  predicate IsEmptyRead(c: Content) {
    c == Other("")
  }

  // ---------------------------------------------------------------------
  // Job identifiers and remote paths

  /** `uuid.uuid4().hex[:8]`. */
  function Take8(hex: string): string {
    if |hex| <= 8 then hex else hex[..8]
  }

  /** `f"{function}_{timestamp}_{suffix}"`, with the formatted timestamp and the uuid hex as inputs. */
  function JobId(functionName: string, stamp: string, uuidHex: string): (id: string)
    ensures functionName + "_" <= id
    ensures |uuidHex| >= 8 ==> |id| >= 8 && id[|id| - 8..] == uuidHex[..8]
  {
    functionName + "_" + stamp + "_" + Take8(uuidHex)
  }

  /** `<base>/jobs/<dir>/<job_id>.json`. */
  function JobPath(dir: string, jobId: string): (path: string)
    ensures BasePath + "/jobs/" + dir + "/" + jobId <= path
    ensures |path| == |BasePath + "/jobs/" + dir + "/" + jobId| + 5 && path[|path| - 5..] == ".json"
  {
    BasePath + "/jobs/" + dir + "/" + jobId + ".json"
  }

  /** `<base>/results/<job_id>`. */
  function ResultsPath(jobId: string): (root: string)
    ensures BasePath + "/results/" <= root && root[|BasePath + "/results/"|..] == jobId
  {
    BasePath + "/results/" + jobId
  }

  /**
   * A character the shell takes literally in an unquoted word: no word
   * splitting, globbing, expansion or path separator.
   */
  predicate IsInertChar(c: char) {
    || 'a' <= c <= 'z' || 'A' <= c <= 'Z' || '0' <= c <= '9'
    || c == '_' || c == '-' || c == '.'
  }

  predicate IsInertWord(s: string) {
    forall i :: 0 <= i < |s| ==> IsInertChar(s[i])
  }

  /**
   * A job id that the shell commands of `cleanup_job` see as one literal
   * word naming exactly one entry of a directory.
   */
  predicate SafeJobId(jobId: string) {
    jobId != [] && IsInertWord(jobId) && jobId != "." && jobId != ".."
  }

  lemma SafeJobIdSlashFree(jobId: string)
    requires SafeJobId(jobId)
    ensures '/' !in jobId && jobId[|jobId| - 1] != '/'
  {
    assert forall c :: c in jobId ==> IsInertChar(c);
  }

  /** A path has one first segment: two slash-free names that both head it are equal. */
  lemma FirstSegmentUnique(k: string, a: string, b: string)
    requires '/' !in a && '/' !in b
    requires Under(k, a) && Under(k, b)
    ensures a == b
  {
    assert forall i :: 0 <= i < |a| ==> k[i] == a[i] && a[i] != '/';
    assert forall i :: 0 <= i < |b| ==> k[i] == b[i] && b[i] != '/';
    assert |a| < |k| ==> k[|a|] == '/';
    assert |b| < |k| ==> k[|b|] == '/';
    assert a == k[..|a|] && b == k[..|b|];
  }

  lemma SlashFreeSplit(x: string, y: string, s: string, t: string)
    requires '/' !in x && '/' !in y
    requires x + "/" + s == y + "/" + t
    ensures x == y && s == t
  {
    var l := x + "/" + s;
    assert x + "/" <= l && y + "/" <= l;
    FirstSegmentUnique(l, x, y);
    PrefixCancel(x + "/", s, t);
  }

  lemma PrefixCancel(p: string, x: string, y: string)
    requires p + x == p + y
    ensures x == y
  {
    assert x == (p + x)[|p|..];
    assert y == (p + y)[|p|..];
  }

  lemma SuffixCancel(x: string, y: string, q: string)
    requires x + q == y + q
    ensures x == y
  {
    assert x == (x + q)[..|x|];
    assert y == (y + q)[..|y|];
  }

  /**
   * Two submissions whose timestamps have the same length (the format
   * `%Y%m%d_%H%M%S` always gives 15 characters) and whose uuid hex strings
   * have at least 8 characters get the same id only when function,
   * timestamp and 8-character suffix all agree: a different suffix gives a
   * different id.
   */
  lemma {:induction false} JobIdInjective(f1: string, s1: string, h1: string, f2: string, s2: string, h2: string)
    requires |s1| == |s2| && |h1| >= 8 && |h2| >= 8
    requires JobId(f1, s1, h1) == JobId(f2, s2, h2)
    ensures f1 == f2 && s1 == s2 && h1[..8] == h2[..8]
  {
    var id := JobId(f1, s1, h1);
    assert |f1| == |f2|;
    assert f1 == id[..|f1|] && f2 == id[..|f2|];
    assert s1 == id[|f1| + 1..|f1| + 1 + |s1|] && s2 == id[|f2| + 1..|f2| + 1 + |s2|];
    assert h1[..8] == id[|id| - 8..] && h2[..8] == id[|id| - 8..];
  }

  /**
   * An id built from parts made of letters, digits, `_`, `-` and `.` (the
   * function names, the `%Y%m%d_%H%M%S` timestamp and the uuid hex) is
   * safe to use as a single path entry in a shell command.
   */
  lemma JobIdIsSafe(functionName: string, stamp: string, uuidHex: string)
    requires IsInertWord(functionName) && IsInertWord(stamp) && IsInertWord(uuidHex)
    ensures SafeJobId(JobId(functionName, stamp, uuidHex))
  {
    var id := JobId(functionName, stamp, uuidHex);
    assert id[|functionName|] == '_';
    forall i | 0 <= i < |id| ensures IsInertChar(id[i]) {
      var n := |functionName|;
      if i < n {
        assert id[i] == functionName[i];
      } else if n + 1 <= i < n + 1 + |stamp| {
        assert id[i] == stamp[i - n - 1];
      } else if n + 1 + |stamp| + 1 <= i {
        assert id[i] == Take8(uuidHex)[i - n - 2 - |stamp|];
        assert Take8(uuidHex)[i - n - 2 - |stamp|] == uuidHex[i - n - 2 - |stamp|];
      }
    }
  }

  // ---------------------------------------------------------------------
  // The job document

  /** The `credentials` object: user name and password, `null` each when no credentials could be read. */
  function CredentialsValue(c: Option<Auth.Credentials>): (v: Value)
    ensures v.Object? && v.fields.Keys == {"username", "password"}
    ensures c.None? <==> v.fields["username"] == Null && v.fields["password"] == Null
    ensures c.Some? ==> v.fields["username"] == Str(c.value.username) && v.fields["password"] == Str(c.value.password)
  {
    Object(map[
      "username" := if c.Some? then Str(c.value.username) else Null,
      "password" := if c.Some? then Str(c.value.password) else Null])
  }

  /** The job document `submit_job` writes. */
  function JobDocument(jobId: string, functionName: string, parameters: map<string, Value>, submitted: string): (doc: Value)
    ensures doc.Object? && doc.fields.Keys == {"job_id", "function", "parameters", "status", "submitted_time"}
    ensures doc.fields["job_id"] == Str(jobId) && doc.fields["status"] == Str("pending")
    ensures Truthy(doc) && Classify(doc) == Ongoing
  {
    Object(map[
      "job_id" := Str(jobId),
      "function" := Str(functionName),
      "parameters" := Object(parameters),
      "status" := Str("pending"),
      "submitted_time" := Str(submitted)])
  }

  // ---------------------------------------------------------------------
  // Status lookup

  /**
   * `get_job_status` over the directories `dirs`: the document of the first
   * directory whose file is not empty; `None` when every file is empty or
   * absent, or when the first non-empty one does not parse.
   */
  function ProbeFrom(files: map<string, Content>, jobId: string, dirs: seq<string>): (r: Option<Value>)
    ensures r.Some? ==> exists i :: 0 <= i < |dirs| && Read(files, JobPath(dirs[i], jobId)) == Doc(r.value)
  {
    if dirs == [] then None
    else
      match Read(files, JobPath(dirs[0], jobId))
      case Doc(v) => assert Read(files, JobPath(dirs[0], jobId)) == Doc(v); Some(v)
      case Other(t) =>
        if t == [] then
          var r := ProbeFrom(files, jobId, dirs[1..]);
          assert r.Some? ==> exists i :: 0 <= i < |dirs| && Read(files, JobPath(dirs[i], jobId)) == Doc(r.value) by {
            if r.Some? {
              var i :| 0 <= i < |dirs[1..]| && Read(files, JobPath(dirs[1..][i], jobId)) == Doc(r.value);
              assert dirs[1..][i] == dirs[i + 1];
            }
          }
          r
        else None
  }

  /** The `cat` commands `get_job_status` sends: one per directory up to the first non-empty file. */
  function ProbeReads(files: map<string, Content>, jobId: string, dirs: seq<string>): (sent: seq<Command>)
    ensures |sent| <= |dirs| && (dirs != [] ==> sent != [])
  {
    if dirs == [] then []
    else
      var path := JobPath(dirs[0], jobId);
      [ReadFile(path)] + if IsEmptyRead(Read(files, path)) then ProbeReads(files, jobId, dirs[1..]) else []
  }

  /**
   * The probe reads the directories in order, every file it reads before the
   * last one is empty or absent, and it stops early only at a non-empty file.
   */
  lemma {:induction false} ProbeReadsInOrder(files: map<string, Content>, jobId: string, dirs: seq<string>)
    ensures var sent := ProbeReads(files, jobId, dirs);
      && (forall i :: 0 <= i < |sent| ==> sent[i] == ReadFile(JobPath(dirs[i], jobId)))
      && (forall i :: 0 <= i < |sent| - 1 ==> IsEmptyRead(Read(files, JobPath(dirs[i], jobId))))
      && (0 < |sent| < |dirs| ==> !IsEmptyRead(Read(files, JobPath(dirs[|sent| - 1], jobId))))
  {
    if dirs != [] && IsEmptyRead(Read(files, JobPath(dirs[0], jobId))) {
      ProbeReadsInOrder(files, jobId, dirs[1..]);
      var rest := ProbeReads(files, jobId, dirs[1..]);
      assert forall i :: 0 <= i < |rest| ==> dirs[1..][i] == dirs[i + 1];
    }
  }

  /** One directory of the probe. */
  lemma ProbeStep(files: map<string, Content>, jobId: string, dirs: seq<string>)
    requires dirs != []
    ensures var c := Read(files, JobPath(dirs[0], jobId));
      && ProbeFrom(files, jobId, dirs) ==
           (if c.Doc? then Some(c.doc) else if c.text == [] then ProbeFrom(files, jobId, dirs[1..]) else None)
      && ProbeReads(files, jobId, dirs) ==
           [ReadFile(JobPath(dirs[0], jobId))] + if IsEmptyRead(c) then ProbeReads(files, jobId, dirs[1..]) else []
  {
  }

  function Probe(files: map<string, Content>, jobId: string): (r: Option<Value>)
    ensures r.Some? ==> exists i :: 0 <= i < |StatusDirs| && Read(files, JobPath(StatusDirs[i], jobId)) == Doc(r.value)
  {
    ProbeFrom(files, jobId, StatusDirs)
  }

  /**
   * When the files before directory `i` are empty or absent and the one in
   * directory `i` holds a document, the probe returns that document after
   * reading exactly `i + 1` files.
   */
  lemma {:induction false} ProbeFindsFirst(files: map<string, Content>, jobId: string, dirs: seq<string>, i: nat, v: Value)
    requires i < |dirs|
    requires forall j :: 0 <= j < i ==> IsEmptyRead(Read(files, JobPath(dirs[j], jobId)))
    requires Read(files, JobPath(dirs[i], jobId)) == Doc(v)
    ensures ProbeFrom(files, jobId, dirs) == Some(v)
    ensures |ProbeReads(files, jobId, dirs)| == i + 1
  {
    if i > 0 {
      assert IsEmptyRead(Read(files, JobPath(dirs[0], jobId)));
      forall j | 0 <= j < i - 1 ensures IsEmptyRead(Read(files, JobPath(dirs[1..][j], jobId))) {
        assert dirs[1..][j] == dirs[j + 1];
      }
      ProbeFindsFirst(files, jobId, dirs[1..], i - 1, v);
    }
  }

  /** When the first non-empty file is not a JSON document, `json.loads` raises and the probe gives `None`. */
  lemma {:induction false} ProbeStopsAtMalformed(files: map<string, Content>, jobId: string, dirs: seq<string>, i: nat, t: string)
    requires i < |dirs| && t != []
    requires forall j :: 0 <= j < i ==> IsEmptyRead(Read(files, JobPath(dirs[j], jobId)))
    requires Read(files, JobPath(dirs[i], jobId)) == Other(t)
    ensures ProbeFrom(files, jobId, dirs) == None
    ensures |ProbeReads(files, jobId, dirs)| == i + 1
  {
    if i > 0 {
      assert IsEmptyRead(Read(files, JobPath(dirs[0], jobId)));
      forall j | 0 <= j < i - 1 ensures IsEmptyRead(Read(files, JobPath(dirs[1..][j], jobId))) {
        assert dirs[1..][j] == dirs[j + 1];
      }
      ProbeStopsAtMalformed(files, jobId, dirs[1..], i - 1, t);
    }
  }

  /** When every file is empty or absent the probe reads them all and gives `None`. */
  lemma {:induction false} ProbeFindsNothing(files: map<string, Content>, jobId: string, dirs: seq<string>)
    requires forall j :: 0 <= j < |dirs| ==> IsEmptyRead(Read(files, JobPath(dirs[j], jobId)))
    ensures ProbeFrom(files, jobId, dirs) == None
    ensures |ProbeReads(files, jobId, dirs)| == |dirs|
  {
    if dirs != [] {
      assert IsEmptyRead(Read(files, JobPath(dirs[0], jobId)));
      forall j | 0 <= j < |dirs| - 1 ensures IsEmptyRead(Read(files, JobPath(dirs[1..][j], jobId))) {
        assert dirs[1..][j] == dirs[j + 1];
      }
      ProbeFindsNothing(files, jobId, dirs[1..]);
    }
  }

  /** A job whose document is in exactly one status directory is reported with that document. */
  lemma ProbeExactlyOne(files: map<string, Content>, jobId: string, i: nat, v: Value)
    requires i < |StatusDirs|
    requires Read(files, JobPath(StatusDirs[i], jobId)) == Doc(v)
    requires forall j :: 0 <= j < |StatusDirs| && j != i ==> IsEmptyRead(Read(files, JobPath(StatusDirs[j], jobId)))
    ensures Probe(files, jobId) == Some(v)
  {
    ProbeFindsFirst(files, jobId, StatusDirs, i, v);
  }

  /**
   * Right after a submission the pending document is what the status probe
   * reports, whatever the other directories hold, and the monitor sees it
   * as still in progress.
   */
  lemma SubmittedJobIsPending(files: map<string, Content>, jobId: string, functionName: string,
                              parameters: map<string, Value>, submitted: string)
    ensures var doc := JobDocument(jobId, functionName, parameters, submitted);
      Probe(files[JobPath("pending", jobId) := Doc(doc)], jobId) == Some(doc) && Classify(doc) == Ongoing
  {
    var doc := JobDocument(jobId, functionName, parameters, submitted);
    ProbeFindsFirst(files[JobPath("pending", jobId) := Doc(doc)], jobId, StatusDirs, 0, doc);
  }

  // ---------------------------------------------------------------------
  // The processor guard

  /** What `_ensure_processor_running` did. */
  datatype Guard =
    | Unparsable                   // int() raised on the worker count; swallowed
    | AlreadyRunning(count: int)   // a worker is queued or running; nothing submitted
    | Started(acknowledged: bool)  // no worker: the batch script was submitted

  /** The guard's decision from the output of the count command and of `sbatch`. */
  function GuardDecision(queueOut: string, batchOut: string): (g: Guard)
    ensures g.Started? <==> ParseInt(queueOut) == Some(0)
    ensures g.Unparsable? <==> ParseInt(queueOut).None?
    ensures g.Started? ==> (g.acknowledged <==> exists i :: OccursAt(batchOut, Acknowledgement, i))
  {
    match ParseInt(queueOut)
    case None => Unparsable
    case Some(n) => if n == 0 then Started(Contains(batchOut, Acknowledgement)) else AlreadyRunning(n)
  }

  /** The commands the guard sends: the count, then the submission only when it starts a worker. */
  function GuardCommands(g: Guard): (cmds: seq<Command>)
    ensures 1 <= |cmds| <= 2 && cmds[0] == CountWorkers
    ensures SubmitWorker in cmds <==> g.Started?
  {
    [CountWorkers] + if g.Started? then [SubmitWorker] else []
  }

  /** Fed the line `wc -l` prints for `n` queued workers, the guard submits exactly when `n` is 0. */
  lemma GuardReadsWorkerCount(n: nat, batchOut: string)
    ensures GuardDecision(Decimal(n) + "\n", batchOut).Started? <==> n == 0
    ensures n > 0 ==> GuardDecision(Decimal(n) + "\n", batchOut) == AlreadyRunning(n)
  {
    ParseIntDecimalLine(n);
  }

  // ---------------------------------------------------------------------
  // Cleanup

  /**
   * `path` is `root` or lies below it. A root ending in `/` (the results
   * root itself, for an empty job id) covers everything that starts with it.
   */
  predicate Under(path: string, root: string)
    ensures Under(path, root) <==>
      root <= path && (|path| == |root| || path[|root|] == '/' || (root != [] && root[|root| - 1] == '/'))
  {
    || path == root
    || root + "/" <= path
    || (root != [] && root[|root| - 1] == '/' && root <= path)
  }

  /** The file system after `rm -rf root`. */
  function Prune(files: map<string, Content>, root: string): (after: map<string, Content>)
    ensures forall k :: k in after ==> k in files && after[k] == files[k] && !Under(k, root)
    ensures forall k :: k in files && !Under(k, root) ==> k in after
  {
    map k | k in files && !Under(k, root) :: files[k]
  }

  /** The file system after `cleanup_job`: the job's result tree and its completed document are gone. */
  function AfterCleanup(files: map<string, Content>, jobId: string): (after: map<string, Content>)
    ensures forall k :: k in after ==> k in files && after[k] == files[k]
    ensures forall k :: k in files ==>
      (k !in after <==> Under(k, ResultsPath(jobId)) || k == JobPath("completed", jobId))
  {
    Prune(files, ResultsPath(jobId)) - {JobPath("completed", jobId)}
  }

  /** The path belongs to job `jobId`: one of its queue documents or an entry of its result tree. */
  predicate OwnedBy(path: string, jobId: string) {
    (exists d :: d in StatusDirs && path == JobPath(d, jobId)) || Under(path, ResultsPath(jobId))
  }

  lemma QueueIsNotResults(d: string, b: string, a: string)
    ensures !Under(JobPath(d, b), ResultsPath(a))
  {
    var n := |BasePath| + 1;
    assert JobPath(d, b)[n] == 'j';
    assert ResultsPath(a)[n] == 'r';
  }

  lemma {:induction false} QueuePathInjective(d1: string, b1: string, d2: string, b2: string)
    requires '/' !in d1 && '/' !in d2 && '/' !in b1 && '/' !in b2
    requires JobPath(d1, b1) == JobPath(d2, b2)
    ensures d1 == d2 && b1 == b2
  {
    var p := BasePath + "/jobs/";
    assert JobPath(d1, b1) == p + (d1 + "/" + (b1 + ".json"));
    assert JobPath(d2, b2) == p + (d2 + "/" + (b2 + ".json"));
    PrefixCancel(p, d1 + "/" + (b1 + ".json"), d2 + "/" + (b2 + ".json"));
    SlashFreeSplit(d1, d2, b1 + ".json", b2 + ".json");
    SuffixCancel(b1, b2, ".json");
  }

  lemma StatusDirSlashFree(d: string)
    requires d in StatusDirs
    ensures '/' !in d
  {
  }

  /** Dropping a common prefix keeps a path under the rest of the root. */
  lemma UnderShift(path: string, p: string, a: string)
    requires a != [] && a[|a| - 1] != '/'
    requires Under(path, p + a)
    ensures |p| <= |path| && Under(path[|p|..], a)
  {
    assert (p + a)[|p + a| - 1] == a[|a| - 1];
    if path == p + a {
      assert path[|p|..] == a;
    } else {
      assert p + a + "/" == p + (a + "/");
      assert path[|p|..][..|a| + 1] == a + "/";
    }
  }

  lemma ResultTreesDisjoint(path: string, a: string, b: string)
    requires SafeJobId(a) && SafeJobId(b)
    requires Under(path, ResultsPath(a)) && Under(path, ResultsPath(b))
    ensures a == b
  {
    var p := BasePath + "/results/";
    assert ResultsPath(a) == p + a && ResultsPath(b) == p + b;
    SafeJobIdSlashFree(a);
    SafeJobIdSlashFree(b);
    UnderShift(path, p, a);
    UnderShift(path, p, b);
    FirstSegmentUnique(path[|p|..], a, b);
  }

  /** Cleaning up job `a` leaves every entry of any other job `b` where it was, with the same content. */
  lemma CleanupSparesOtherJobs(files: map<string, Content>, a: string, b: string, path: string)
    requires SafeJobId(a) && SafeJobId(b) && a != b
    requires path in files && OwnedBy(path, b)
    ensures path in AfterCleanup(files, a) && AfterCleanup(files, a)[path] == files[path]
  {
    if Under(path, ResultsPath(a)) {
      if Under(path, ResultsPath(b)) {
        ResultTreesDisjoint(path, a, b);
      } else {
        var d :| d in StatusDirs && path == JobPath(d, b);
        QueueIsNotResults(d, b, a);
      }
    }
    if path == JobPath("completed", a) {
      if Under(path, ResultsPath(b)) {
        QueueIsNotResults("completed", a, b);
      } else {
        var d :| d in StatusDirs && path == JobPath(d, b);
        StatusDirSlashFree(d);
        SafeJobIdSlashFree(a);
        SafeJobIdSlashFree(b);
        QueuePathInjective("completed", a, d, b);
      }
    }
  }

  /** Cleaning up a job leaves its pending, running and failed documents in place. */
  lemma CleanupSparesLiveDocuments(files: map<string, Content>, a: string, d: string)
    requires SafeJobId(a) && d in StatusDirs && d != "completed"
    requires JobPath(d, a) in files
    ensures JobPath(d, a) in AfterCleanup(files, a) && AfterCleanup(files, a)[JobPath(d, a)] == files[JobPath(d, a)]
  {
    QueueIsNotResults(d, a, a);
    if JobPath(d, a) == JobPath("completed", a) {
      StatusDirSlashFree(d);
      SafeJobIdSlashFree(a);
      QueuePathInjective(d, a, "completed", a);
    }
  }

  /** Nothing outside the job's result tree and its completed document is removed, in particular nothing outside the base directory. */
  lemma CleanupStaysInScope(files: map<string, Content>, a: string, path: string)
    requires SafeJobId(a)
    requires path in files && path !in AfterCleanup(files, a)
    ensures Under(path, ResultsPath(a)) || path == JobPath("completed", a)
    ensures BasePath + "/" <= path
  {
    if Under(path, ResultsPath(a)) {
      assert BasePath + "/" <= ResultsPath(a);
    } else {
      assert path == JobPath("completed", a);
      assert BasePath + "/" <= JobPath("completed", a);
    }
  }

  /**
   * With an empty job id the first command is `rm -rf <base>/results/`:
   * every job's results are removed.
   */
  lemma CleanupWithEmptyIdRemovesAllResults(files: map<string, Content>, path: string)
    requires path in files && BasePath + "/results/" <= path
    ensures path !in AfterCleanup(files, "")
  {
    assert ResultsPath("") == BasePath + "/results/";
  }

  // ---------------------------------------------------------------------
  // The monitor

  /** What `status['status'] in ['completed', 'failed']` does with a fresh document. */
  datatype Verdict = Terminal | Ongoing | Fault

  function Classify(v: Value): (verdict: Verdict)
    ensures verdict == Fault <==> !v.Object? || "status" !in v.fields
    ensures verdict == Terminal <==>
      v.Object? && "status" in v.fields && v.fields["status"] in {Str("completed"), Str("failed")}
  {
    match v
    case Object(fields) =>
      if "status" !in fields then Fault                  // KeyError
      else if fields["status"] == Str("completed") || fields["status"] == Str("failed") then Terminal
      else Ongoing
    case _ => Fault                                       // TypeError: not subscriptable by a string
  }

  /** Python-equal documents get the same verdict: the test compares the `status` string by value. */
  lemma ClassifyRespectsPyEq(a: Value, b: Value)
    requires PyEq(a, b)
    ensures Classify(a) == Classify(b)
  {
    if a.Object? && "status" in a.fields {
      assert PyEq(a.fields["status"], b.fields["status"]);
    }
  }

  /** How `wait_for_job` ends: a terminal document, `None` after the timeout, or an exception. */
  datatype Outcome = Returned(doc: Value) | TimedOut | Raised

  /** The outcome, the documents passed to the progress callback, and the number of polls made. */
  datatype Watched = Watched(outcome: Outcome, delivered: seq<Value>, polls: nat)

  /** The poll result is acted upon: `status and status != last_status`. */
  predicate IsFresh(status: Option<Value>, last: Option<Value>)
    ensures IsFresh(status, last) ==> status.Some? && Truthy(status.value) && status != last
    ensures status.Some? && last.Some? && PyEq(last.value, status.value) ==> !IsFresh(status, last)
  {
    if last.None? then status.Some? && Truthy(status.value)
    else
      PyEqReflexive(last.value);
      if status.Some? then PyEqSymmetric(last.value, status.value); Truthy(status.value) && !PyEq(status.value, last.value)
      else false
  }

  /** A poll result on which a monitor with a non-terminal last document keeps polling. */
  predicate Quiet(status: Option<Value>) {
    status.None? || !Truthy(status.value) || Classify(status.value) == Ongoing
  }

  /**
   * The monitor loop over the successive poll results `obs`, with `last`
   * the last document acted upon and `notify` whether a callback was given.
   */
  function Watch(obs: seq<Option<Value>>, last: Option<Value>, notify: bool): (w: Watched)
    decreases |obs|
    ensures w.polls <= |obs|
    ensures obs != [] ==> w.polls >= 1
    ensures w.outcome.TimedOut? ==> w.polls == |obs|
    ensures !notify ==> w.delivered == []
  {
    if obs == [] then Watched(TimedOut, [], 0)
    else if IsFresh(obs[0], last) then
      var doc := obs[0].value;
      var cb := if notify then [doc] else [];
      match Classify(doc)
      case Terminal => Watched(Returned(doc), cb, 1)
      case Fault => Watched(Raised, cb, 1)
      case Ongoing =>
        var rest := Watch(obs[1..], obs[0], notify);
        Watched(rest.outcome, cb + rest.delivered, rest.polls + 1)
    else
      var rest := Watch(obs[1..], last, notify);
      Watched(rest.outcome, rest.delivered, rest.polls + 1)
  }

  /**
   * The monitor's state after `k` polls, having delivered `delivered` and
   * last acted on `last`: finishing the remaining polls yields `w`.
   */
  ghost predicate Resumes(w: Watched, obs: seq<Option<Value>>, k: nat, last: Option<Value>, delivered: seq<Value>, notify: bool)
    requires k <= |obs|
  {
    var rest := Watch(obs[k..], last, notify);
    w == Watched(rest.outcome, delivered + rest.delivered, k + rest.polls)
  }

  /** One poll of the monitor loop. */
  lemma ResumeStep(w: Watched, obs: seq<Option<Value>>, k: nat, last: Option<Value>, delivered: seq<Value>, notify: bool)
    requires k < |obs| && Resumes(w, obs, k, last, delivered, notify)
    ensures var status := obs[k];
      var cb := if notify && status.Some? then delivered + [status.value] else delivered;
      && (IsFresh(status, last) && Classify(status.value) == Terminal ==> w == Watched(Returned(status.value), cb, k + 1))
      && (IsFresh(status, last) && Classify(status.value) == Fault ==> w == Watched(Raised, cb, k + 1))
      && (IsFresh(status, last) && Classify(status.value) == Ongoing ==> Resumes(w, obs, k + 1, status, cb, notify))
      && (!IsFresh(status, last) ==> Resumes(w, obs, k + 1, last, delivered, notify))
  {
    assert obs[k..][0] == obs[k] && obs[k..][1..] == obs[k + 1..];
    if IsFresh(obs[k], last) && notify {
      assert delivered + [obs[k].value] + Watch(obs[k + 1..], obs[k], notify).delivered
        == delivered + ([obs[k].value] + Watch(obs[k + 1..], obs[k], notify).delivered);
    }
  }

  lemma ResumeEnd(w: Watched, obs: seq<Option<Value>>, last: Option<Value>, delivered: seq<Value>, notify: bool)
    requires Resumes(w, obs, |obs|, last, delivered, notify)
    ensures w == Watched(TimedOut, delivered, |obs|)
  {
    assert obs[|obs|..] == [];
  }

  /** The number of polls before the deadline: the loop runs while `5 * k < timeout`. */
  function PollCount(timeout: int): (n: nat)
    ensures timeout <= 0 ==> n == 0
    ensures timeout > 0 ==> PollInterval * (n - 1) < timeout <= PollInterval * n
  {
    if timeout <= 0 then 0 else (timeout - 1) / PollInterval + 1
  }

  /** Poll `k` (starting at 0) happens, `k * 5` ticks in, exactly when `k < PollCount(timeout)`. */
  lemma PollBeforeDeadline(timeout: int, k: nat, elapsed: int)
    requires elapsed == PollInterval * k
    ensures elapsed < timeout <==> k < PollCount(timeout)
    ensures elapsed + PollInterval == PollInterval * (k + 1)
  {
    var n := PollCount(timeout);
    if k < n {
      assert PollInterval * k <= PollInterval * (n - 1);
    } else {
      assert PollInterval * n <= PollInterval * k;
    }
  }

  /** Poll `k` read `obs[k]` from the file system `world(k)`. */
  predicate Observed(obs: seq<Option<Value>>, world: nat -> map<string, Content>, jobId: string, k: nat) {
    k < |obs| && obs[k] == Probe(world(k), jobId)
  }

  /** What the first `n` polls read when the remote file system is `world(k)` at poll `k`. */
  function Observations(world: nat -> map<string, Content>, jobId: string, n: nat): (obs: seq<Option<Value>>)
    ensures |obs| == n
    ensures forall k: nat :: k < n ==> Observed(obs, world, jobId, k)
  {
    seq(n, k requires 0 <= k < n => Probe(world(k), jobId))
  }

  /** The command log `start` followed by the `cat` commands of the first `n` polls. */
  function PollLog(start: seq<Command>, world: nat -> map<string, Content>, jobId: string, n: nat): seq<Command> {
    if n == 0 then start else PollLog(start, world, jobId, n - 1) + ProbeReads(world(n - 1), jobId, StatusDirs)
  }

  /** The remote file system after `n` polls, starting from `start`. */
  function PollFiles(start: map<string, Content>, world: nat -> map<string, Content>, n: nat): map<string, Content> {
    if n == 0 then start else world(n - 1)
  }

  /**
   * The callback never receives the same document twice in a row (absent
   * and empty reads leave the last document as it was), never receives the
   * document the loop started from, and receives only non-empty documents
   * that some poll returned.
   */
  lemma {:induction false} WatchNeverRepeats(obs: seq<Option<Value>>, last: Option<Value>, notify: bool)
    ensures var w := Watch(obs, last, notify);
      && (forall i :: 0 <= i < |w.delivered| - 1 ==> !PyEq(w.delivered[i], w.delivered[i + 1]))
      && (|w.delivered| > 0 && last.Some? ==> !PyEq(w.delivered[0], last.value))
      && (forall i :: 0 <= i < |w.delivered| ==> Truthy(w.delivered[i]) && Some(w.delivered[i]) in obs)
      && (!notify ==> w.delivered == [])
  {
    if obs != [] {
      var w := Watch(obs, last, notify);
      if IsFresh(obs[0], last) && Classify(obs[0].value) == Ongoing {
        var rest := Watch(obs[1..], obs[0], notify);
        WatchNeverRepeats(obs[1..], obs[0], notify);
        forall i | 0 <= i < |rest.delivered| ensures Some(rest.delivered[i]) in obs {
          assert Some(rest.delivered[i]) in obs[1..];
        }
        if notify {
          assert w.delivered == [obs[0].value] + rest.delivered;
          if rest.delivered != [] {
            PyEqSymmetric(obs[0].value, rest.delivered[0]);
          }
        }
      } else if !IsFresh(obs[0], last) {
        var rest := Watch(obs[1..], last, notify);
        WatchNeverRepeats(obs[1..], last, notify);
        forall i | 0 <= i < |rest.delivered| ensures Some(rest.delivered[i]) in obs {
          assert Some(rest.delivered[i]) in obs[1..];
        }
      }
    }
  }

  /**
   * The documents that differ from the one acted upon before them: each
   * non-empty poll result that is not equal to the last such result (or to
   * `last`, before the first one).
   */
  function Changes(obs: seq<Option<Value>>, last: Option<Value>): seq<Value>
    decreases |obs|
  {
    if obs == [] then []
    else if IsFresh(obs[0], last) then [obs[0].value] + Changes(obs[1..], obs[0])
    else Changes(obs[1..], last)
  }

  /**
   * With a callback, every changed document among the polls made reaches it,
   * in order, and nothing else does; without one, nothing is delivered.
   */
  lemma {:induction false} WatchDeliversEveryChange(obs: seq<Option<Value>>, last: Option<Value>, notify: bool)
    ensures var w := Watch(obs, last, notify);
      && w.polls <= |obs|
      && w.delivered == if notify then Changes(obs[..w.polls], last) else []
  {
    if obs != [] {
      var w := Watch(obs, last, notify);
      if IsFresh(obs[0], last) {
        if Classify(obs[0].value) == Ongoing {
          var rest := Watch(obs[1..], obs[0], notify);
          WatchDeliversEveryChange(obs[1..], obs[0], notify);
          assert obs[..w.polls][1..] == obs[1..][..rest.polls];
        } else {
          assert obs[..w.polls][1..] == [];
        }
      } else {
        var rest := Watch(obs[1..], last, notify);
        WatchDeliversEveryChange(obs[1..], last, notify);
        assert obs[..w.polls][1..] == obs[1..][..rest.polls];
      }
    }
  }

  /**
   * The monitor stops at the first poll that returns a fresh terminal (or
   * unreadable) document, with no further polls: every earlier poll was
   * absent, empty or in progress. It returns only a `completed` or `failed`
   * document, which is also the last one passed to the callback.
   */
  lemma {:induction false} WatchStopsAtFirstVerdict(obs: seq<Option<Value>>, last: Option<Value>, notify: bool)
    requires last.None? || Classify(last.value) == Ongoing
    ensures var w := Watch(obs, last, notify);
      && w.polls <= |obs|
      && (forall j :: 0 <= j < w.polls - 1 ==> Quiet(obs[j]))
      && (w.outcome.Returned? ==>
            && w.polls >= 1
            && obs[w.polls - 1] == Some(w.outcome.doc)
            && w.outcome.doc.Object?
            && "status" in w.outcome.doc.fields
            && w.outcome.doc.fields["status"] in {Str("completed"), Str("failed")}
            && (notify ==> w.delivered != [] && w.delivered[|w.delivered| - 1] == w.outcome.doc))
      && (w.outcome.Raised? ==>
            w.polls >= 1 && obs[w.polls - 1].Some? && Truthy(obs[w.polls - 1].value) &&
            Classify(obs[w.polls - 1].value) == Fault)
  {
    if obs != [] {
      var w := Watch(obs, last, notify);
      if IsFresh(obs[0], last) {
        if Classify(obs[0].value) == Ongoing {
          var rest := Watch(obs[1..], obs[0], notify);
          WatchStopsAtFirstVerdict(obs[1..], obs[0], notify);
          assert forall j :: 1 <= j < |obs| ==> obs[j] == obs[1..][j - 1];
          if notify && w.outcome.Returned? {
            assert w.delivered == [obs[0].value] + rest.delivered;
          }
        }
      } else {
        WatchStopsAtFirstVerdict(obs[1..], last, notify);
        assert forall j :: 1 <= j < |obs| ==> obs[j] == obs[1..][j - 1];
        if obs[0].Some? && Truthy(obs[0].value) {
          ClassifyRespectsPyEq(obs[0].value, last.value);
        }
        assert Quiet(obs[0]);
      }
    }
  }

  /** The monitor times out exactly when every poll up to the deadline was quiet, and then it made every poll. */
  lemma {:induction false} WatchTimesOutWhenQuiet(obs: seq<Option<Value>>, last: Option<Value>, notify: bool)
    requires last.None? || Classify(last.value) == Ongoing
    ensures var w := Watch(obs, last, notify);
      && (w.outcome.TimedOut? <==> forall j :: 0 <= j < |obs| ==> Quiet(obs[j]))
      && (w.outcome.TimedOut? ==> w.polls == |obs|)
  {
    if obs != [] {
      assert forall j :: 1 <= j < |obs| ==> obs[j] == obs[1..][j - 1];
      if IsFresh(obs[0], last) {
        if Classify(obs[0].value) == Ongoing {
          WatchTimesOutWhenQuiet(obs[1..], obs[0], notify);
        }
      } else {
        WatchTimesOutWhenQuiet(obs[1..], last, notify);
        if obs[0].Some? && Truthy(obs[0].value) {
          ClassifyRespectsPyEq(obs[0].value, last.value);
        }
        assert Quiet(obs[0]);
      }
    }
  }

  /**
   * Change detection is Python's `!=`: a document that differs from the
   * last one only by `true` where it had `1` is not a change, so the
   * callback receives the first document alone.
   */
  lemma WatchIgnoresTrueForOne(a: Value, b: Value)
    requires a == Object(map["status" := Str("running"), "n" := Int(1)])
    requires b == Object(map["status" := Str("running"), "n" := Bool(true)])
    ensures a != b
    ensures Watch([Some(a), Some(b)], None, true) == Watched(TimedOut, [a], 2)
  {
    assert a.fields["n"] != b.fields["n"];
    assert PyEq(b.fields["n"], a.fields["n"]) && PyEq(b.fields["status"], a.fields["status"]);
    assert PyEq(b, a);
    assert Truthy(a) && Classify(a) == Ongoing;
    var obs := [Some(a), Some(b)];
    assert obs[1..] == [Some(b)] && [Some(b)][1..] == [];
    assert !IsFresh(Some(b), Some(a));
    assert Watch([Some(b)], Some(a), true) == Watched(TimedOut, [], 1);
  }

  /**
   * A status source that reports `pending` twice and then `completed`: the
   * monitor returns the completed document after three polls, having passed
   * the pending document once and the completed one once.
   */
  lemma WatchPendingThenCompleted(pending: Value, completed: Value)
    requires pending == Object(map["status" := Str("pending")])
    requires completed == Object(map["status" := Str("completed")])
    ensures Watch([Some(pending), Some(pending), Some(completed)], None, true) ==
      Watched(Returned(completed), [pending, completed], 3)
  {
    var obs := [Some(pending), Some(pending), Some(completed)];
    assert "status" in pending.fields && "status" in completed.fields;
    assert Truthy(pending) && Truthy(completed);
    assert pending.fields["status"] != completed.fields["status"];
    assert Classify(pending) == Ongoing && Classify(completed) == Terminal;
    assert [Some(completed)][1..] == [];
    assert Watch([Some(completed)], Some(pending), true) == Watched(Returned(completed), [completed], 1);
    assert [Some(pending), Some(completed)][1..] == [Some(completed)];
    assert Watch([Some(pending), Some(completed)], Some(pending), true) == Watched(Returned(completed), [completed], 2);
    assert obs[1..] == [Some(pending), Some(completed)];
  }

  // ---------------------------------------------------------------------
  // The client object

  /** The caller's `parameters` dictionary, which `submit_job` updates in place. */
  class Parameters {
    var entries: map<string, Value>

    constructor (entries: map<string, Value>)
      ensures this.entries == entries
    {
      this.entries := entries;
    }
  }

  /**
   * `ServerCommunicator` on an open connection: the credentials store it
   * reads, the compute node's file system, and the commands sent so far.
   */
  class ServerCommunicator {
    const auth: Auth.AuthManager
    var files: map<string, Content>
    var issued: seq<Command>

    constructor (auth: Auth.AuthManager, files: map<string, Content>)
      ensures this.auth == auth && this.files == files && issued == []
    {
      this.auth := auth;
      this.files := files;
      this.issued := [];
    }

    /**
     * `submit_job`: adds the stored credentials to the caller's parameters,
     * writes the pending job document, and on a clean write runs the
     * processor guard and returns the job id; a write that reports on
     * stderr gives `None` and skips the guard.
     */
    method SubmitJob(functionName: string, params: Parameters, stamp: string, uuidHex: string, submitted: string,
                     writeErr: string, queueOut: string, batchOut: string)
      returns (r: Option<string>)
      modifies this`files, this`issued, params
      ensures params.entries == old(params.entries)["credentials" := CredentialsValue(auth.GetCredentials())]
      ensures var id := JobId(functionName, stamp, uuidHex);
              var doc := JobDocument(id, functionName, params.entries, submitted);
              var write := WriteFile(JobPath("pending", id), doc);
        if writeErr == [] then
          && r == Some(id)
          && files == old(files)[JobPath("pending", id) := Doc(doc)]
          && issued == old(issued) + [write] + GuardCommands(GuardDecision(queueOut, batchOut))
        else
          && r == None
          && files == old(files)
          && issued == old(issued) + [write]
    {
      var id := JobId(functionName, stamp, uuidHex);
      params.entries := params.entries["credentials" := CredentialsValue(auth.GetCredentials())];
      var doc := JobDocument(id, functionName, params.entries, submitted);
      var path := JobPath("pending", id);
      issued := issued + [WriteFile(path, doc)];
      if writeErr != [] {
        return None;
      }
      files := files[path := Doc(doc)];
      var _ := EnsureProcessorRunning(queueOut, batchOut);
      r := Some(id);
    }

    /** `get_job_status`: probes the status directories in order and stops at the first non-empty file. */
    method GetJobStatus(jobId: string) returns (r: Option<Value>)
      modifies this`issued
      ensures r == Probe(files, jobId)
      ensures issued == old(issued) + ProbeReads(files, jobId, StatusDirs)
    {
      var dirs := StatusDirs;
      while dirs != []
        invariant Probe(files, jobId) == ProbeFrom(files, jobId, dirs)
        invariant old(issued) + ProbeReads(files, jobId, StatusDirs) == issued + ProbeReads(files, jobId, dirs)
      {
        ProbeStep(files, jobId, dirs);
        var path := JobPath(dirs[0], jobId);
        ghost var later := ProbeReads(files, jobId, dirs[1..]);
        assert issued + [ReadFile(path)] + later == issued + ([ReadFile(path)] + later);
        assert issued + [ReadFile(path)] + [] == issued + [ReadFile(path)];
        issued := issued + [ReadFile(path)];
        match Read(files, path)
        case Doc(v) =>
          return Some(v);
        case Other(t) =>
          if t != [] {
            return None;  // json.loads raises; the handler returns None
          }
        dirs := dirs[1..];
      }
      r := None;
    }

    /** `cleanup_job`: removes the job's result tree and its completed document, and reports success regardless of stderr. */
    method CleanupJob(jobId: string) returns (ok: bool)
      modifies this`files, this`issued
      ensures ok
      ensures issued == old(issued) + [RemoveTree(ResultsPath(jobId)), RemoveFile(JobPath("completed", jobId))]
      ensures files == AfterCleanup(old(files), jobId)
    {
      issued := issued + [RemoveTree(ResultsPath(jobId))];
      files := Prune(files, ResultsPath(jobId));
      issued := issued + [RemoveFile(JobPath("completed", jobId))];
      files := files - {JobPath("completed", jobId)};
      ok := true;
    }

    /** `_ensure_processor_running`: submits the batch script only when the worker count reads as 0; errors are swallowed. */
    method EnsureProcessorRunning(queueOut: string, batchOut: string) returns (g: Guard)
      modifies this`issued
      ensures g == GuardDecision(queueOut, batchOut)
      ensures issued == old(issued) + GuardCommands(g)
    {
      issued := issued + [CountWorkers];
      var count := ParseInt(queueOut);
      if count.None? {
        return Unparsable;
      }
      if count.value != 0 {
        return AlreadyRunning(count.value);
      }
      issued := issued + [SubmitWorker];
      g := Started(Contains(batchOut, Acknowledgement));
    }

    /**
     * One iteration of the `wait_for_job` loop: the worker leaves the file
     * system as `world(k)`, the status is read, the callback fires for a
     * fresh document, and the loop stops on a terminal or unreadable one.
     */
    method PollStep(jobId: string, world: nat -> map<string, Content>, k: nat, last: Option<Value>,
                    delivered: seq<Value>, notify: bool, ghost obs: seq<Option<Value>>, ghost w: Watched)
      returns (stop: bool, outcome: Outcome, last': Option<Value>, delivered': seq<Value>)
      requires Observed(obs, world, jobId, k)
      requires Resumes(w, obs, k, last, delivered, notify)
      modifies this`files, this`issued
      ensures files == world(k)
      ensures issued == old(issued) + ProbeReads(world(k), jobId, StatusDirs)
      ensures stop ==> w == Watched(outcome, delivered', k + 1)
      ensures !stop ==> Resumes(w, obs, k + 1, last', delivered', notify)
    {
      ResumeStep(w, obs, k, last, delivered, notify);
      files := world(k);
      var status := GetJobStatus(jobId);
      last', delivered' := last, delivered;
      stop, outcome := false, TimedOut;
      if status.Some? && Truthy(status.value) && (last.None? || !PyEq(status.value, last.value)) {
        last' := status;
        if notify {
          delivered' := delivered + [status.value];
        }
        match Classify(status.value)
        case Terminal =>
          stop, outcome := true, Returned(status.value);
        case Fault =>
          stop, outcome := true, Raised;  // status['status'] raises out of wait_for_job
        case Ongoing =>
      }
    }

    /**
     * `wait_for_job`: polls every 5 ticks while fewer than `timeout` ticks
     * have passed; before poll `k` the worker has left the file system as
     * `world(k)`. `delivered` lists the documents passed to the callback.
     */
    method WaitForJob(jobId: string, timeout: int, notify: bool, world: nat -> map<string, Content>)
      returns (outcome: Outcome, delivered: seq<Value>)
      modifies this`files, this`issued
      ensures var w := Watch(Observations(world, jobId, PollCount(timeout)), None, notify);
        && outcome == w.outcome
        && delivered == w.delivered
        && issued == PollLog(old(issued), world, jobId, w.polls)
        && files == PollFiles(old(files), world, w.polls)
    {
      ghost var obs := Observations(world, jobId, PollCount(timeout));
      assert obs[0..] == obs;
      outcome, delivered := PollLoop(jobId, timeout, notify, world, obs, Watch(obs, None, notify));
    }

    /** The polling loop of `wait_for_job`, run against the poll results `obs` and their expected outcome `w`. */
    method PollLoop(jobId: string, timeout: int, notify: bool, world: nat -> map<string, Content>,
                    ghost obs: seq<Option<Value>>, ghost w: Watched)
      returns (outcome: Outcome, delivered: seq<Value>)
      requires |obs| == PollCount(timeout)
      requires forall k: nat :: k < |obs| ==> Observed(obs, world, jobId, k)
      requires Resumes(w, obs, 0, None, [], notify)
      modifies this`files, this`issued
      ensures outcome == w.outcome && delivered == w.delivered
      ensures issued == PollLog(old(issued), world, jobId, w.polls)
      ensures files == PollFiles(old(files), world, w.polls)
    {
      var elapsed := 0;
      var k: nat := 0;
      var last: Option<Value> := None;
      delivered := [];
      PollBeforeDeadline(timeout, k, elapsed);
      while elapsed < timeout
        invariant k <= |obs| && elapsed == PollInterval * k
        invariant elapsed < timeout <==> k < |obs|
        invariant Resumes(w, obs, k, last, delivered, notify)
        invariant issued == PollLog(old(issued), world, jobId, k)
        invariant files == PollFiles(old(files), world, k)
      {
        var stop;
        stop, outcome, last, delivered := PollStep(jobId, world, k, last, delivered, notify, obs, w);
        if stop {
          return;
        }
        PollBeforeDeadline(timeout, k, elapsed);
        elapsed := elapsed + PollInterval;
        k := k + 1;
        PollBeforeDeadline(timeout, k, elapsed);
      }
      ResumeEnd(w, obs, last, delivered, notify);
      outcome := TimedOut;
    }
  }
}
