# Satellite-processor client: job queue, credentials and output path

This project models the core of a desktop client for a remote satellite-data
processor. The client talks to a compute node over a command channel. The
compute node keeps a job queue as a directory tree:

- `jobs/pending`, `jobs/running`, `jobs/completed` and `jobs/failed` each hold one JSON document per job.
- `results/<job_id>` holds the job's output.

The model covers these parts of the client:

- **`JobQueue`** (`server_communicator.dfy`) models `ServerCommunicator`:
  - `SubmitJob` builds the job id and the job document. It adds the stored credentials to the caller's parameters, then writes the document into `pending`. After a clean write it runs the processor guard.
  - `GetJobStatus` probes the four status directories in order.
  - `EnsureProcessorRunning` counts the queued worker jobs and submits the batch script when there are none.
  - `WaitForJob` polls every 5 seconds. It ends in one of three ways:
    - it returns a fresh `completed` or `failed` document;
    - it returns `None` when the timeout expires;
    - it raises out of the loop when a fresh document has no usable `status` field.
  - `WaitForJob` calls the progress callback exactly on each changed, non-empty document.
  - `CleanupJob` removes the job's result tree and its completed-queue document.
  - In the model, the compute node's file system is a map from path to content. Every command sent is appended to a log. What the remote commands print is a parameter, and so are the timestamp and the uuid. The clock counts polls.
- **`Auth`** (`auth_manager.dfy`) models `AuthManager`, the credentials file. The file holds the user name on its first line and the password on its second. The module defines reading, saving, clearing and the "has credentials" test. The lemmas cover what a save followed by a read returns.
- **`OutputPath`** (`path_manager.dfy`) models `PathManager`, the saved output directory:
  - The stored path is used only while it is an existing directory, and a stale path is cleared.
  - Saving a path creates the directory.
  - Subdirectories are created under the saved path.
- **`Text`** (`text.dfy`) models the Python string operations the code relies on: `str.strip`, `readlines`, `int()` on a digit string, and the substring test `in`.
- **`Json`** (`json.dfy`) models the decoded JSON values and Python truthiness.
- **`Wrappers`** (`wrappers.dfy`) defines `Option`.

## Model

| member | source | states |
|---|---|---|
| Json.Truthy | core/server_communicator.py:264 | a decoded value is false exactly when it is `None`, `False` or `0`, `""`, `[]` or `{}` |
| Json.PyEq | core/server_communicator.py:264 | Python's `==` as `status != last_status` applies it: Python-equal values are of the same kind apart from `bool` against `int`, and `None` or a string is Python-equal only to itself (reflexivity, symmetry and truthiness are stated by Json.PyEqReflexive, Json.PyEqSymmetric and Json.PyEqKeepsTruthiness) |
| Json.PyEqKeepsTruthiness | core/server_communicator.py:264 | Python-equal values are both true or both false in an `if` |
| Json.PyEqReflexive | core/server_communicator.py:264 | every value is equal to itself under Python's `==` |
| Json.PyEqSymmetric | core/server_communicator.py:264 | Python's `==` on decoded values is symmetric |
| Json.PyEqIdentifiesTrueAndOne | core/server_communicator.py:264 | `{"n": true} == {"n": 1}` in Python although the decoded values differ |
| Text.Strip | core/auth_manager.py:42-43 | the stripped text is empty exactly when the input is all whitespace, and otherwise begins and ends with a non-whitespace character |
| Text.StripIsSlice | core/path_manager.py:41 | the stripped text is a contiguous slice of the input with only whitespace outside it |
| Text.StripSpaceSuffix | core/auth_manager.py:42-43 | a trailing whitespace character (the line's newline) does not change the stripped text |
| Text.StripUnchanged | core/path_manager.py:41 | text that has no whitespace at either end is left unchanged by strip |
| Text.NonBlank | core/auth_manager.py:24-31 | a stored file counts as non-empty exactly when it exists and holds some non-whitespace character |
| Text.Lines | core/auth_manager.py:40 | `readlines` splits the text into lines that concatenate back to it, each newline-free except for a final newline, with only the last line possibly unterminated |
| Text.LinesOfHead | core/auth_manager.py:40 | text made of a newline-free line, a newline and a rest splits into that line followed by the lines of the rest |
| Text.LinesOfJoin | core/auth_manager.py:40 | `user + "\n" + password` with newline-free parts reads as two lines, or as one when the password is empty |
| Text.Contains | core/server_communicator.py:237 | the substring test holds exactly when the part occurs at some index |
| Text.ParseInt | core/server_communicator.py:227 | `int()` accepts the text only when it holds a digit; a negative result needs a leading `-` once whitespace is stripped; a stripped run of digits (with single `_` separators) reads as its decimal value |
| Text.ParseIntDecimalLine | core/server_communicator.py:224-227 | the line `wc -l` prints for a count `n` parses back to `n` |
| Auth.ReadCredentials | core/auth_manager.py:33-48 | no credentials unless the file holds non-whitespace; credentials exactly when it also has at least two lines (which values they hold is stated by Auth.SaveThenRead and Auth.ReadIgnoresLaterLines) |
| Auth.Serialize | core/auth_manager.py:54 | for newline-free values the saved text reads as one line holding the user name, plus a second line when the password is non-empty |
| Auth.SaveThenRead | core/auth_manager.py:39-54 | saving values free of `\n` and `\r` and reading back returns them stripped when the password is non-empty and the two are not both blank, and otherwise returns no credentials |
| Auth.EmptyPasswordUnreadable | core/auth_manager.py:35-54 | after saving a non-blank user name free of `\n` and `\r` with an empty password, the file counts as holding credentials, yet reading them yields `(None, None)` |
| Auth.SaveThenReadExact | core/auth_manager.py:39-54 | values without `\n` or `\r`, without surrounding whitespace and with a non-empty password read back exactly as saved |
| Auth.ReadIgnoresLaterLines | core/auth_manager.py:40-44 | for first two lines free of `\r`, lines after the second do not affect the credentials read, which are the first two lines stripped |
| Auth.AuthManager.GetCredentials | core/auth_manager.py:33-48 | credentials are returned only when the file holds some, and exactly when it also has at least two lines |
| Auth.AuthManager.HasCredentials | core/auth_manager.py:22-31 | true exactly when the file exists and holds a non-whitespace character |
| Auth.AuthManager.SaveCredentials | core/auth_manager.py:50-58 | reports success and the file then holds user name, newline, password |
| Auth.AuthManager.ClearCredentials | core/auth_manager.py:125-132 | reports success, the file is gone, and afterwards there are no credentials and none can be read |
| OutputPath.StoredPath | core/path_manager.py:23-41 | a path is stored exactly when the file holds non-whitespace, and it has no surrounding whitespace |
| OutputPath.CurrentPath | core/path_manager.py:34-52 | the result is the stored path when that path is an existing directory, and nothing exactly when no path is stored or the path is not a directory |
| OutputPath.AfterGet | core/path_manager.py:45-50 | reading the path either keeps the stored file or removes it, and removes it exactly when a path is stored but is no existing directory |
| OutputPath.Join | core/path_manager.py:87 | `output / name` gives an absolute name as it is, leaves the output path unchanged for an empty name, and otherwise appends the name after exactly one `/` (none is added when the output path, such as the root `/`, already ends with one) |
| OutputPath.GetIsIdempotent | core/path_manager.py:34-52 | a second read returns the same path and clears nothing more; after a read, the file is blank exactly when the read found no path |
| OutputPath.SaveThenGet | core/path_manager.py:54-72 | a saved path without surrounding whitespace is read back unchanged and stays stored |
| OutputPath.PathManager.HasOutputPath | core/path_manager.py:23-32 | true exactly when a path is stored |
| OutputPath.PathManager.GetOutputPath | core/path_manager.py:34-52 | returns the current path; a stale stored path is removed; no result means no path is stored any more |
| OutputPath.PathManager.SaveOutputPath | core/path_manager.py:54-72 | succeeds exactly when the directory can be created; on success the directory exists and the path is stored, and a clean path then reads back; on failure nothing changes |
| OutputPath.PathManager.ClearOutputPath | core/path_manager.py:74-81 | reports success and no path is stored afterwards |
| OutputPath.PathManager.CreateSubdirectory | core/path_manager.py:83-90 | with no current path nothing is created; otherwise `output/name` is created, or creation raises and nothing is created; a stale stored path is cleared either way |
| JobQueue.JobPath | core/server_communicator.py:122-123 | the queue document of a job lies in `<base>/jobs/<dir>/` and is named `<job_id>.json` |
| JobQueue.ResultsPath | core/server_communicator.py:202 | the result root of a job is `<base>/results/` followed by the job id |
| JobQueue.Read | core/server_communicator.py:152-156 | `cat path 2>/dev/null` prints nothing for an absent file and the file's content otherwise |
| JobQueue.JobId | core/server_communicator.py:102 | the id starts with the function name and `_`, and ends with the first 8 characters of the uuid hex |
| JobQueue.CredentialsValue | core/server_communicator.py:105-109 | the `credentials` object has exactly the keys `username` and `password`, both null exactly when no credentials can be read, and otherwise the stored values |
| JobQueue.JobDocument | core/server_communicator.py:112-118 | the job document has exactly the five fields, carries the job id and status `pending`, and counts as a non-empty, in-progress document |
| JobQueue.JobIdInjective | core/server_communicator.py:102 | ids built from timestamps of equal length are equal only when function name, timestamp and 8-character uuid prefix all agree |
| JobQueue.JobIdIsSafe | core/server_communicator.py:102 | an id built from parts made only of ASCII letters, digits, `_`, `-` and `.` is a safe job id: one literal shell word, non-empty, not `.` or `..` |
| JobQueue.QueuePathInjective | core/server_communicator.py:150 | distinct (status directory, job id) pairs of slash-free names give distinct queue paths |
| JobQueue.ResultTreesDisjoint | core/server_communicator.py:202 | the result trees of two different safe job ids share no path |
| JobQueue.ServerCommunicator.SubmitJob | core/server_communicator.py:89-143 | the caller's parameters gain the stored credentials (null when none can be read); on a clean write the pending document is stored, the write and then the guard's commands are sent, and the job id is returned; on stderr output nothing is stored, only the write was sent, and the result is `None` |
| JobQueue.SubmittedJobIsPending | core/server_communicator.py:112-158 | right after submission the status lookup finds the submitted document, and its status is a non-terminal one |
| JobQueue.Probe | core/server_communicator.py:145-164 | `get_job_status` as a function over the file system: a document it returns is the content of the job's file in one of the four status directories; a file holding `null` gives `Some(Null)`, which stands for the `None` that `json.loads` returns there and, not being truthy, is treated by the monitor like an absent document |
| JobQueue.ProbeReads | core/server_communicator.py:149-154 | the probe sends at least one `cat` and never more than one per status directory |
| JobQueue.ProbeReadsInOrder | core/server_communicator.py:149-158 | the `cat` commands read the status directories in order, every file read before the last one was empty or absent, and the probe stops short of the last directory only at a non-empty file |
| JobQueue.ProbeFrom | core/server_communicator.py:149-160 | a document found is the content of the job's file in one of the probed directories |
| JobQueue.ProbeFindsFirst | core/server_communicator.py:149-158 | when the first non-empty file is a document, the lookup returns it after exactly that many reads |
| JobQueue.ProbeStopsAtMalformed | core/server_communicator.py:156-164 | when the first non-empty file is not a JSON document, the lookup returns `None` and reads no further directory |
| JobQueue.ProbeFindsNothing | core/server_communicator.py:149-160 | when every file is absent or empty, the lookup returns `None` after reading all directories |
| JobQueue.ProbeExactlyOne | core/server_communicator.py:149-160 | when the job's document is in exactly one status directory, the lookup returns it |
| JobQueue.ServerCommunicator.GetJobStatus | core/server_communicator.py:145-164 | returns the lookup's result and sends one read per directory probed, in order, stopping at the first non-empty file |
| JobQueue.GuardDecision | core/server_communicator.py:219-243 | the batch script is submitted exactly when the count parses as 0; an unparsable count is swallowed; a start is acknowledged exactly when `Submitted batch job` occurs in the reply |
| JobQueue.GuardCommands | core/server_communicator.py:223-234 | the guard sends the worker-count query first, and the `sbatch` submission as a second command exactly when it starts a worker |
| JobQueue.GuardReadsWorkerCount | core/server_communicator.py:223-229 | fed the count line for `n` workers, the guard submits exactly when `n` is 0, and otherwise reports `n` running |
| JobQueue.ServerCommunicator.EnsureProcessorRunning | core/server_communicator.py:219-243 | returns the guard's decision and sends the count command, plus the submission only when it starts a worker |
| JobQueue.Prune | core/server_communicator.py:202 | `rm -rf root` keeps exactly the files not under the root, with their contents |
| JobQueue.AfterCleanup | core/server_communicator.py:200-204 | cleanup removes exactly the files under the job's result root and its completed document, and keeps every other file unchanged |
| JobQueue.Under | core/server_communicator.py:202 | `rm -rf root` reaches a path exactly when the root is a prefix of it ending at a component boundary: the path is the root, continues with `/`, or the root itself ends in `/` |
| JobQueue.ServerCommunicator.CleanupJob | core/server_communicator.py:197-217 | reports success, sends the two removals, and leaves the file system without the job's result tree and completed document |
| JobQueue.CleanupSparesOtherJobs | core/server_communicator.py:200-204 | cleanup of one safe job id leaves every queue document and result file of any other safe job id unchanged |
| JobQueue.CleanupSparesLiveDocuments | core/server_communicator.py:200-204 | cleanup leaves the job's own pending, running and failed documents unchanged |
| JobQueue.CleanupWithEmptyIdRemovesAllResults | core/server_communicator.py:202 | with an empty job id, `rm -rf <base>/results/` removes every job's results |
| JobQueue.CleanupStaysInScope | core/server_communicator.py:200-204 | for a safe job id, every path cleanup removes lies in the job's result tree or is its completed document, and so lies under the base path |
| JobQueue.Classify | core/server_communicator.py:270 | a fresh document ends the loop with a return exactly when its `status` is `completed` or `failed`, and raises exactly when it is not an object or has no `status` key |
| JobQueue.IsFresh | core/server_communicator.py:264 | a poll result is acted upon only when it is a non-empty document that differs from the last one, and never when the last one is Python-equal to it |
| JobQueue.Watch | core/server_communicator.py:259-276 | the monitor loop over the successive poll results makes at most one poll per result and at least one when there is any; it times out only after making them all, and delivers nothing without a callback |
| JobQueue.ClassifyRespectsPyEq | core/server_communicator.py:264-271 | documents equal under Python's `==` get the same verdict |
| JobQueue.PollCount | core/server_communicator.py:261-273 | the number of polls before the deadline: none for a non-positive timeout, and otherwise the least `n` with `5n >= timeout` |
| JobQueue.PollBeforeDeadline | core/server_communicator.py:261-273 | after `k` polls the loop condition holds exactly when `k` is below the poll count |
| JobQueue.WatchNeverRepeats | core/server_communicator.py:259-268 | no two documents passed to the callback in a row are equal under Python's `==`, the first is not equal to the starting document, every one is non-empty and returned by some poll, and nothing is passed when no callback is given |
| JobQueue.WatchDeliversEveryChange | core/server_communicator.py:259-268 | with a callback, the documents passed to it are exactly the changed, non-empty poll results among the polls made, in order (JobQueue.Changes); without one, nothing is passed |
| JobQueue.WatchStopsAtFirstVerdict | core/server_communicator.py:261-271 | the monitor stops at the first fresh terminal or malformed document, and every earlier poll was absent, empty or in progress; a returned document has status `completed` or `failed` and is the last one passed to the callback |
| JobQueue.WatchTimesOutWhenQuiet | core/server_communicator.py:261-276 | the monitor times out exactly when every poll before the deadline was quiet, and then it made all those polls |
| JobQueue.WatchIgnoresTrueForOne | core/server_communicator.py:264-268 | a document that differs from the last one only by `true` in place of `1` is not a change: the callback receives the first document alone |
| JobQueue.WatchPendingThenCompleted | core/server_communicator.py:258-276 | polls returning pending, pending, completed give the completed document after three polls, with pending and completed each passed to the callback once |
| JobQueue.ServerCommunicator.PollStep | core/server_communicator.py:262-273 | one poll reads the job's status from that tick's file system and keeps the loop's state in step with JobQueue.Watch |
| JobQueue.ServerCommunicator.PollLoop | core/server_communicator.py:258-276 | the loop ends with the outcome and callback deliveries of JobQueue.Watch, having sent the reads of exactly the polls JobQueue.Watch makes |
| JobQueue.ServerCommunicator.WaitForJob | core/server_communicator.py:245-276 | the outcome and callback deliveries are those of JobQueue.Watch over the polls made before the deadline, and the command log and file system reflect exactly those polls |

## Left out

- The SSH transport (`connect`, `disconnect` and the gateway hop) is not modelled: the compute node is an abstract file map and command log. So is the path where `compute_client` is missing and each method's broad `except` returns `None` or `False`.
- An exception raised by the channel itself (a network failure inside `exec_command`) is not modelled. Only the failures that come from the returned text are: stderr from the job write, an unparsable worker count, and content that is not JSON.
- `download_results` (scp), `test_credentials`, `cleanup_server_jobs`, the GUI, `utils` and the desktop-shortcut script are not part of this model.
- No operation in the core cancels a remote job: `disconnect` only closes the two SSH clients, and the monitor's timeout leaves the remote job running.
- The JSON text and shell quoting are not modelled: a job document is written and read back as a decoded `Value`. So a `'` inside the document, which breaks the `echo '...'` command, is not captured. JSON floats are not represented; change detection compares decoded values with Python's `==` (Json.PyEq), so `true` equals `1` and `false` equals `0`.
- The clock, `time.sleep`, `datetime.now()` and `uuid.uuid4()` become inputs. The formatted timestamp, the submission time and the uuid hex are parameters. The clock advances 5 seconds per poll, and the time a status lookup takes is not counted.
- The worker process that moves documents between status directories is not modelled. Its effect is an input: one file-system snapshot per poll.
- JobQueue.ServerCommunicator.SubmitJob: a write that prints on stderr is taken to leave the file system unchanged. In fact stderr output does not mean the write failed: a warning printed when the remote shell starts can come with a complete write, and then the document lands in `pending` and the worker runs the job although `submit_job` returns `None`. A partial write is possible too.
- JobQueue.ServerCommunicator.CleanupJob: the job id is taken as one literal path, and removal is by path prefix. A root ending in `/` covers everything below it, so with an empty job id the model removes every job's results, as the shell does (JobQueue.CleanupWithEmptyIdRemovesAllResults). For other ids the shell may split the id into several words or expand it, for example at a space or `*`. It also resolves `.` and `..`. The model does not capture either. So the scope lemmas (JobQueue.CleanupSparesOtherJobs, JobQueue.CleanupSparesLiveDocuments, JobQueue.CleanupStaysInScope) require a safe job id: non-empty, made only of ASCII letters, digits, `_`, `-` and `.`, and not `.` or `..`. Ids that `submit_job` builds from a function name, timestamp and uuid hex of that alphabet are safe (JobQueue.JobIdIsSafe). Nothing in `submit_job` checks the function name itself.
- Text.ParseInt: only ASCII digits are accepted. Python's `int()` also accepts other Unicode decimal digits. The contract does not state the full grammar of signs and separators; the count line `wc -l` prints is covered by Text.ParseIntDecimalLine.
- Text.Lines: lines are split on `\n` only. Universal-newline translation of `\r` and `\r\n` on read is not modelled.
- OutputPath.PathManager.SaveOutputPath: the path string is stored as given. `pathlib` normalisation (`str(Path(p))` drops a trailing `/` and turns `""` into `.`) is not modelled. Creation of missing parent directories is collapsed into one "directory exists" set, and the set `blocked` stands for paths where `mkdir` raises.
- OutputPath.PathManager.CreateSubdirectory: `output / name` follows POSIX pathlib for absolute, empty and relative names, and adds no second `/` after an output path that already ends with one. The Windows separator `\` and drive-qualified names are not modelled, and neither is pathlib's normalisation of `name` (repeated or trailing `/`, `.` segments). `mkdir(parents=True)` also creates the intermediate directories of a name such as `a/b`; the model adds only the leaf to `dirs`.
- OutputPath.CurrentPath: `dirs` holds path spellings, and the stored text is looked up as it is spelled. `pathlib.Path` normalises it first, so Python keeps a stored `/data/out/` when `/data/out` is a directory, while the model reports no path and OutputPath.AfterGet clears the setting.
- Auth.AuthManager.SaveCredentials, Auth.AuthManager.ClearCredentials and OutputPath.PathManager.ClearOutputPath: I/O errors on the configuration files are not modelled, so these always report success. A read that raises is likewise not modelled.
- JobQueue.ServerCommunicator.WaitForJob: the progress callback is modelled as the list of documents passed to it. An exception raised inside the callback is not modelled.
