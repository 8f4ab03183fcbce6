# Video downloader server: job registry, request derivation and job outcome

A Dafny model of the deterministic core of `server.js`, an Express server that
downloads media with an external command-line tool and pushes progress to the
browser over server-sent events.

Three parts of the server are modelled:

- **The progress subscriber registry.** This is the module-level `clients` map
  from job key to the set of open progress responses. `Subscribers.Registry` is
  a class with two fields. `clients` is that map. `streams` records what
  `res.write` has sent to each connection. Its methods are the registration done
  by the progress endpoint, the endpoint's close handler, and `sendProgress`.
  Each method is specified against a pure step function (`Step`) over a `Hub`
  value. Lemmas about `Run` cover any sequence of callbacks, in whatever order
  the event loop runs them. They prove that no key is kept with an empty set,
  that unsubscribing is idempotent, that a subscriber receives broadcasts in the
  order they were made, and that jobs are isolated from each other.
- **What the download handler derives from the request body.** This covers the
  job key, `safeId`, the sanitised file name and the `.mp4` suffix rule
  (`Naming`). It also covers the progress pattern `/(\d+(\.\d+)?)%/`
  (`Percent`). The matcher is proved to return the leftmost match of the
  regular expression, stated through a declarative predicate `MatchesAt`. It
  returns nothing exactly when the expression has no match. The two
  `Date.now()` readings are parameters. The matched number is kept as digit
  strings, and its value as an exact rational.
- **The download job's lifecycle** (`Server`). `StartDownload` validates the
  request and derives the job. `OnOutput` is the stdout callback. `OnClose` is
  the exit callback: it broadcasts 100 or 0 to the job's subscribers before it
  produces the reply. `OpenProgress` is the progress endpoint.

The model follows `server.js` as written on these points:

- Progress is routed under the trimmed but unsanitised job key. The sanitised
  `safeId` only names a generated file.
- The progress endpoint subscribes under the raw query value, which is not
  trimmed.
- The `.mp4` test ignores case.
- A truthy `downloadDir` that is not a string makes `path.resolve` throw. This
  happens outside the `try`, so the framework's own 500 answers it
  (`UncaughtError`).
- An exit code of `null` (the tool was killed by a signal) counts as a failure.

## Model

| member | source | states |
|---|---|---|
| `Subscribers.Registry.constructor` | server.js:10 | The registry starts with no job keys and nothing written to any connection. |
| `Subscribers.Registry.Subscribe` | server.js:35-38 | After subscribing, `c` is in the set for `k`. That set is the old one plus `c`, and the entry is created only if it was missing. Every other key's set is unchanged, no stream changes, and the no-empty-entry invariant holds. |
| `Subscribers.Registry.Unsubscribe` | server.js:40-48 | Afterwards `c` is no longer a subscriber of `k` and the rest of `k`'s set is kept. An emptied entry is deleted, and an absent key leaves the map as it was. Other keys and all streams are unchanged, and the invariant holds. |
| `Subscribers.Registry.Broadcast` | server.js:51-58 | The loop over the set appends exactly one event `{jobId: k, progress: v}` to each subscriber of `k`. It leaves every other connection's log unchanged, and it does nothing when `k` has no entry. The map itself is unchanged. |
| `Subscribers.StepKeepsNoEmptyEntry` | server.js:35-47 | Each registry callback preserves "no job key maps to an empty set". |
| `Subscribers.RunKeepsNoEmptyEntry` | server.js:35-47 | Every interleaving of callbacks preserves "no job key maps to an empty set". |
| `Subscribers.LeaveIdempotent` | server.js:40-48 | Unsubscribing twice equals unsubscribing once. |
| `Subscribers.JoinThenLeave` | server.js:35-48 | Take a connection that was not subscribed. If it subscribes and then disconnects, the registry is back to what it was. An entry it created is pruned again. |
| `Subscribers.StepLog` | server.js:51-58 | A callback changes a connection's log only when it is a broadcast to a key that connection is subscribed to. The change is then exactly one appended event. |
| `Subscribers.RunLog` | server.js:35-58 | Over any sequence of callbacks, a connection's log becomes its old log followed by `Received`. `Received` is one event per broadcast made while the connection was subscribed to that key, in broadcast order. |
| `Subscribers.ReceivedOnlyOwnJob` | server.js:35-58 | A connection that only ever subscribes to `k` receives only events whose `jobId` is `k`. |
| `Subscribers.ReceivedSends` | server.js:51-58 | While nobody subscribes or leaves, a run of broadcasts for `k` reaches each subscriber of `k` as the same values in the same order. It reaches nobody else. |
| `Subscribers.SendsAppend` | server.js:51-58 | The broadcasts of two runs of values, one after the other, are the broadcasts of the joined values. |
| `Subscribers.RunAppend` | server.js:35-58 | Running two sequences of callbacks one after the other is the same as running them joined. |
| `Text.TrimStart` | server.js:67 | The result is a suffix of the input. Only whitespace was removed before it, and it does not start with whitespace. |
| `Text.TrimEnd` | server.js:67 | The result is a prefix of the input. Only whitespace was removed after it, and it does not end with whitespace. |
| `Text.Trim` | server.js:67 | `trim()` gives a result that neither starts nor ends with whitespace. |
| `Text.TrimSpec` | server.js:67 | `trim()` keeps a contiguous piece of the input and removes only whitespace around it. The result is empty exactly when the input is all whitespace. |
| `Text.TrimIdempotent` | server.js:67 | Trimming twice equals trimming once. |
| `Text.Filter` | server.js:68 | `replace(/[class]/g, "")` keeps only characters of the class and never adds a character. |
| `Text.FilterCounts` | server.js:68 | Every kept character occurs in the result exactly as often as in the input. |
| `Text.FilterAppend` | server.js:68 | Filtering a concatenation gives the filtered parts, concatenated in order. |
| `Text.FilterKeepsClean` | server.js:70 | A string made only of kept characters is returned unchanged. |
| `Text.FilterIdentityIff` | server.js:68-70 | Filtering is idempotent, and it returns its input exactly when every input character is kept. |
| `Text.NatToString` | server.js:67 | A clock reading prints as a non-empty digit string that starts with `0` only for 0. |
| `Text.NatToStringRoundTrip` | server.js:67 | Reading the printed digits back gives the clock reading. |
| `Naming.JobKey` | server.js:67 | The job key is never empty and has no whitespace at either end. |
| `Naming.JobKeySpec` | server.js:67 | A string `jobId` with a non-whitespace character is used trimmed. Otherwise the key is `job-` followed by exactly the printed clock reading (no leading zeros), whose digits read back as that reading, and such a key is its own `safeId`. |
| `Naming.TrimmedKeyUsed` | server.js:67 | A string `jobId` with no whitespace at either end is used as the job key unchanged. |
| `Naming.SafeIdSpec` | server.js:68 | `safeId` holds only `[a-zA-Z0-9_-]` and keeps every such character of the key, with the same multiplicity. It equals the key exactly when the key is already safe. |
| `Naming.SafeId` | server.js:68 | `jobKey.replace(/[^a-zA-Z0-9_-]/g, "")`: the key with every character outside `[a-zA-Z0-9_-]` removed. `Naming.SafeIdSpec` states its contract. |
| `Naming.Sanitize` | server.js:69-70 | The trimmed name with the characters `/ \ ? % * :`, vertical bar, `"`, `<` and `>` removed. `Naming.SanitizedAlready` and `Naming.FileNameSpec` state what it keeps and removes. |
| `Naming.SanitizedName` | server.js:69-70 | The sanitised `filename` when it is a string, otherwise the empty name. |
| `Naming.HasMp4Suffix` | server.js:72 | `name.toLowerCase().endsWith(".mp4")`. |
| `Naming.FileName` | server.js:67-73 | The saved name from `filename`, the job key and the clock reading: the suffix rule applied to the sanitised name and `safeId`. `Naming.FileNameSpec` and `Naming.CleanNameKept` state its contract. |
| `Naming.AppendedSuffix` | server.js:72 | Appending `.mp4` always passes the case-insensitive `.mp4` test. |
| `Naming.FinalName` | server.js:71-73 | The final name always ends in `.mp4`, compared ignoring case. A non-empty sanitised name is returned unchanged exactly when it already ends in `.mp4`. Otherwise `.mp4` itself is appended to it, so the suffix is never doubled. An empty sanitised name gives `video_` + `safeId` + `.mp4`, or `video_` + the printed clock reading + `.mp4` when `safeId` is empty. |
| `Naming.FinalNameIdempotent` | server.js:71-73 | Applying the suffix rule to its own result changes nothing. |
| `Naming.FinalNameClean` | server.js:70-73 | Take a clean sanitised name and a safe identifier. Every branch of the rule then gives a name with no stripped character. |
| `Naming.FileNameSpec` | server.js:69-73 | Whatever `filename` is, the saved name has none of the stripped characters (slash, backslash, `?`, `%`, `*`, colon, vertical bar, double quote, `<`, `>`) and ends in `.mp4`. It is one path component, never `.` or `..`. |
| `Naming.SanitizedAlready` | server.js:69-70 | A clean name with no surrounding whitespace comes through sanitising unchanged. |
| `Naming.CleanNameKept` | server.js:69-73 | Such a name is saved as itself when it already ends in `.mp4` in any case. Otherwise `.mp4` is appended. |
| `Naming.SuffixAppended` | server.js:69-72 | The second case of `Naming.CleanNameKept` on its own: such a name that does not end in `.mp4` in any case is saved with `.mp4` appended. |
| `Naming.PlainNameExample` | server.js:69-73 | `filename: "clip"` is saved as `clip.mp4`. |
| `Naming.UpperCaseSuffixExample` | server.js:71-72 | `filename: "Clip.MP4"` is saved as `Clip.MP4`. |
| `Naming.GeneratedNameExample` | server.js:73 | With no file name and job key `abc`, the file is `video_abc.mp4`. |
| `Percent.MatchAt` | server.js:95 | The regular expression tried at one index. `Percent.MatchAtCorrect` proves it equal to the declarative `MatchesAt`. |
| `Percent.FindPercent` | server.js:95 | `text.match(/(\d+(\.\d+)?)%/)`, giving the index and group 1. `Percent.FindPercentCorrect` proves it leftmost and complete. |
| `Percent.Value` | server.js:97 | `Number(match[1])` as an exact rational: integer digits plus fraction digits over a power of ten. `Percent.ValueBounds` bounds it. |
| `Percent.DigitRunEnd` | server.js:95 | `\d+` ends at the first non-digit: everything before that point is a digit. |
| `Percent.MatchAtCorrect` | server.js:95 | At a given index, the computed match is `d` exactly when the regular expression matches there with group 1 spelling `d`. So there is at most one match per index. |
| `Percent.FindFromCorrect` | server.js:95 | Scanning from `i` finds the leftmost match at or after `i`. It finds nothing exactly when there is no match from `i` on. |
| `Percent.FindPercentCorrect` | server.js:95 | `text.match` returns a match with no match further left. It returns null exactly when the pattern matches nowhere. |
| `Percent.FindPercentWellFormed` | server.js:95 | A match is a non-empty integer digit run with optional fraction digits. |
| `Percent.ParseProgress` | server.js:94-95 | A chunk yields a well-formed number, or nothing. |
| `Percent.ValueBounds` | server.js:97 | The value of the match lies in `[W, W+1)`, where `W` is the number the integer digits denote. |
| `Percent.DanglingPointNoMatch` | server.js:95 | `"5.%"` has no match. |
| `Percent.LeftmostMatchExample` | server.js:95 | `"1.2.3%"` matches `2.3` at index 2. |
| `Server.TargetDir` | server.js:74 | `downloadDir ? path.resolve(downloadDir) : DEFAULT_SAVE_DIR`. A truthy non-string makes `path.resolve` throw, which is modelled as no directory. |
| `Server.StartDownload` | server.js:60-82 | A falsy `url` is answered 400 "No URL provided" before anything else. A truthy non-string `downloadDir` makes `path.resolve` throw, answered by the framework's 500. A directory that cannot be created is answered 500 "Could not access download directory.". The tool is launched exactly when the URL is truthy, the directory resolves and it could be created. A launched job carries the derived key, file name and output path. |
| `Server.LaunchedJobSpec` | server.js:67-82 | A launched job has a non-empty key. It saves under a clean `.mp4` name that is the last path component. |
| `Server.LaunchWith` | server.js:60-82 | Take a truthy URL with no directory given. The job then has the derived key and name, and its output path is in the default directory. |
| `Server.Closing` | server.js:101-119 | The close callback's decision: the final broadcast value and the reply. `Server.ClosingSpec` states its contract. |
| `Server.ClosingSpec` | server.js:101-119 | The final value is 100 exactly on success (exit code 0 and the file exists) and 0 otherwise. The reply is an error exactly when the value is 0, and on failure it is 500 "Download failed". On success the reply is the file download exactly when `streamToClient` is truthy, and the `{ok, fileName, savedPath}` acknowledgement exactly when it is falsy. Both name the job's file and path. |
| `Server.OnOutput` | server.js:93-99 | A chunk with a percentage broadcasts its value under the job key, and only then. A chunk without one changes nothing. |
| `Server.OnClose` | server.js:101-120 | Before the reply is produced, every subscriber of the job key has 100 (success) or 0 (failure) appended to its log. Other connections are untouched, and the reply is the one the decision table gives. |
| `Server.OpenProgress` | server.js:24-39 | A missing or empty `jobId` is refused and nothing is registered. Otherwise the connection is subscribed under the query value as given. |
| `Server.ParsedValuesAppend` | server.js:93-99 | The values parsed from consecutive chunks are consecutive. |
| `Server.RunJob` | server.js:93-120 | The stdout callback runs once per chunk, in order, and then the close callback runs. Together they take the registry exactly to `Run` of the job's broadcasts: every parsed value, then the final 0 or 100. The reply is the close callback's. This links `Server.JobDelivery` to the callbacks. |
| `Server.JobDelivery` | server.js:93-108 | Over a whole job, a subscriber receives every parsed value in order and then, last, 100 on success or 0 on failure. A connection not subscribed to the job receives nothing from it. |
| `Server.NoCrossTalk` | server.js:35-58 | Two jobs running at once: a connection that only subscribes to job `a` keeps its old log as a prefix. Every later event in its log has `jobId` `a`. |
| `Server.ClipLaunch` | server.js:60-82 | The request `{url, jobId: "abc", filename: "clip"}` starts job `abc` saving `clip.mp4` in the default directory. |
| `Server.ClipScenario` | server.js:60-119 | The request from `ClipLaunch` is answered `{ok: true, fileName: "clip.mp4", savedPath}` when the tool succeeds. |

## Left out

- Express setup, static files, the event-stream headers and flushing, and `app.listen` are framework plumbing.
- `yt-dlp` itself is not modelled. Launching it and its argument list are left out, since it is an external process. Only its observable outputs are modelled: stdout chunks, the exit code, and whether the file exists afterwards.
- Standard error of the tool is ignored by the server and by the model.
- Filesystem calls are not modelled. `fs.mkdirSync` success and `fs.existsSync` are boolean inputs. `res.download` and the `fs.unlink` after it are left out.
- `path.resolve`, `path.join` and `process.cwd()` depend on the OS. They stay symbolic (`ResolvedDir`, `Joined`, `DefaultDir`).
- `Date.now()` is a parameter. The two readings the handler may take are two parameters.
- `Number(match[1])` is kept as an exact rational. Float rounding is not modelled.
- The byte-to-text decoding of a stdout chunk is not modelled: a chunk is a string.
- The JSON text of an event (`data: {...}\n\n`) and of replies is not modelled.
- Each callback is one atomic step on the shared registry. The event loop's scheduling is any order of steps; `Run` and its lemmas cover every such order.
- Server.OpenProgress: takes `jobId` as an optional string. An array or object from a repeated or nested query parameter is not modelled.
- Naming.FinalName: `toLowerCase` is modelled on ASCII letters only. The suffix test compares just `.`, `m`, `p`, `4`, which no other character lowers to. A character whose lower case is longer still gives the same verdict.
- Server.JobDelivery: fixes the subscriber set for the whole job. Subscriptions that change mid-job are covered by `Subscribers.RunLog` and `Server.NoCrossTalk`. `Server.RunJob` proves that the callbacks produce exactly the broadcasts the lemma is about.
