/**
 * The two route handlers of the server and the callbacks they install: the
 * progress endpoint, and the download handler with its output and close
 * callbacks, all acting on the one shared subscriber registry.
 */
module Server {
  import opened Wrappers
  import opened Text
  import opened Percent
  import opened Subscribers
  import opened Naming

  /** The directory the file is saved in: the working directory, or `path.resolve(downloadDir)`. */
  datatype Dir = DefaultDir | ResolvedDir(arg: string)

  /** `path.join(targetDir, finalName)`, kept symbolic. */
  datatype OutputPath = Joined(dir: Dir, name: string)

  /** The JSON body of a download request; a missing field (or a missing body) is `Undefined`. */
  datatype DownloadRequest = DownloadRequest(
    url: JsValue, jobId: JsValue, downloadDir: JsValue, filename: JsValue, streamToClient: JsValue)

  /** The response a download request ends with. */
  datatype Reply =
    | BadRequest(error: string)                       // status 400 with `{ error }`
    | ServerError(error: string)                      // status 500 with `{ error }`
    | UncaughtError                                   // an exception escapes the handler: the framework's 500
    | FileDownload(path: OutputPath, name: string)    // the file itself, sent under `name`
    | Saved(fileName: string, savedPath: OutputPath)  // `{ ok: true, fileName, savedPath }`

  /** What the close callback needs of a running job. */
  datatype Job = Job(url: JsValue, key: string, fileName: string, outputPath: OutputPath, streamToClient: JsValue)

  datatype Start = Rejected(reply: Reply) | Launched(job: Job)

  /** `downloadDir ? path.resolve(downloadDir) : DEFAULT_SAVE_DIR`; `path.resolve` throws (None) on a truthy non-string. */
  function TargetDir(downloadDir: JsValue): Option<Dir> {
    if !Truthy(downloadDir) then Some(DefaultDir)
    else if downloadDir.Str? then Some(ResolvedDir(downloadDir.s))
    else None
  }

  /**
   * The download handler up to launching the tool. `keyTime` and `nameTime`
   * are the two clock readings it may take; `dirCreated` is whether creating
   * the target directory succeeded. The tool is launched only for a truthy
   * URL and a usable, created directory; a missing URL is rejected before
   * anything else is looked at.
   */
  function StartDownload(req: DownloadRequest, keyTime: nat, nameTime: nat, dirCreated: bool): (r: Start)
    ensures r.Launched? <==> Truthy(req.url) && TargetDir(req.downloadDir).Some? && dirCreated
    ensures !Truthy(req.url) ==> r == Rejected(BadRequest("No URL provided"))
    ensures Truthy(req.url) && TargetDir(req.downloadDir).None? ==> r == Rejected(UncaughtError)
    ensures Truthy(req.url) && TargetDir(req.downloadDir).Some? && !dirCreated ==>
      r == Rejected(ServerError("Could not access download directory."))
    ensures r.Launched? ==>
      r.job.url == req.url && r.job.streamToClient == req.streamToClient &&
      r.job.key == JobKey(req.jobId, keyTime) &&
      r.job.fileName == FileName(req.filename, r.job.key, nameTime) &&
      r.job.outputPath == Joined(TargetDir(req.downloadDir).value, r.job.fileName)
  {
    if !Truthy(req.url) then Rejected(BadRequest("No URL provided"))
    else
      var key := JobKey(req.jobId, keyTime);
      var name := FileName(req.filename, key, nameTime);
      match TargetDir(req.downloadDir)
      case None => Rejected(UncaughtError)
      case Some(dir) =>
        if !dirCreated then Rejected(ServerError("Could not access download directory."))
        else Launched(Job(req.url, key, name, Joined(dir, name), req.streamToClient))
  }

  /** Every launched job has a non-empty key and saves under a clean ".mp4" name as the last path component. */
  lemma LaunchedJobSpec(req: DownloadRequest, keyTime: nat, nameTime: nat, dirCreated: bool)
    requires Truthy(req.url) && TargetDir(req.downloadDir).Some? && dirCreated
    ensures StartDownload(req, keyTime, nameTime, dirCreated).Launched?
    ensures var job := StartDownload(req, keyTime, nameTime, dirCreated).job;
      job.key != [] && HasMp4Suffix(job.fileName) && IsPathComponent(job.fileName) &&
      Clean(job.fileName) && job.outputPath.name == job.fileName
  {
    var job := StartDownload(req, keyTime, nameTime, dirCreated).job;
    FileNameSpec(req.filename, job.key, nameTime);
  }

  /** The tool succeeded: it exited normally with code 0 and the file is there. A signal gives code `null`. */
  predicate Succeeded(code: Option<int>, fileExists: bool) {
    code == Some(0) && fileExists
  }

  /** The final broadcast value and the response of the close callback. */
  datatype Outcome = Outcome(progress: real, reply: Reply)

  /** The close callback's decision. */
  function Closing(job: Job, code: Option<int>, fileExists: bool): Outcome {
    if !Succeeded(code, fileExists) then Outcome(0.0, ServerError("Download failed"))
    else if Truthy(job.streamToClient) then Outcome(100.0, FileDownload(job.outputPath, job.fileName))
    else Outcome(100.0, Saved(job.fileName, job.outputPath))
  }

  /**
   * The close callback's decision table: the final value is 100 exactly on
   * success and 0 otherwise; it agrees with the response, which is an error
   * exactly on failure; a success delivers the saved file by name.
   */
  lemma ClosingSpec(job: Job, code: Option<int>, fileExists: bool)
    ensures var o := Closing(job, code, fileExists);
      (o.progress == 100.0 <==> Succeeded(code, fileExists)) &&
      (o.progress == 0.0 <==> !Succeeded(code, fileExists)) &&
      (o.reply.ServerError? <==> o.progress == 0.0) &&
      (!Succeeded(code, fileExists) ==> o.reply == ServerError("Download failed")) &&
      (o.reply.FileDownload? <==> Succeeded(code, fileExists) && Truthy(job.streamToClient)) &&
      (o.reply.Saved? <==> Succeeded(code, fileExists) && !Truthy(job.streamToClient)) &&
      (o.reply.FileDownload? ==> o.reply.path == job.outputPath && o.reply.name == job.fileName) &&
      (o.reply.Saved? ==> o.reply.fileName == job.fileName && o.reply.savedPath == job.outputPath)
  {
  }

  /** The stdout callback: a chunk with a percentage is broadcast under the job key; any other chunk changes nothing. */
  method OnOutput(hub: Registry, job: Job, chunk: string)
    requires hub.Valid()
    modifies hub
    ensures hub.Valid() && hub.clients == old(hub.clients)
    ensures ParseProgress(chunk).None? ==> hub.Model() == old(hub.Model())
    ensures ParseProgress(chunk).Some? ==>
      hub.Model() == Step(old(hub.Model()), Send(job.key, Value(ParseProgress(chunk).value)))
  {
    var m := ParseProgress(chunk);
    if m.Some? {
      hub.Broadcast(job.key, Value(m.value));
    }
  }

  /**
   * The close callback: the final value is broadcast to every subscriber of
   * the job before the response is produced, which is the returned reply.
   */
  method OnClose(hub: Registry, job: Job, code: Option<int>, fileExists: bool) returns (reply: Reply)
    requires hub.Valid()
    modifies hub
    ensures hub.Valid() && hub.clients == old(hub.clients)
    ensures reply == Closing(job, code, fileExists).reply
    ensures hub.Model() == Step(old(hub.Model()), Send(job.key, Closing(job, code, fileExists).progress))
    ensures forall c :: c in Members(hub.clients, job.key) ==>
      Log(hub.streams, c) == Log(old(hub.streams), c) + [Event(job.key, if Succeeded(code, fileExists) then 100.0 else 0.0)]
    ensures forall c :: c !in Members(hub.clients, job.key) ==> Log(hub.streams, c) == Log(old(hub.streams), c)
  {
    if code != Some(0) || !fileExists {
      hub.Broadcast(job.key, 0.0);
      return ServerError("Download failed");
    }
    hub.Broadcast(job.key, 100.0);
    if Truthy(job.streamToClient) {
      return FileDownload(job.outputPath, job.fileName);
    }
    return Saved(job.fileName, job.outputPath);
  }

  /**
   * The progress endpoint: without a (non-empty) `jobId` it answers 400 and
   * registers nothing; otherwise `conn` is subscribed under the query value
   * exactly as given, untrimmed.
   */
  method OpenProgress(hub: Registry, jobId: Option<string>, conn: Conn) returns (accepted: bool)
    requires hub.Valid()
    modifies hub
    ensures hub.Valid()
    ensures accepted <==> jobId.Some? && jobId.value != []
    ensures !accepted ==> hub.Model() == old(hub.Model())
    ensures accepted ==> hub.Model() == Step(old(hub.Model()), Join(jobId.value, conn))
  {
    if jobId.None? || jobId.value == [] {
      return false;
    }
    hub.Subscribe(jobId.value, conn);
    return true;
  }

  /** The values broadcast while the tool runs, one per chunk with a percentage, in order. */
  function ParsedValues(chunks: seq<string>): (vs: seq<real>)
    ensures |vs| <= |chunks|
  {
    if chunks == [] then []
    else
      var rest := ParsedValues(chunks[1..]);
      match ParseProgress(chunks[0])
      case Some(d) => [Value(d)] + rest
      case None => rest
  }

  /** All broadcasts of one launched job: its parsed values, then the final value. */
  function JobSends(job: Job, chunks: seq<string>, code: Option<int>, fileExists: bool): seq<Action> {
    Sends(job.key, ParsedValues(chunks) + [Closing(job, code, fileExists).progress])
  }

  /** The values parsed from consecutive chunks are consecutive. */
  lemma {:induction false} ParsedValuesAppend(a: seq<string>, b: seq<string>)
    ensures ParsedValues(a + b) == ParsedValues(a) + ParsedValues(b)
    decreases |a|
  {
    if a == [] {
      assert a + b == b;
    } else {
      assert (a + b)[0] == a[0] && (a + b)[1..] == a[1..] + b;
      ParsedValuesAppend(a[1..], b);
    }
  }

  /** Broadcasting the values of consecutive pieces is broadcasting one piece's values after the other's. */
  lemma RunSendsAppend(h: Hub, k: string, a: seq<real>, b: seq<real>)
    ensures Run(h, Sends(k, a + b)) == Run(Run(h, Sends(k, a)), Sends(k, b))
  {
    SendsAppend(k, a, b);
    RunAppend(h, Sends(k, a), Sends(k, b));
  }

  /** The broadcasts of one chunk: its value when it has a percentage, nothing otherwise. */
  lemma RunOneChunk(h: Hub, k: string, chunk: string)
    ensures ParseProgress(chunk).None? ==> Run(h, Sends(k, ParsedValues([chunk]))) == h
    ensures ParseProgress(chunk).Some? ==>
      Run(h, Sends(k, ParsedValues([chunk]))) == Step(h, Send(k, Value(ParseProgress(chunk).value)))
  {
    assert [chunk][1..] == [];
  }

  /** One broadcast as a run of one action. */
  lemma RunOneSend(h: Hub, k: string, v: real)
    ensures Run(h, Sends(k, [v])) == Step(h, Send(k, v))
  {
    assert [v][1..] == [];
  }

  /** The chunks read so far, one more chunk at a time. */
  lemma RunNextChunk(h: Hub, k: string, chunks: seq<string>, i: nat)
    requires i < |chunks|
    ensures Run(h, Sends(k, ParsedValues(chunks[..i + 1]))) ==
      Run(Run(h, Sends(k, ParsedValues(chunks[..i]))), Sends(k, ParsedValues([chunks[i]])))
  {
    assert chunks[..i + 1] == chunks[..i] + [chunks[i]];
    ParsedValuesAppend(chunks[..i], [chunks[i]]);
    RunSendsAppend(h, k, ParsedValues(chunks[..i]), ParsedValues([chunks[i]]));
  }

  /**
   * A whole job as the event loop runs it: the stdout callback once per
   * chunk, in order, then the close callback. The registry ends up exactly
   * where the broadcasts of `JobSends` take it, and the reply is the close
   * callback's.
   */
  method RunJob(hub: Registry, job: Job, chunks: seq<string>, code: Option<int>, fileExists: bool)
    returns (reply: Reply)
    requires hub.Valid()
    modifies hub
    ensures hub.Valid() && hub.clients == old(hub.clients)
    ensures reply == Closing(job, code, fileExists).reply
    ensures hub.Model() == Run(old(hub.Model()), JobSends(job, chunks, code, fileExists))
  {
    ghost var start := hub.Model();
    var i := 0;
    while i < |chunks|
      invariant 0 <= i <= |chunks|
      invariant hub.Valid() && hub.clients == old(hub.clients)
      invariant hub.Model() == Run(start, Sends(job.key, ParsedValues(chunks[..i])))
    {
      RunOneChunk(hub.Model(), job.key, chunks[i]);
      RunNextChunk(start, job.key, chunks, i);
      OnOutput(hub, job, chunks[i]);
      i := i + 1;
    }
    assert chunks[..i] == chunks;
    RunOneSend(hub.Model(), job.key, Closing(job, code, fileExists).progress);
    RunSendsAppend(start, job.key, ParsedValues(chunks), [Closing(job, code, fileExists).progress]);
    reply := OnClose(hub, job, code, fileExists);
  }

  /**
   * A whole job seen by one connection while no one subscribes or leaves:
   * a subscriber of the job receives every parsed value in order and then,
   * last, 100 on success or 0 on failure, whatever the last parsed value
   * was; a connection not subscribed to the job receives nothing from it.
   */
  lemma JobDelivery(h: Hub, job: Job, chunks: seq<string>, code: Option<int>, fileExists: bool, c: Conn)
    ensures var log := Log(Run(h, JobSends(job, chunks, code, fileExists)).streams, c);
      if c in Members(h.clients, job.key) then
        log == Log(h.streams, c) + Events(job.key, ParsedValues(chunks)) +
          [Event(job.key, if Succeeded(code, fileExists) then 100.0 else 0.0)]
      else log == Log(h.streams, c)
  {
    var vs := ParsedValues(chunks);
    var fin := Closing(job, code, fileExists).progress;
    assert fin == if Succeeded(code, fileExists) then 100.0 else 0.0;
    var acts := JobSends(job, chunks, code, fileExists);
    RunLog(h, acts, c);
    ReceivedSends(h, c, job.key, vs + [fin]);
    EventsAppend(job.key, vs, [fin]);
    assert Events(job.key, [fin]) == [Event(job.key, fin)];
  }

  /**
   * Two jobs at once: a connection that only ever subscribes to job `a`
   * receives only events of job `a`, however the broadcasts of any other
   * job and any subscriptions interleave with them.
   */
  lemma NoCrossTalk(h: Hub, actions: seq<Action>, c: Conn, a: string)
    requires OnlyUnder(h.clients, c, a) && JoinsOnlyUnder(actions, c, a)
    ensures var before := Log(h.streams, c);
      var after := Log(Run(h, actions).streams, c);
      |before| <= |after| && after[..|before|] == before &&
      forall i :: |before| <= i < |after| ==> after[i].jobId == a
  {
    RunLog(h, actions, c);
    ReceivedOnlyOwnJob(h, actions, c, a);
    var before: seq<Event> := Log(h.streams, c);
    var got: seq<Event> := Received(h, c, actions);
    forall i | |before| <= i < |before| + |got| ensures (before + got)[i].jobId == a {
      assert (before + got)[i] == got[i - |before|];
    }
  }

  /** The request of the scenario below: a URL, job key "abc" and file name "clip". */
  function ClipRequest(): DownloadRequest {
    DownloadRequest(Str("http://example.com/v.mp4"), Str("abc"), Undefined, Str("clip"), Undefined)
  }

  /**
   * A request with a URL and no `downloadDir`, whose directory could be
   * created, starts a job with the derived key and name in the default
   * directory.
   */
  lemma LaunchWith(req: DownloadRequest, keyTime: nat, nameTime: nat, key: string, name: string)
    requires Truthy(req.url) && req.downloadDir == Undefined
    ensures JobKey(req.jobId, keyTime) == key && FileName(req.filename, key, nameTime) == name ==>
      StartDownload(req, keyTime, nameTime, true) ==
        Launched(Job(req.url, key, name, Joined(DefaultDir, name), req.streamToClient))
  {
  }

  /** The scenario's request starts a job keyed "abc" that saves "clip.mp4" in the default directory. */
  lemma ClipLaunch(keyTime: nat, nameTime: nat)
    ensures StartDownload(ClipRequest(), keyTime, nameTime, true) ==
      Launched(Job(ClipRequest().url, "abc", "clip.mp4", Joined(DefaultDir, "clip.mp4"), Undefined))
  {
    var req := ClipRequest();
    TrimmedKeyUsed("abc", keyTime);
    assert FileName(req.filename, "abc", nameTime) == "clip.mp4" by {
      PlainNameExample("abc", nameTime);
    }
    LaunchWith(req, keyTime, nameTime, "abc", "clip.mp4");
  }

  /**
   * The scenario of a request for "abc" saving "clip": once the tool
   * succeeds, the reply acknowledges "clip.mp4" in the default directory.
   */
  lemma ClipScenario(keyTime: nat, nameTime: nat)
    ensures var start := StartDownload(ClipRequest(), keyTime, nameTime, true);
      start.Launched? && start.job.key == "abc" &&
      Closing(start.job, Some(0), true) == Outcome(100.0, Saved("clip.mp4", Joined(DefaultDir, "clip.mp4")))
  {
    ClipLaunch(keyTime, nameTime);
  }
}
