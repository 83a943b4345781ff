/** The configuration-change logs of the prepopulation script: reading
    them out of Panorama replies, polling a log job, fetching a date range
    batch by batch, merging the per-log details and storing the rows. */
module ChangeLogs {
  import opened JsString
  import opened Xml

  /** One configuration change as the script carries it. */
  datatype ChangeLog = ChangeLog(
    seqno: string, timestamp: string, admin: string, description: string,
    action: string, kind: string, deviceGroup: string, status: string,
    diffBefore: string, diffAfter: string)

  // ---------------------------------------------------------------------
  // Classification

  /** The command, ignoring case, as one of the four named actions;
      anything else is an edit. */
  function NormalizeAction(cmd: string): (a: string)
    ensures a in {"Add", "Delete", "Clone", "Multi-Clone", "Edit"}
    ensures a == "Add" <==> ToLower(cmd) == "add"
    ensures a == "Delete" <==> ToLower(cmd) == "delete"
    ensures a == "Clone" <==> ToLower(cmd) == "clone"
    ensures a == "Multi-Clone" <==> ToLower(cmd) == "multi-clone"
  {
    var c := ToLower(cmd);
    if c == "add" then "Add"
    else if c == "delete" then "Delete"
    else if c == "clone" then "Clone"
    else if c == "multi-clone" then "Multi-Clone"
    else "Edit"
  }

  /** The store step normalises actions that parsing already normalised:
      doing it twice is doing it once. */
  lemma {:induction false} NormalizeActionIdempotent(cmd: string)
    ensures NormalizeAction(NormalizeAction(cmd)) == NormalizeAction(cmd)
  {
    var a := NormalizeAction(cmd);
    if a == "Add" {
      LowerOf("Add", "add");
    } else if a == "Delete" {
      LowerOf("Delete", "delete");
    } else if a == "Clone" {
      LowerOf("Clone", "clone");
    } else if a == "Multi-Clone" {
      LowerOf("Multi-Clone", "multi-clone");
    } else {
      LowerOf("Edit", "edit");
    }
  }

  /** The kind of object a change touched, from its configuration path. */
  function ChangeKind(path: string): (k: string)
    ensures k == "Address Object" <==> Contains(path, "address")
    ensures k == "Network Interface" <==>
      !Contains(path, "address") && (Contains(path, "network") || Contains(path, "interface"))
    ensures k == "System Config" <==>
      !Contains(path, "address") && !Contains(path, "network") && !Contains(path, "interface")
  {
    if Contains(path, "address") then "Address Object"
    else if Contains(path, "network") || Contains(path, "interface") then "Network Interface"
    else "System Config"
  }

  // ---------------------------------------------------------------------
  // parseEntries

  /** An entry with a sequence number and a path. */
  predicate Usable(e: Entry) {
    TextOr(e, "seqno", "") != "" && TextOr(e, "path", "") != ""
  }

  /** The log made from one entry. */
  function ToChangeLog(e: Entry): (log: ChangeLog)
    ensures log.seqno == TextOr(e, "seqno", "") && log.timestamp == TextOr(e, "receive_time", "")
    ensures log.admin == TextOr(e, "admin", "system") && log.admin != ""
    ensures log.description == TextOr(e, "path", "") && log.kind == ChangeKind(log.description)
    ensures log.action == NormalizeAction(TextOr(e, "cmd", "unknown")) && log.action == NormalizeAction(log.action)
    ensures log.deviceGroup == "Global" && log.status == "Success"
    ensures log.diffBefore == TextOr(e, "before-change-detail", "") &&
            log.diffAfter == TextOr(e, "after-change-detail", "")
  {
    NormalizeActionIdempotent(TextOr(e, "cmd", "unknown"));
    var path := TextOr(e, "path", "");
    ChangeLog(
      TextOr(e, "seqno", ""), TextOr(e, "receive_time", ""), TextOr(e, "admin", "system"), path,
      NormalizeAction(TextOr(e, "cmd", "unknown")), ChangeKind(path), "Global", "Success",
      TextOr(e, "before-change-detail", ""), TextOr(e, "after-change-detail", ""))
  }

  /** A missing or empty admin is `system`, and a missing or empty command
      is `unknown`, which is an edit; present ones are used. */
  lemma {:induction false} ToChangeLogDefaults(e: Entry)
    ensures FirstText(e, "admin") in {None, Some("")} ==> ToChangeLog(e).admin == "system"
    ensures forall t :: FirstText(e, "admin") == Some(t) && t != "" ==> ToChangeLog(e).admin == t
    ensures FirstText(e, "cmd") in {None, Some("")} ==> ToChangeLog(e).action == "Edit"
    ensures forall t :: FirstText(e, "cmd") == Some(t) && t != "" ==> ToChangeLog(e).action == NormalizeAction(t)
    ensures FirstText(e, "before-change-detail") in {None, Some("")} ==> ToChangeLog(e).diffBefore == ""
  {
    LowerOf("unknown", "unknown");
  }

  /** The logs of the usable entries, in order. */
  function Entries(entries: seq<Entry>): (logs: seq<ChangeLog>)
    ensures |logs| <= |entries|
  {
    if entries == [] then []
    else
      var e := entries[|entries| - 1];
      Entries(entries[..|entries| - 1]) + (if Usable(e) then [ToChangeLog(e)] else [])
  }

  /** `parseEntries`. */
  method ParseEntries(entries: seq<Entry>) returns (logs: seq<ChangeLog>)
    ensures logs == Entries(entries)
  {
    logs := [];
    var i := 0;
    while i < |entries|
      invariant 0 <= i <= |entries|
      invariant logs == Entries(entries[..i])
    {
      var entry := entries[i];
      assert entries[..i + 1][..i] == entries[..i];
      var seqno := TextOr(entry, "seqno", "");
      var pathStr := TextOr(entry, "path", "");
      if seqno == "" || pathStr == "" {
        i := i + 1;
        continue;
      }
      logs := logs + [ToChangeLog(entry)];
      i := i + 1;
    }
    assert entries[..i] == entries;
  }

  /** The usable entries, in order. */
  function UsableOnes(entries: seq<Entry>): seq<Entry> {
    if entries == [] then []
    else
      var e := entries[|entries| - 1];
      UsableOnes(entries[..|entries| - 1]) + (if Usable(e) then [e] else [])
  }

  /** Parsing maps the usable entries one to one, keeping their order, and
      every log has a sequence number and a description. */
  lemma {:induction false} EntriesMapUsable(entries: seq<Entry>)
    ensures |Entries(entries)| == |UsableOnes(entries)|
    ensures forall k :: 0 <= k < |Entries(entries)| ==>
      Usable(UsableOnes(entries)[k]) && Entries(entries)[k] == ToChangeLog(UsableOnes(entries)[k])
    ensures forall k :: 0 <= k < |Entries(entries)| ==>
      Entries(entries)[k].seqno != "" && Entries(entries)[k].description != ""
  {
    if entries != [] {
      EntriesMapUsable(entries[..|entries| - 1]);
    }
  }

  /** An entry is parsed exactly when it is usable. */
  lemma {:induction false} UsableMembers(entries: seq<Entry>)
    ensures forall e :: e in UsableOnes(entries) <==> e in entries && Usable(e)
  {
    if entries != [] {
      var init := entries[..|entries| - 1];
      UsableMembers(init);
      assert entries == init + [entries[|entries| - 1]];
    }
  }

  // ---------------------------------------------------------------------
  // Panorama replies

  /** The first `<status>` under the `<job>` element, if any, and the
      job element's text. */
  datatype JobNode = JobNode(status: Option<string>, text: string)

  /** The parts of a parsed reply the script reads: the root element's
      `status` attribute, the first `<msg>` text, the first `<msg>` text
      under the first `<result>`, the first `<job>` and the `<entry>`
      elements. */
  datatype ReplyDoc = ReplyDoc(
    rootStatus: Option<string>, msg: Option<string>, resultMsg: Option<string>,
    job: Option<JobNode>, entries: seq<Entry>)

  /** A reply to one request: its status code, body and parsed document
      (`None` when the body has no document element), or the request's
      error. */
  datatype HttpReply =
    | Reply(code: int, body: string, doc: Option<ReplyDoc>)
    | RequestFailed(message: string)

  /** Reading a property of a missing document element. */
  const NoDocument: string := "Cannot read properties of null (reading 'getAttribute')"

  function OrElse(t: Option<string>, fallback: string): (r: string)
    ensures t.Some? && t.value != "" ==> r == t.value
    ensures t.None? || t.value == "" ==> r == fallback
  {
    if t.Some? && t.value != "" then t.value else fallback
  }

  // ---------------------------------------------------------------------
  // pollForJobResults

  datatype JobResult = Resolved(doc: ReplyDoc) | Rejected(message: string)

  const MaxAttempts: nat := 60

  /** What one poll reply does: settle the job, or (None) ask again. */
  function PollStep(reply: HttpReply, jobId: string): (r: Option<JobResult>)
    ensures reply.RequestFailed? ==> r == Some(Rejected(reply.message))
    ensures reply.Reply? && reply.code != 200 ==>
      r == Some(Rejected("HTTP " + IntToString(reply.code) + " while polling job " + jobId))
    ensures reply.Reply? && reply.code == 200 && reply.doc.None? ==> r == Some(Rejected(NoDocument))
    ensures reply.Reply? && reply.code == 200 && reply.doc.Some? && reply.doc.value.rootStatus == Some("error") ==>
      r == Some(Rejected("Job failed: " + OrElse(reply.doc.value.msg, "Unknown job error")))
    ensures r.None? <==>
      reply.Reply? && reply.code == 200 && reply.doc.Some? && reply.doc.value.rootStatus != Some("error") &&
      reply.doc.value.job.Some? && reply.doc.value.job.value.status == Some("ACT")
    ensures r.Some? && r.value.Resolved? <==>
      reply.Reply? && reply.code == 200 && reply.doc.Some? && reply.doc.value.rootStatus != Some("error") &&
      !(reply.doc.value.job.Some? && reply.doc.value.job.value.status == Some("ACT"))
    ensures r.Some? && r.value.Resolved? ==> r.value.doc == reply.doc.value
  {
    match reply
    case RequestFailed(message) => Some(Rejected(message))
    case Reply(code, _, doc) =>
      if code != 200 then Some(Rejected("HTTP " + IntToString(code) + " while polling job " + jobId))
      else if doc.None? then Some(Rejected(NoDocument))
      else if doc.value.rootStatus == Some("error") then
        Some(Rejected("Job failed: " + OrElse(doc.value.msg, "Unknown job error")))
      else if doc.value.job.Some? && doc.value.job.value.status == Some("ACT") then None
      else Some(Resolved(doc.value))
  }

  /** A reply that says the job is still running. */
  predicate Running(reply: HttpReply, jobId: string) {
    PollStep(reply, jobId).None?
  }

  function TimeoutMessage(jobId: string): string {
    "Timeout waiting for job " + jobId + " to complete"
  }

  /** The result of polling from request i on (0-based), and the number of
      requests made in all. */
  function JobPollFrom(respond: nat -> HttpReply, i: nat, jobId: string): (r: (JobResult, nat))
    requires i < MaxAttempts
    ensures i < r.1 <= MaxAttempts
    ensures PollStep(respond(r.1 - 1), jobId).Some? ==> PollStep(respond(r.1 - 1), jobId) == Some(r.0)
    ensures PollStep(respond(r.1 - 1), jobId).None? ==> r == (Rejected(TimeoutMessage(jobId)), MaxAttempts)
    decreases MaxAttempts - i
  {
    match PollStep(respond(i), jobId)
    case Some(result) => (result, i + 1)
    case None =>
      if i + 1 >= MaxAttempts then (Rejected(TimeoutMessage(jobId)), i + 1)
      else JobPollFrom(respond, i + 1, jobId)
  }

  /** `pollForJobResults`: `respond(i)` is the reply to the i-th request. */
  method PollForJobResults(respond: nat -> HttpReply, jobId: string) returns (result: JobResult, requests: nat)
    ensures (result, requests) == JobPollFrom(respond, 0, jobId)
  {
    var attempts := 0;
    while true
      invariant 0 <= attempts < MaxAttempts
      invariant JobPollFrom(respond, attempts, jobId) == JobPollFrom(respond, 0, jobId)
      decreases MaxAttempts - attempts
    {
      var reply := respond(attempts);
      attempts := attempts + 1;
      var step := PollStep(reply, jobId);
      if step.Some? {
        return step.value, attempts;
      }
      if attempts >= MaxAttempts {
        return Rejected(TimeoutMessage(jobId)), attempts;
      }
    }
  }

  /** At most 60 requests; polling stops at the first reply that does not
      say the job is running, and settles as that reply says. */
  lemma {:induction false} PollStopsAtFirstSettled(respond: nat -> HttpReply, i: nat, jobId: string)
    requires i < MaxAttempts
    ensures i + 1 <= JobPollFrom(respond, i, jobId).1 <= MaxAttempts
    ensures forall j :: i <= j < JobPollFrom(respond, i, jobId).1 - 1 ==> Running(respond(j), jobId)
    ensures var (result, n) := JobPollFrom(respond, i, jobId);
      if Running(respond(n - 1), jobId) then n == MaxAttempts && result == Rejected(TimeoutMessage(jobId))
      else PollStep(respond(n - 1), jobId) == Some(result)
    decreases MaxAttempts - i
  {
    if Running(respond(i), jobId) && i + 1 < MaxAttempts {
      PollStopsAtFirstSettled(respond, i + 1, jobId);
    }
  }

  /** The poll runs out of attempts (its last reply still says the job is
      running, so it rejects with the timeout message) exactly when every
      reply from request i to the 60th says the job is running. */
  lemma {:induction false} PollTimesOutIffAllRunning(respond: nat -> HttpReply, i: nat, jobId: string)
    requires i < MaxAttempts
    ensures i < JobPollFrom(respond, i, jobId).1
    ensures Running(respond(JobPollFrom(respond, i, jobId).1 - 1), jobId) <==>
      forall j :: i <= j < MaxAttempts ==> Running(respond(j), jobId)
    decreases MaxAttempts - i
  {
    if Running(respond(i), jobId) && i + 1 < MaxAttempts {
      PollTimesOutIffAllRunning(respond, i + 1, jobId);
      assert JobPollFrom(respond, i, jobId) == JobPollFrom(respond, i + 1, jobId);
    } else if !Running(respond(i), jobId) {
      assert JobPollFrom(respond, i, jobId).1 == i + 1;
    }
  }

  // ---------------------------------------------------------------------
  // fetchChangeLogsRange

  /** What the first reply of a range fetch leads to. */
  datatype FirstStep = Failed(message: string) | Parse(entries: seq<Entry>) | AwaitJob(jobId: string)

  /** `data.substring(0, 200)`. */
  function Prefix(s: string, n: nat): (r: string)
    ensures StartsWith(s, r) && |r| == if |s| < n then |s| else n
  {
    if |s| < n then s else s[..n]
  }

  /** The first reply, in the order the script checks it: status code,
      blank body, error status, a `<job>` without a status that names a
      job, and otherwise the entries of the reply itself. */
  function ClassifyFirst(reply: HttpReply): (step: FirstStep)
    ensures reply.RequestFailed? ==> step == Failed(reply.message)
    ensures reply.Reply? && reply.code != 200 ==>
      step == Failed("HTTP " + IntToString(reply.code) + ": " + Prefix(reply.body, 200))
    ensures reply.Reply? && reply.code == 200 && Trim(reply.body) == "" ==> step == Parse([])
    ensures reply.Reply? && reply.code == 200 && Trim(reply.body) != "" && reply.doc.None? ==> step == Failed(NoDocument)
    ensures reply.Reply? && reply.code == 200 && Trim(reply.body) != "" && reply.doc.Some? &&
            reply.doc.value.rootStatus == Some("error") ==>
      step == Failed("Panorama API error: " +
                     OrElse(reply.doc.value.msg, OrElse(reply.doc.value.resultMsg, "Unknown error")))
    ensures reply.Reply? && reply.code == 200 && Trim(reply.body) != "" && reply.doc.Some? &&
            reply.doc.value.rootStatus != Some("error") && !step.AwaitJob? ==>
      step == Parse(reply.doc.value.entries)
    ensures step.AwaitJob? <==>
      reply.Reply? && reply.code == 200 && Trim(reply.body) != "" && reply.doc.Some? &&
      reply.doc.value.rootStatus != Some("error") && reply.doc.value.job.Some? &&
      reply.doc.value.job.value.status.None? && Trim(reply.doc.value.job.value.text) != ""
    ensures step.AwaitJob? ==> step.jobId == Trim(reply.doc.value.job.value.text) && step.jobId != ""
  {
    match reply
    case RequestFailed(message) => Failed(message)
    case Reply(code, body, doc) =>
      if code != 200 then Failed("HTTP " + IntToString(code) + ": " + Prefix(body, 200))
      else if Trim(body) == "" then Parse([])
      else if doc.None? then Failed(NoDocument)
      else if doc.value.rootStatus == Some("error") then
        Failed("Panorama API error: " + OrElse(doc.value.msg, OrElse(doc.value.resultMsg, "Unknown error")))
      else if doc.value.job.Some? && doc.value.job.value.status.None? && Trim(doc.value.job.value.text) != "" then
        AwaitJob(Trim(doc.value.job.value.text))
      else Parse(doc.value.entries)
  }

  datatype FetchResult = Fetched(logs: seq<ChangeLog>) | FetchError(message: string)

  /** `fetchChangeLogsRange`: the first reply, then the poll replies if
      it hands off to a job. */
  function FetchRange(first: HttpReply, respond: nat -> HttpReply): (r: FetchResult)
    ensures ClassifyFirst(first).Parse? ==> r == Fetched(Entries(ClassifyFirst(first).entries))
    ensures ClassifyFirst(first).Failed? ==> r == FetchError(ClassifyFirst(first).message)
    ensures ClassifyFirst(first).AwaitJob? ==>
      var polled := JobPollFrom(respond, 0, ClassifyFirst(first).jobId).0;
      (polled.Resolved? ==> r == Fetched(Entries(polled.doc.entries))) &&
      (polled.Rejected? ==> r == FetchError(polled.message))
  {
    match ClassifyFirst(first)
    case Failed(message) => FetchError(message)
    case Parse(entries) => Fetched(Entries(entries))
    case AwaitJob(jobId) =>
      match JobPollFrom(respond, 0, jobId).0
      case Resolved(doc) => Fetched(Entries(doc.entries))
      case Rejected(message) => FetchError(message)
  }

  // ---------------------------------------------------------------------
  // fetchAllChangeLogsRange

  const BatchSize: nat := 500

  /** A batch after which no further batch is fetched. */
  predicate Last(r: FetchResult) {
    r.FetchError? || |r.logs| < BatchSize
  }

  predicate Ends(batches: seq<FetchResult>) {
    exists k :: 0 <= k < |batches| && Last(batches[k])
  }

  /** The index of the batch that ends the loop. */
  function LastIndex(batches: seq<FetchResult>): (k: nat)
    requires Ends(batches)
    ensures k < |batches| && Last(batches[k])
    ensures forall j :: 0 <= j < k ==> !Last(batches[j])
  {
    if Last(batches[0]) then 0
    else
      assert Ends(batches[1..]) by {
        var k :| 0 <= k < |batches| && Last(batches[k]);
        assert batches[1..][k - 1] == batches[k];
      }
      var k := LastIndex(batches[1..]);
      assert forall j :: 1 <= j < k + 1 ==> batches[j] == batches[1..][j - 1];
      k + 1
  }

  /** The logs gathered from the batches up to the one that ends the
      loop; a failed batch adds nothing. */
  function Gathered(batches: seq<FetchResult>): seq<ChangeLog>
    requires Ends(batches)
  {
    if Last(batches[0]) then (if batches[0].Fetched? then batches[0].logs else [])
    else
      assert Ends(batches[1..]) by {
        var k :| 0 <= k < |batches| && Last(batches[k]);
        assert batches[1..][k - 1] == batches[k];
      }
      batches[0].logs + Gathered(batches[1..])
  }

  /** `fetchAllChangeLogsRange`: `batches[i]` is the result of the i-th
      fetch of the range; the loop goes on while a batch is full. */
  method FetchAllChangeLogsRange(batches: seq<FetchResult>) returns (allLogs: seq<ChangeLog>, fetches: nat)
    requires Ends(batches)
    ensures allLogs == Gathered(batches)
    ensures fetches == LastIndex(batches) + 1
  {
    ghost var last := LastIndex(batches);
    allLogs := [];
    var hasMore := true;
    var i := 0;
    while hasMore
      invariant 0 <= i <= last + 1
      invariant hasMore <==> i <= last
      invariant hasMore ==> allLogs + Gathered(batches[i..]) == Gathered(batches)
      invariant !hasMore ==> allLogs == Gathered(batches)
      decreases last + 1 - i
    {
      allLogs, hasMore := TakeBatch(batches, i, allLogs);
      i := i + 1;
    }
    fetches := i;
  }

  /** One turn of the loop of `fetchAllChangeLogsRange`: a failed or
      empty batch stops it, any other adds its logs and goes on while it
      is full. */
  method TakeBatch(batches: seq<FetchResult>, i: nat, logs: seq<ChangeLog>) returns (allLogs: seq<ChangeLog>, hasMore: bool)
    requires Ends(batches) && i <= LastIndex(batches)
    requires logs + Gathered(batches[i..]) == Gathered(batches)
    ensures hasMore <==> i + 1 <= LastIndex(batches)
    ensures hasMore ==> allLogs + Gathered(batches[i + 1..]) == Gathered(batches)
    ensures !hasMore ==> allLogs == Gathered(batches)
  {
    GatheredFrom(batches, i);
    var batch := batches[i];
    allLogs := logs;
    if batch.FetchError? {
      hasMore := false;
    } else if |batch.logs| == 0 {
      hasMore := false;
    } else {
      allLogs := allLogs + batch.logs;
      hasMore := |batch.logs| >= BatchSize;
      if hasMore {
        assert (logs + batch.logs) + Gathered(batches[i + 1..]) == logs + (batch.logs + Gathered(batches[i + 1..]));
      }
    }
  }

  /** Gathering from a batch before the last one. */
  lemma {:induction false} GatheredFrom(batches: seq<FetchResult>, i: nat)
    requires Ends(batches) && i <= LastIndex(batches)
    ensures Ends(batches[i..]) && LastIndex(batches[i..]) == LastIndex(batches) - i
    ensures Last(batches[i]) ==> Gathered(batches[i..]) == (if batches[i].Fetched? then batches[i].logs else [])
    ensures !Last(batches[i]) ==>
      Ends(batches[i + 1..]) && Gathered(batches[i..]) == batches[i].logs + Gathered(batches[i + 1..])
    decreases i
  {
    var k := LastIndex(batches);
    assert batches[i..][k - i] == batches[k];
    if i > 0 {
      GatheredFrom(batches, i - 1);
      assert batches[i..] == batches[i - 1..][1..];
    }
    assert batches[i..][0] == batches[i];
    if !Last(batches[i]) {
      assert batches[i + 1..] == batches[i..][1..];
    }
  }

  /** Every batch before the last is full, so the logs number at least
      500 per extra fetch. */
  lemma {:induction false} GatheredSize(batches: seq<FetchResult>)
    requires Ends(batches)
    ensures |Gathered(batches)| >= BatchSize * LastIndex(batches)
    ensures forall j :: 0 <= j < LastIndex(batches) ==> batches[j].Fetched? && |batches[j].logs| >= BatchSize
  {
    if !Last(batches[0]) {
      assert Ends(batches[1..]) by {
        var k := LastIndex(batches);
        assert batches[1..][k - 1] == batches[k];
      }
      GatheredSize(batches[1..]);
      GatheredFrom(batches, 1);
    }
  }

  // ---------------------------------------------------------------------
  // Paging through a range

  /** The answer of a server that holds `window` for the range to a
      request that skips the first `skip` logs: at most a batch of the
      logs from there on. */
  function Page(window: seq<ChangeLog>, skip: nat): (r: FetchResult)
    ensures r.Fetched? && |r.logs| <= BatchSize
    ensures skip <= |window| ==>
      |r.logs| == (if |window| - skip <= BatchSize then |window| - skip else BatchSize) &&
      r.logs == window[skip..skip + |r.logs|]
    ensures skip >= |window| ==> r.logs == []
  {
    if skip >= |window| then Fetched([])
    else if |window| - skip <= BatchSize then Fetched(window[skip..])
    else Fetched(window[skip..skip + BatchSize])
  }

  /** `fetchChangeLogsRange` sends the same request on every turn, with
      no skip, so the n turns of the loop all get the first page. */
  function RepeatedBatches(window: seq<ChangeLog>, n: nat): (r: seq<FetchResult>)
    ensures |r| == n
    ensures forall k :: 0 <= k < n ==> r[k] == Page(window, 0)
  {
    seq(n, _ => Page(window, 0))
  }

  /** A range holding a full batch or more never ends the loop: however
      many turns it runs, every batch is the same full first page. */
  lemma {:induction false} FullWindowNeverEnds(window: seq<ChangeLog>, n: nat)
    requires |window| >= BatchSize
    ensures !Ends(RepeatedBatches(window, n))
    ensures forall k :: 0 <= k < n ==> RepeatedBatches(window, n)[k].logs == window[..BatchSize]
  {
    var page := Page(window, 0);
    assert page.logs == window[..BatchSize];
    assert !Last(page);
  }

  /** The loop of `fetchAllChangeLogsRange` with each request skipping
      the logs gathered so far: it gathers the whole range, in order,
      after one fetch per full batch and one more. */
  method FetchAllPaged(window: seq<ChangeLog>) returns (allLogs: seq<ChangeLog>, fetches: nat)
    ensures allLogs == window
    ensures fetches == |window| / BatchSize + 1
  {
    allLogs := [];
    fetches := 0;
    var hasMore := true;
    while hasMore
      invariant |allLogs| <= |window| && allLogs == window[..|allLogs|]
      invariant hasMore ==> |allLogs| == fetches * BatchSize
      invariant !hasMore ==> allLogs == window && fetches == |window| / BatchSize + 1
      decreases |window| - |allLogs| + (if hasMore then 1 else 0)
    {
      var batch := Page(window, |allLogs|);
      fetches := fetches + 1;
      if |batch.logs| == 0 {
        hasMore := false;
      } else {
        allLogs := allLogs + batch.logs;
        hasMore := |batch.logs| >= BatchSize;
      }
    }
  }

  // ---------------------------------------------------------------------
  // processDateRange: merging the details

  /** The record `fetchLogDetail` resolves with. */
  datatype Details = Details(before: string, after: string, receiveTime: string, path: string, cmd: string, admin: string)

  /** A log whose description is not blank. */
  predicate Described(log: ChangeLog) {
    Trim(log.description) != ""
  }

  function Or(a: string, b: string): (r: string)
    ensures r == (if a != "" then a else b)
  {
    if a != "" then a else b
  }

  /** A log completed from its details: non-empty detail fields win, the
      diffs come from the details alone. */
  function Merge(log: ChangeLog, d: Details): (m: ChangeLog)
    ensures m.seqno == log.seqno && m.kind == log.kind && m.deviceGroup == log.deviceGroup && m.status == log.status
    ensures m.timestamp == Or(d.receiveTime, log.timestamp) && m.description == Or(d.path, log.description)
    ensures m.action == Or(d.cmd, log.action) && m.admin == Or(d.admin, log.admin)
    ensures m.diffBefore == d.before && m.diffAfter == d.after
  {
    log.(timestamp := Or(d.receiveTime, log.timestamp), description := Or(d.path, log.description),
         action := Or(d.cmd, log.action), admin := Or(d.admin, log.admin),
         diffBefore := d.before, diffAfter := d.after)
  }

  /** A described log merged with its details, or kept as it is when
      fetching its details failed (`None`). */
  function CompleteOne(log: ChangeLog, detailOf: string -> Option<Details>): (m: ChangeLog)
    ensures m.seqno == log.seqno
    ensures detailOf(log.seqno).Some? ==> m == Merge(log, detailOf(log.seqno).value)
    ensures detailOf(log.seqno).None? ==> m == log
  {
    match detailOf(log.seqno)
    case Some(d) => Merge(log, d)
    case None => log
  }

  /** The described logs, each completed. */
  function Completed(logs: seq<ChangeLog>, detailOf: string -> Option<Details>): (r: seq<ChangeLog>)
    ensures |r| <= |logs|
  {
    if logs == [] then []
    else
      var log := logs[|logs| - 1];
      Completed(logs[..|logs| - 1], detailOf) +
        (if Described(log) then [CompleteOne(log, detailOf)] else [])
  }

  /** The described logs, in order. */
  function DescribedOnes(logs: seq<ChangeLog>): seq<ChangeLog> {
    if logs == [] then []
    else
      var log := logs[|logs| - 1];
      DescribedOnes(logs[..|logs| - 1]) + (if Described(log) then [log] else [])
  }

  /** The merge handles the described logs one to one, in order, and
      keeps each one's sequence number. */
  lemma {:induction false} CompletedMapsDescribed(logs: seq<ChangeLog>, detailOf: string -> Option<Details>)
    ensures |Completed(logs, detailOf)| == |DescribedOnes(logs)|
    ensures forall k :: 0 <= k < |DescribedOnes(logs)| ==>
      Described(DescribedOnes(logs)[k]) &&
      Completed(logs, detailOf)[k] == CompleteOne(DescribedOnes(logs)[k], detailOf)
  {
    if logs != [] {
      CompletedMapsDescribed(logs[..|logs| - 1], detailOf);
    }
  }

  /** The loop of `processDateRange` over the fetched logs. */
  method CompleteLogs(fetchedLogs: seq<ChangeLog>, detailOf: string -> Option<Details>) returns (completedLogs: seq<ChangeLog>)
    ensures completedLogs == Completed(fetchedLogs, detailOf)
  {
    completedLogs := [];
    var i := 0;
    while i < |fetchedLogs|
      invariant 0 <= i <= |fetchedLogs|
      invariant completedLogs == Completed(fetchedLogs[..i], detailOf)
    {
      var log := fetchedLogs[i];
      assert fetchedLogs[..i + 1][..i] == fetchedLogs[..i];
      if Described(log) {
        var details := detailOf(log.seqno);
        if details.Some? {
          completedLogs := completedLogs + [Merge(log, details.value)];
        } else {
          completedLogs := completedLogs + [log];
        }
      }
      i := i + 1;
    }
    assert fetchedLogs[..i] == fetchedLogs;
  }

  // ---------------------------------------------------------------------
  // storeChangeLogs

  const NoPrevious: string := "No previous configuration state."
  const NoNew: string := "No new configuration state."

  /** A log that records no change: both sentinels, or the same
      non-empty text before and after. */
  predicate Unchanged(log: ChangeLog) {
    var before, after := Trim(log.diffBefore), Trim(log.diffAfter);
    (before == NoPrevious && after == NoNew) || (before == after && |before| > 0)
  }

  /** The date part of a timestamp: the text before the first space (or,
      when that is empty, before the first `T`), with slashes made dashes. */
  function LogDate(timestamp: string): (r: string)
    ensures FreeOf(r, {'/'})
    ensures var n := if FirstIndexIn(timestamp, {' '}) > 0 then FirstIndexIn(timestamp, {' '})
                     else FirstIndexIn(timestamp, {'T'});
      |r| == n && forall k :: 0 <= k < n ==> r[k] == if timestamp[k] == '/' then '-' else timestamp[k]
  {
    var first := Before(timestamp, {' '});
    var date := if first != "" then first else Before(timestamp, {'T'});
    ReplaceAll(date, '/', '-')
  }

  /** A row of the `change_logs` table. */
  datatype Row = Row(
    seqno: string, timestamp: string, admin: string, deviceGroup: string, kind: string,
    action: string, description: string, status: string, diffBefore: string, diffAfter: string,
    logDate: string)

  function ToRow(log: ChangeLog): Row
  {
    Row(log.seqno, log.timestamp, log.admin, log.deviceGroup, log.kind, NormalizeAction(log.action),
        log.description, log.status, Trim(log.diffBefore), Trim(log.diffAfter), LogDate(log.timestamp))
  }

  /** The elements that satisfy `keep`, in order. */
  function Filter<T>(keep: T -> bool, s: seq<T>): (r: seq<T>)
    ensures |r| <= |s|
  {
    if s == [] then []
    else
      var n := |s| - 1;
      Filter(keep, s[..n]) + (if keep(s[n]) then [s[n]] else [])
  }

  lemma {:induction false} FilterMembers<T>(keep: T -> bool, s: seq<T>)
    ensures forall x :: x in Filter(keep, s) <==> x in s && keep(x)
  {
    if s != [] {
      var n := |s| - 1;
      FilterMembers(keep, s[..n]);
      assert s == s[..n] + [s[n]];
    }
  }

  lemma {:induction false} IndexOf<T>(s: seq<T>, x: T) returns (k: nat)
    requires x in s
    ensures k < |s| && s[k] == x
  {
    k :| k < |s| && s[k] == x;
  }

  lemma {:induction false} FilterStep<T>(keep: T -> bool, s: seq<T>, x: T)
    ensures keep(x) ==> Filter(keep, s + [x]) == Filter(keep, s) + [x]
    ensures !keep(x) ==> Filter(keep, s + [x]) == Filter(keep, s)
  {
    assert (s + [x])[..|s|] == s;
  }

  /** `f` applied to each element, in order. */
  function MapSeq<T, U>(f: T -> U, s: seq<T>): (r: seq<U>)
    ensures |r| == |s|
  {
    if s == [] then [] else MapSeq(f, s[..|s| - 1]) + [f(s[|s| - 1])]
  }

  lemma {:induction false} MapSeqIndex<T, U>(f: T -> U, s: seq<T>)
    ensures forall k :: 0 <= k < |s| ==> MapSeq(f, s)[k] == f(s[k])
  {
    if s != [] {
      MapSeqIndex(f, s[..|s| - 1]);
    }
  }

  lemma {:induction false} MapSeqAppend<T, U>(f: T -> U, s: seq<T>, x: T)
    ensures MapSeq(f, s + [x]) == MapSeq(f, s) + [f(x)]
  {
    assert (s + [x])[..|s|] == s;
  }

  /** A log that records a change: it is stored. */
  predicate Changed(log: ChangeLog) {
    !Unchanged(log)
  }

  /** The logs that record a change, in order. */
  function Recorded(logs: seq<ChangeLog>): seq<ChangeLog> {
    Filter(Changed, logs)
  }

  lemma {:induction false} RowSeqno(log: ChangeLog)
    ensures ToRow(log).seqno == log.seqno
  {
  }

  /** `INSERT OR REPLACE` of each row in turn: a row replaces an earlier
      one with the same sequence number. */
  function Upsert(table: map<string, Row>, rows: seq<Row>): map<string, Row> {
    if rows == [] then table
    else
      var n := |rows| - 1;
      Upsert(table, rows[..n])[rows[n].seqno := rows[n]]
  }

  /** The table after storing the logs: the rows of the recorded logs
      upserted in order. */
  function StoreAll(table: map<string, Row>, logs: seq<ChangeLog>): map<string, Row> {
    Upsert(table, MapSeq(ToRow, Recorded(logs)))
  }

  lemma {:induction false} UpsertAppend(table: map<string, Row>, rows: seq<Row>, r: Row)
    ensures Upsert(table, rows + [r]) == Upsert(table, rows)[r.seqno := r]
  {
    assert (rows + [r])[..|rows|] == rows;
  }

  /** A sequence number is in the table after upserting exactly when it
      was there before or one of the rows has it. */
  lemma {:induction false} UpsertKeys(table: map<string, Row>, rows: seq<Row>, seqno: string)
    ensures seqno in Upsert(table, rows) <==>
      seqno in table || exists k :: 0 <= k < |rows| && rows[k].seqno == seqno
  {
    if rows != [] {
      var n := |rows| - 1;
      UpsertKeys(table, rows[..n], seqno);
      if exists k :: 0 <= k < n && rows[..n][k].seqno == seqno {
        var k :| 0 <= k < n && rows[..n][k].seqno == seqno;
        assert rows[k].seqno == seqno;
      }
      if exists k :: 0 <= k < |rows| && rows[k].seqno == seqno {
        var k :| 0 <= k < |rows| && rows[k].seqno == seqno;
        if k < n {
          assert rows[..n][k].seqno == seqno;
        }
      }
    }
  }

  /** The row a sequence number ends with is the last row that has it. */
  lemma {:induction false} UpsertLast(table: map<string, Row>, rows: seq<Row>, k: nat)
    requires k < |rows|
    requires forall j :: k < j < |rows| ==> rows[j].seqno != rows[k].seqno
    ensures rows[k].seqno in Upsert(table, rows) && Upsert(table, rows)[rows[k].seqno] == rows[k]
  {
    var n := |rows| - 1;
    if k < n {
      assert rows[..n][k] == rows[k];
      UpsertLast(table, rows[..n], k);
    }
  }

  /** A sequence number no row has keeps its row. */
  lemma {:induction false} UpsertKeeps(table: map<string, Row>, rows: seq<Row>, seqno: string)
    requires seqno in table
    requires forall k :: 0 <= k < |rows| ==> rows[k].seqno != seqno
    ensures seqno in Upsert(table, rows) && Upsert(table, rows)[seqno] == table[seqno]
  {
    if rows != [] {
      var n := |rows| - 1;
      UpsertKeeps(table, rows[..n], seqno);
    }
  }

  /** Storing one more log upserts its row, unless it is skipped. */
  /** `StoreStep` for the log at index `i`. */
  lemma {:induction false} StoreStepAt(table: map<string, Row>, logs: seq<ChangeLog>, i: nat)
    requires i < |logs|
    ensures StoreAll(table, logs[..i + 1]) ==
      if Unchanged(logs[i]) then StoreAll(table, logs[..i]) else StoreAll(table, logs[..i])[logs[i].seqno := ToRow(logs[i])]
  {
    assert logs[..i + 1] == logs[..i] + [logs[i]];
    StoreStep(table, logs[..i], logs[i]);
  }

  lemma {:induction false} StoreStep(table: map<string, Row>, logs: seq<ChangeLog>, log: ChangeLog)
    ensures StoreAll(table, logs + [log]) ==
      if Unchanged(log) then StoreAll(table, logs) else StoreAll(table, logs)[log.seqno := ToRow(log)]
  {
    FilterStep(Changed, logs, log);
    if Changed(log) {
      MapSeqAppend(ToRow, Recorded(logs), log);
      UpsertAppend(table, MapSeq(ToRow, Recorded(logs)), ToRow(log));
      RowSeqno(log);
    }
  }

  /** After storing, a sequence number has a row exactly when it had one
      before or a recorded log carries it; skipped logs add nothing. */
  lemma {:induction false} StoreAllKeys(table: map<string, Row>, logs: seq<ChangeLog>, seqno: string)
    ensures seqno in StoreAll(table, logs) <==>
      seqno in table || exists log :: log in logs && Changed(log) && log.seqno == seqno
  {
    var rec := Recorded(logs);
    var rows := MapSeq(ToRow, rec);
    UpsertKeys(table, rows, seqno);
    MapSeqIndex(ToRow, rec);
    FilterMembers(Changed, logs);
    if exists k :: 0 <= k < |rows| && rows[k].seqno == seqno {
      var k :| 0 <= k < |rows| && rows[k].seqno == seqno;
      RowSeqno(rec[k]);
      assert rec[k] in logs && Changed(rec[k]);
    }
    if exists log :: log in logs && Changed(log) && log.seqno == seqno {
      var log :| log in logs && Changed(log) && log.seqno == seqno;
      var k := IndexOf(rec, log);
      RowSeqno(log);
      assert rows[k].seqno == seqno;
    }
  }

  /** The row a sequence number ends with is that of the last recorded log
      carrying it. */
  lemma {:induction false} StoreAllLast(table: map<string, Row>, logs: seq<ChangeLog>, k: nat)
    requires k < |Recorded(logs)|
    requires forall j :: k < j < |Recorded(logs)| ==> Recorded(logs)[j].seqno != Recorded(logs)[k].seqno
    ensures Recorded(logs)[k].seqno in StoreAll(table, logs)
    ensures StoreAll(table, logs)[Recorded(logs)[k].seqno] == ToRow(Recorded(logs)[k])
  {
    var rec := Recorded(logs);
    var rows := MapSeq(ToRow, rec);
    MapSeqIndex(ToRow, rec);
    forall j | 0 <= j < |rows| ensures rows[j].seqno == rec[j].seqno {
      RowSeqno(rec[j]);
    }
    UpsertLast(table, rows, k);
  }

  /** A row whose sequence number no recorded log carries stays as it was. */
  lemma {:induction false} StoreAllKeeps(table: map<string, Row>, logs: seq<ChangeLog>, seqno: string)
    requires seqno in table
    requires forall log :: log in logs && Changed(log) ==> log.seqno != seqno
    ensures seqno in StoreAll(table, logs) && StoreAll(table, logs)[seqno] == table[seqno]
  {
    var rec := Recorded(logs);
    var rows := MapSeq(ToRow, rec);
    MapSeqIndex(ToRow, rec);
    FilterMembers(Changed, logs);
    forall j | 0 <= j < |rows| ensures rows[j].seqno != seqno {
      RowSeqno(rec[j]);
      assert rec[j] in rec;
    }
    UpsertKeeps(table, rows, seqno);
  }

  /** The `change_logs` table, keyed by sequence number. */
  class ChangeLogTable {
    var rows: map<string, Row>

    constructor()
      ensures rows == map[]
    {
      rows := map[];
    }

    /** `truncateChangeLogs`. */
    method Truncate()
      modifies this
      ensures rows == map[]
    {
      rows := map[];
    }

    /** `storeChangeLogs`; `completed` counts the logs handled, skipped
        or stored. */
    method StoreChangeLogs(logs: seq<ChangeLog>) returns (completed: nat)
      modifies this
      ensures rows == StoreAll(old(rows), logs)
      ensures completed == |logs|
    {
      completed := 0;
      var i := 0;
      while i < |logs|
        invariant 0 <= i <= |logs| && completed == i
        invariant rows == StoreAll(old(rows), logs[..i])
      {
        StoreNext(old(rows), logs, i);
        completed := completed + 1;
        i := i + 1;
      }
      assert logs[..i] == logs;
    }

    /** One turn of the loop of `storeChangeLogs`: the table holds the
        logs before `i`, and then those up to and including `i`. */
    method StoreNext(ghost table: map<string, Row>, logs: seq<ChangeLog>, i: nat)
      requires i < |logs| && rows == StoreAll(table, logs[..i])
      modifies this
      ensures rows == StoreAll(table, logs[..i + 1])
    {
      StoreStepAt(table, logs, i);
      StoreOne(logs[i]);
    }

    /** The body of the loop of `storeChangeLogs`: a log is skipped when
        both of its diffs are the placeholders or they are the same
        non-empty text, and upserted by sequence number otherwise. */
    method StoreOne(log: ChangeLog)
      modifies this
      ensures rows == if Unchanged(log) then old(rows) else old(rows)[log.seqno := ToRow(log)]
    {
      var before := Trim(log.diffBefore);
      var after := Trim(log.diffAfter);
      var noPreviousState := before == NoPrevious;
      var noNewState := after == NoNew;
      var sameContent := before == after && |before| > 0;
      if (noPreviousState && noNewState) || sameContent {
        return;
      }
      rows := rows[log.seqno := ToRow(log)];
    }

    /** `processDateRange`: fetch the range batch by batch, complete the
        described logs with their details, store them, and count them. */
    method ProcessDateRange(batches: seq<FetchResult>, detailOf: string -> Option<Details>) returns (count: nat)
      requires Ends(batches)
      modifies this
      ensures rows == StoreAll(old(rows), Completed(Gathered(batches), detailOf))
      ensures count == |DescribedOnes(Gathered(batches))|
    {
      var fetchedLogs, _ := FetchAllChangeLogsRange(batches);
      var completedLogs := CompleteLogs(fetchedLogs, detailOf);
      var _ := StoreChangeLogs(completedLogs);
      CompletedMapsDescribed(fetchedLogs, detailOf);
      count := |completedLogs|;
    }
  }
}
