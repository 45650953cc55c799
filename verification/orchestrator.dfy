/**
 * The podcast orchestrator as a state-transition system.
 *
 * The job store (`active_jobs`) is a map from job id to job record; the
 * shared cache holds decoded JSON values.  `Submit`, `GetStatus` and
 * `GetResult` are the three endpoints; `RunPipeline` is the background
 * pipeline, run as a separate step after `Submit` registered the job.
 * Each downstream call is replaced by the reply the ServiceClient handed
 * back (`None` when the call failed in any way), and the pipeline reports
 * the calls it made, in order, so that what it asked for and what it never
 * asked for can be stated.
 */
module Orchestrator {
  import opened Common
  import opened Json
  import opened Models
  import CacheManager

  /** A record of `active_jobs`. */
  datatype Job = Job(
    status: JobStatus,
    request: PodcastRequest,
    createdAt: string,
    result: Option<PodcastResult>,
    error: Option<string>)

  type JobStore = map<string, Job>

  type ResultCache = CacheManager.Cache<Json>

  // =====================================================================
  // Endpoints
  // =====================================================================

  /** Reply of `generate_podcast` together with the new store. */
  datatype Submitted = Submitted(store: JobStore, jobId: string, status: string, message: string)

  /**
   * `generate_podcast`: registers the request as a pending job under its own
   * id (replacing any earlier record with that id) and answers at once.
   * `now` is the creation timestamp.
   */
  function Submit(store: JobStore, request: PodcastRequest, now: string): (r: Submitted)
    ensures r.jobId == request.id && r.status == StatusValue(Pending)
    ensures r.store.Keys == store.Keys + {request.id}
    ensures r.store[request.id] == Job(Pending, request, now, None, None)
    ensures forall id | id in store && id != request.id :: r.store[id] == store[id]
  {
    Submitted(
      store[request.id := Job(Pending, request, now, None, None)],
      request.id,
      "pending",
      "Podcast em fila de processamento")
  }

  /** The two ways a lookup endpoint refuses. */
  datatype ApiError = NotFound | NotReady(status: JobStatus)

  function HttpStatus(e: ApiError): int
  {
    match e
    case NotFound => 404
    case NotReady(_) => 202
  }

  function Detail(e: ApiError): string
  {
    match e
    case NotFound => "Job não encontrado"
    case NotReady(s) => "Job ainda em processamento. Status: " + StatusValue(s)
  }

  /** `get_podcast_status`: the stored record, or NotFound. */
  function GetStatus(store: JobStore, jobId: string): (r: Result<Job, ApiError>)
    ensures r.Err? <==> jobId !in store
    ensures r.Err? ==> r.error == NotFound
    ensures r.Ok? ==> r.value == store[jobId]
  {
    if jobId !in store then Err(NotFound) else Ok(store[jobId])
  }

  /** Cache key of a job's result. */
  function ResultKey(jobId: string): string
  {
    "podcast_result:" + jobId
  }

  /** What the store serves as a job's result (`job.get("result")`). */
  function StoredResult(j: Job): Json
  {
    match j.result
    case None => JNull
    case Some(r) => ResultToJson(r)
  }

  /**
   * `get_podcast_result`: a truthy cache entry first; otherwise NotFound for
   * an unknown id, NotReady with the status for a job not yet completed, and
   * the stored result for a completed one.  `cacheFault` says whether the
   * cache read raised.
   */
  function GetResult(cache: ResultCache, store: JobStore, jobId: string, cacheFault: bool): (r: Result<Json, ApiError>)
    ensures var hit := CacheManager.Get(cache, ResultKey(jobId), cacheFault);
      hit.Some? && Truthy(hit.value) ==> r == Ok(hit.value)
    ensures var hit := CacheManager.Get(cache, ResultKey(jobId), cacheFault);
      !(hit.Some? && Truthy(hit.value)) ==>
        && (r == Err(NotFound) <==> jobId !in store)
        && (jobId in store && store[jobId].status != Completed ==> r == Err(NotReady(store[jobId].status)))
        && (jobId in store && store[jobId].status == Completed ==> r == Ok(StoredResult(store[jobId])))
  {
    var cached := CacheManager.Get(cache, ResultKey(jobId), cacheFault);
    if cached.Some? && Truthy(cached.value) then Ok(cached.value)
    else if jobId !in store then Err(NotFound)
    else if store[jobId].status != Completed then Err(NotReady(store[jobId].status))
    else Ok(StoredResult(store[jobId]))
  }

  // =====================================================================
  // Downstream calls
  // =====================================================================

  datatype Service = NewsService | MemoryService | ScriptService | TtsService

  /** One POST the pipeline issued. */
  datatype Call = Call(service: Service, path: string, body: Json)

  function NewsCall(req: PodcastRequest): Call
  {
    Call(NewsService, "/api/news/fetch",
      JObject(map["language" := JStr(req.language), "limit" := JNum(req.newsCount as real)]))
  }

  /** The recall query names the agent type: `"podcast " + agent_type.value`. */
  function RecallQuery(req: PodcastRequest): string
  {
    "podcast " + AgentTypeValue(req.agentType)
  }

  function RecallCall(req: PodcastRequest): Call
  {
    Call(MemoryService, "/api/memory/recall",
      JObject(map["query" := JStr(RecallQuery(req)), "limit" := JNum(3.0), "user_id" := JStr(req.userId)]))
  }

  function ScriptCall(req: PodcastRequest, news: Json, memory: string): Call
  {
    Call(ScriptService, "/api/script/generate",
      JObject(map[
        "agent_name" := JStr(req.agentName),
        "agent_type" := JStr(AgentTypeValue(req.agentType)),
        "news" := news,
        "memory_context" := JStr(memory),
        "language" := JStr(req.language)]))
  }

  function TtsCall(req: PodcastRequest, script: Json): Call
  {
    Call(TtsService, "/api/tts/generate",
      JObject(map[
        "text" := script,
        "voice" := JStr(req.voice),
        "agent_name" := JStr(req.agentName),
        "language" := JStr(req.language)]))
  }

  /** The best-effort fact stored after completion. */
  function StoreMemoryCall(req: PodcastRequest, jobId: string, news: Json, duration: Json): Call
    requires HasLen(news)
  {
    Call(MemoryService, "/api/memory/store",
      JObject(map[
        "user_id" := JStr(req.userId),
        "content" := JStr("Podcast gerado: " + req.agentName + " - " + AgentTypeValue(req.agentType)),
        "metadata" := JObject(map[
          "job_id" := JStr(jobId),
          "news_count" := JNum(Len(news) as real),
          "duration" := duration,
          "agent" := JStr(req.agentName)])]))
  }

  // =====================================================================
  // Stage semantics
  // =====================================================================

  /** The replies the four services give, plus the ignored reply to the final store. */
  datatype Replies = Replies(
    news: Option<Json>,
    recall: Option<Json>,
    script: Option<Json>,
    tts: Option<Json>,
    stored: Option<Json>)

  datatype Stage = NewsStage | MemoryStage | ScriptStage | TtsStage

  /** Why a pipeline run ended in "failed". */
  datatype PipelineError =
    | NewsUnavailable          // news reply None or falsy
    | ScriptUnavailable        // script reply None or falsy
    | AudioUnavailable         // tts reply None or falsy
    | NotADict(stage: Stage)   // `.get` on a truthy reply that is not a dict
    | NoLength(stage: Stage)   // `len()` of a news list or script that has none
    | BadMemories              // memories not a list of dicts with str contents
    | BadDuration              // `{duration:.1f}` on a value that is not a number

  /**
   * The text stored as the job's error.  For the three failures the pipeline
   * raises itself it is `str(e)`.  For the four type errors Python's message
   * names the type of the offending value, which this model does not
   * reproduce; a fixed placeholder text stands for it.
   */
  function ErrorText(e: PipelineError): string
  {
    match e
    case NewsUnavailable => "Falha ao buscar notícias"
    case ScriptUnavailable => "Falha ao gerar roteiro"
    case AudioUnavailable => "Falha ao gerar áudio"
    case NotADict(_) => "object has no attribute 'get'"
    case NoLength(_) => "object has no len()"
    case BadMemories => "memories are not a list of dicts with str content"
    case BadDuration => "unsupported format string"
  }

  /** Stage 1: the news list, defaulting to `[]`; aborts on a missing reply. */
  function NewsList(reply: Option<Json>): (r: Result<Json, PipelineError>)
    ensures Missing(reply) ==> r == Err(NewsUnavailable)
    ensures r.Ok? ==> HasLen(r.value)
  {
    if Missing(reply) then Err(NewsUnavailable)
    else match GetOr(reply.value, "news", JArray([]))
      case None => Err(NotADict(NewsStage))
      case Some(news) => if HasLen(news) then Ok(news) else Err(NoLength(NewsStage))
  }

  /** The `content` of each recalled memory (default ""), if all are dicts of str. */
  function Contents(memories: seq<Json>): (r: Option<seq<string>>)
    ensures r.Some? ==> |r.value| == |memories|
  {
    if |memories| == 0 then Some([])
    else
      var rest := Contents(memories[1..]);
      match GetOr(memories[0], "content", JStr(""))
      case Some(JStr(c)) => if rest.Some? then Some([c] + rest.value) else None
      case _ => None
  }

  /**
   * Stage 2: the memory context.  A missing reply or a falsy `memories`
   * yields ""; a list of memories yields their contents joined by spaces.
   */
  function MemoryContext(reply: Option<Json>): (r: Result<string, PipelineError>)
    ensures Missing(reply) ==> r == Ok("")
  {
    if Missing(reply) then Ok("")
    else match GetOr(reply.value, "memories", JNull)
      case None => Err(NotADict(MemoryStage))
      case Some(memories) =>
        if !Truthy(memories) then Ok("")
        else match memories
          case JArray(items) =>
            var contents := Contents(items);
            if contents.Some? then Ok(Join(contents.value, " ")) else Err(BadMemories)
          case _ => Err(BadMemories)
  }

  /** Stage 3: the script, defaulting to ""; aborts on a missing reply. */
  function ScriptText(reply: Option<Json>): (r: Result<Json, PipelineError>)
    ensures Missing(reply) ==> r == Err(ScriptUnavailable)
  {
    if Missing(reply) then Err(ScriptUnavailable)
    else match GetOr(reply.value, "script", JStr(""))
      case None => Err(NotADict(ScriptStage))
      case Some(script) => if HasLen(script) then Ok(script) else Err(NoLength(ScriptStage))
  }

  /** Stage 4 output: audio path (default "") and duration (default 0.0). */
  datatype Audio = Audio(path: Json, duration: Json)

  /** Stage 4: aborts on a missing reply; a missing path does not abort. */
  function AudioOf(reply: Option<Json>): (r: Result<Audio, PipelineError>)
    ensures Missing(reply) ==> r == Err(AudioUnavailable)
  {
    if Missing(reply) then Err(AudioUnavailable)
    else
      var path := GetOr(reply.value, "audio_path", JStr(""));
      var duration := GetOr(reply.value, "duration", JNum(0.0));
      if path.None? || duration.None? then Err(NotADict(TtsStage))
      else if !IsNumber(duration.value) then Err(BadDuration)
      else Ok(Audio(path.value, duration.value))
  }

  /** The accumulated stage outputs of a run that reached stage 5. */
  datatype Outputs = Outputs(news: Json, memory: string, script: Json, audio: Audio)

  /** Stages 1-4: the calls issued and how they ended. */
  datatype Stages = Stages(calls: seq<Call>, outcome: Result<Outputs, PipelineError>)

  function RunStages(req: PodcastRequest, replies: Replies): (r: Stages)
    ensures 1 <= |r.calls| <= 4
    ensures r.outcome.Ok? ==> |r.calls| == 4 && HasLen(r.outcome.value.news)
  {
    var c1 := [NewsCall(req)];
    match NewsList(replies.news)
    case Err(e) => Stages(c1, Err(e))
    case Ok(news) =>
      var c2 := c1 + [RecallCall(req)];
      match MemoryContext(replies.recall)
      case Err(e) => Stages(c2, Err(e))
      case Ok(memory) =>
        var c3 := c2 + [ScriptCall(req, news, memory)];
        match ScriptText(replies.script)
        case Err(e) => Stages(c3, Err(e))
        case Ok(script) =>
          var c4 := c3 + [TtsCall(req, script)];
          match AudioOf(replies.tts)
          case Err(e) => Stages(c4, Err(e))
          case Ok(audio) => Stages(c4, Ok(Outputs(news, memory, script, audio)))
  }

  // =====================================================================
  // The pipeline
  // =====================================================================

  /** The two timestamps the pipeline reads from the clock. */
  datatype Clock = Clock(resultCreated: string, completed: string)

  /** The result assembled at stage 5. */
  function Assemble(req: PodcastRequest, jobId: string, o: Outputs, clock: Clock): PodcastResult
  {
    PodcastResult(
      req.id, jobId, req.agentName, req.agentType, Completed,
      o.script, o.audio.path, o.audio.duration, o.news, o.memory,
      None, clock.resultCreated, clock.completed, None)
  }

  /** Everything a pipeline run leaves behind. */
  datatype PipelineRun = PipelineRun(
    store: JobStore,
    cache: ResultCache,
    calls: seq<Call>,
    statusWrites: seq<JobStatus>)

  /**
   * `process_podcast_pipeline`, with the result cached in its JSON form
   * (timestamps as strings).  The job must be registered (the debug
   * endpoint that starts a pipeline without registering is not modelled).
   * `cacheFault` says whether the cache backend raised on the write;
   * `RunPipelineAsWritten` is the source's own behaviour.
   */
  function RunPipeline(
    store: JobStore, cache: ResultCache, jobId: string, req: PodcastRequest,
    replies: Replies, cacheFault: bool, clock: Clock): (r: PipelineRun)
    requires jobId in store
    ensures r.store.Keys == store.Keys
    ensures forall id | id in store && id != jobId :: r.store[id] == store[id]
    ensures r.store[jobId].request == store[jobId].request
    ensures r.store[jobId].createdAt == store[jobId].createdAt
  {
    // The "running" write is overwritten by the final one; `statusWrites` records both.
    var job := store[jobId];
    var stages := RunStages(req, replies);
    match stages.outcome
    case Err(e) =>
      PipelineRun(
        store[jobId := job.(status := Failed, error := Some(ErrorText(e)))],
        cache, stages.calls, [Running, Failed])
    case Ok(o) =>
      var result := Assemble(req, jobId, o, clock);
      var written := CacheManager.Set(cache, ResultKey(jobId), ResultToJson(result), cacheFault);
      PipelineRun(
        store[jobId := job.(status := Completed, result := Some(result))],
        written.cache,
        stages.calls + [StoreMemoryCall(req, jobId, o.news, o.audio.duration)],
        [Running, Completed])
  }

  // =====================================================================
  // The result write as the source performs it
  // =====================================================================

  /** A value of `result.__dict__` as Python holds it: JSON-encodable, or a `datetime`. */
  datatype PyValue = Plain(j: Json) | Timestamp(iso: string)

  /** `result.__dict__` as written: `created_at` and `completed_at` are `datetime` objects. */
  function ResultDict(r: PodcastResult): map<string, PyValue>
  {
    var fields := ResultToJson(r).fields;
    map k | k in fields ::
      if k == "created_at" then Timestamp(r.createdAt)
      else if k == "completed_at" then Timestamp(r.completedAt)
      else Plain(fields[k])
  }

  /** The same dict with the timestamps as strings, which is what caching needs. */
  function IsoResultDict(r: PodcastResult): map<string, PyValue>
  {
    var fields := ResultToJson(r).fields;
    map k | k in fields :: Plain(fields[k])
  }

  /** `json.dumps` succeeds exactly when no value is a `datetime` (it raises TypeError). */
  predicate Dumpable(m: map<string, PyValue>)
  {
    forall k | k in m :: m[k].Plain?
  }

  /** The JSON a dumpable dict is written as. */
  function Dumped(m: map<string, PyValue>): Json
    requires Dumpable(m)
  {
    JObject(map k | k in m :: m[k].j)
  }

  /** Whether `cache.set` raises on the result of this run. */
  function ResultWriteRaises(req: PodcastRequest, jobId: string, replies: Replies, clock: Clock): bool
  {
    match RunStages(req, replies).outcome
    case Ok(o) => !Dumpable(ResultDict(Assemble(req, jobId, o, clock)))
    case Err(_) => false
  }

  /**
   * `process_podcast_pipeline` as written: besides a backend fault, the
   * write raises whenever the result dict cannot be dumped.
   */
  function RunPipelineAsWritten(
    store: JobStore, cache: ResultCache, jobId: string, req: PodcastRequest,
    replies: Replies, backendFault: bool, clock: Clock): (r: PipelineRun)
    requires jobId in store
    ensures r.store == RunPipeline(store, cache, jobId, req, replies, backendFault, clock).store
    ensures r.calls == RunPipeline(store, cache, jobId, req, replies, backendFault, clock).calls
  {
    RunPipeline(store, cache, jobId, req, replies, backendFault || ResultWriteRaises(req, jobId, replies, clock), clock)
  }
}
