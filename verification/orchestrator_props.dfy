/**
 * Properties of the orchestrator model: the job lifecycle, the stage-abort
 * rules, the optional memory stage, the result a completed run serves, and
 * the two end-to-end scenarios of a podcast run.
 */
module OrchestratorProps {
  import opened Common
  import opened Json
  import opened Models
  import opened Orchestrator
  import CacheManager

  // =====================================================================
  // Store invariant
  // =====================================================================

  /** A record is consistent with its lifecycle position. */
  predicate ValidJob(j: Job)
  {
    && (j.status == Completed <==> j.result.Some?)
    && (j.status == Failed <==> j.error.Some?)
    && (j.result.Some? ==> j.result.value.id == j.request.id && j.result.value.status == Completed)
  }

  /** Every record sits under its request's id and is consistent. */
  predicate ValidStore(store: JobStore)
  {
    forall id | id in store :: store[id].request.id == id && ValidJob(store[id])
  }

  /** A submitted job reads back as the pending record of its request. */
  lemma SubmitThenStatus(store: JobStore, req: PodcastRequest, now: string)
    ensures GetStatus(Submit(store, req, now).store, req.id) == Ok(Job(Pending, req, now, None, None))
  {
  }

  /** Resubmitting a completed id replaces it: the store no longer serves the old result. */
  lemma ResubmitForgetsResult(cache: ResultCache, store: JobStore, req: PodcastRequest, now: string, fault: bool)
    requires req.id in store && store[req.id].status == Completed
    requires ResultKey(req.id) !in cache.entries
    ensures GetResult(cache, Submit(store, req, now).store, req.id, fault) == Err(NotReady(Pending))
  {
  }

  lemma SubmitPreservesValid(store: JobStore, req: PodcastRequest, now: string)
    requires ValidStore(store)
    ensures ValidStore(Submit(store, req, now).store)
  {
  }

  /** An id never submitted is unknown to both lookups, unless the cache holds a result. */
  lemma UnknownJob(cache: ResultCache, store: JobStore, jobId: string, fault: bool)
    requires jobId !in store
    requires ResultKey(jobId) !in cache.entries || !Truthy(cache.entries[ResultKey(jobId)])
    ensures GetStatus(store, jobId) == Err(NotFound)
    ensures GetResult(cache, store, jobId, fault) == Err(NotFound)
  {
  }

  /**
   * A truthy cache entry is served before the store is consulted, even for
   * a job that is pending or failed: a resubmitted id whose earlier result is
   * still cached answers with that earlier result.
   */
  lemma CachedResultServedFirst(cache: ResultCache, store: JobStore, jobId: string)
    requires cache.enabled && ResultKey(jobId) in cache.entries
    requires Truthy(cache.entries[ResultKey(jobId)])
    ensures GetResult(cache, store, jobId, false) == Ok(cache.entries[ResultKey(jobId)])
  {
  }

  // =====================================================================
  // What a run depends on
  // =====================================================================

  /** The four stages see the replies only through what each stage reads of them. */
  lemma StagesAgree(req: PodcastRequest, x: Replies, y: Replies)
    requires NewsList(x.news) == NewsList(y.news)
    requires MemoryContext(x.recall) == MemoryContext(y.recall)
    requires ScriptText(x.script) == ScriptText(y.script)
    requires AudioOf(x.tts) == AudioOf(y.tts)
    ensures RunStages(req, x) == RunStages(req, y)
  {
  }

  /** A run sees the replies only through its four stages. */
  lemma PipelineAgrees(
    store: JobStore, cache: ResultCache, jobId: string, req: PodcastRequest,
    x: Replies, y: Replies, fault: bool, clock: Clock)
    requires jobId in store
    requires RunStages(req, x) == RunStages(req, y)
    ensures RunPipeline(store, cache, jobId, req, x, fault, clock)
         == RunPipeline(store, cache, jobId, req, y, fault, clock)
  {
  }

  // =====================================================================
  // Lifecycle of one run
  // =====================================================================

  /**
   * The run writes "running" and then exactly one terminal status, which is
   * the final one; "completed" exactly when every stage succeeded.
   */
  lemma {:induction false} StatusTransitions(
    store: JobStore, cache: ResultCache, jobId: string, req: PodcastRequest,
    replies: Replies, fault: bool, clock: Clock)
    requires jobId in store
    ensures var r := RunPipeline(store, cache, jobId, req, replies, fault, clock);
      && r.statusWrites == [Running, r.store[jobId].status]
      && (r.store[jobId].status == Completed <==> RunStages(req, replies).outcome.Ok?)
      && (r.store[jobId].status == Failed <==> RunStages(req, replies).outcome.Err?)
  {
  }

  /** From a valid store and a pending job, the run leaves a valid store. */
  lemma PipelinePreservesValid(
    store: JobStore, cache: ResultCache, jobId: string,
    replies: Replies, fault: bool, clock: Clock)
    requires ValidStore(store) && jobId in store && store[jobId].status == Pending
    ensures ValidStore(RunPipeline(store, cache, jobId, store[jobId].request, replies, fault, clock).store)
  {
    var req := store[jobId].request;
    var r := RunPipeline(store, cache, jobId, req, replies, fault, clock);
    forall id | id in r.store
      ensures r.store[id].request.id == id && ValidJob(r.store[id])
    {
      if id != jobId {
        assert r.store[id] == store[id];
      }
    }
  }

  /**
   * Whatever stage aborts, the job ends "failed" with the error text, keeps
   * the result it had, the cache is untouched, and the final memory store is
   * never issued.
   */
  lemma AbortEffects(
    store: JobStore, cache: ResultCache, jobId: string, req: PodcastRequest,
    replies: Replies, fault: bool, clock: Clock)
    requires jobId in store
    requires RunStages(req, replies).outcome.Err?
    ensures var r := RunPipeline(store, cache, jobId, req, replies, fault, clock);
      && r.store[jobId].status == Failed
      && r.store[jobId].error == Some(ErrorText(RunStages(req, replies).outcome.error))
      && r.store[jobId].result == store[jobId].result
      && r.cache == cache
      && r.calls == RunStages(req, replies).calls
      && (forall i | 0 <= i < |r.calls| :: r.calls[i].path != "/api/memory/store")
  {
    var calls := RunStages(req, replies).calls;
    forall i | 0 <= i < |calls|
      ensures calls[i].path != "/api/memory/store"
    {
      assert calls[i].path in {"/api/news/fetch", "/api/memory/recall", "/api/script/generate", "/api/tts/generate"};
    }
  }

  /** No news: one call, failed with the news error. */
  lemma NewsFailureStops(
    store: JobStore, cache: ResultCache, jobId: string, req: PodcastRequest,
    replies: Replies, fault: bool, clock: Clock)
    requires jobId in store && Missing(replies.news)
    ensures var r := RunPipeline(store, cache, jobId, req, replies, fault, clock);
      && r.calls == [NewsCall(req)]
      && r.store[jobId].status == Failed
      && r.store[jobId].error == Some("Falha ao buscar notícias")
      && r.cache == cache
  {
  }

  /** No script: three calls, failed with the script error; TTS is never asked. */
  lemma ScriptFailureStops(
    store: JobStore, cache: ResultCache, jobId: string, req: PodcastRequest,
    replies: Replies, fault: bool, clock: Clock)
    requires jobId in store && Missing(replies.script)
    requires NewsList(replies.news).Ok? && MemoryContext(replies.recall).Ok?
    ensures var r := RunPipeline(store, cache, jobId, req, replies, fault, clock);
      && r.calls == [NewsCall(req), RecallCall(req),
                     ScriptCall(req, NewsList(replies.news).value, MemoryContext(replies.recall).value)]
      && r.store[jobId].status == Failed
      && r.store[jobId].error == Some("Falha ao gerar roteiro")
      && r.cache == cache
  {
  }

  /** No audio: four calls, failed with the audio error. */
  lemma TtsFailureStops(
    store: JobStore, cache: ResultCache, jobId: string, req: PodcastRequest,
    replies: Replies, fault: bool, clock: Clock)
    requires jobId in store && Missing(replies.tts)
    requires NewsList(replies.news).Ok? && MemoryContext(replies.recall).Ok? && ScriptText(replies.script).Ok?
    ensures var r := RunPipeline(store, cache, jobId, req, replies, fault, clock);
      && |r.calls| == 4
      && r.calls[3] == TtsCall(req, ScriptText(replies.script).value)
      && r.store[jobId].status == Failed
      && r.store[jobId].error == Some("Falha ao gerar áudio")
      && r.store[jobId].result == store[jobId].result
      && r.cache == cache
  {
  }

  // =====================================================================
  // The memory stage
  // =====================================================================

  /** The recall asks for "podcast <agent type>", 3 items, for the request's user. */
  lemma RecallRequest(req: PodcastRequest, replies: Replies)
    requires NewsList(replies.news).Ok?
    ensures var calls := RunStages(req, replies).calls;
      && |calls| >= 2
      && calls[1].service == MemoryService
      && calls[1].path == "/api/memory/recall"
      && calls[1].body.JObject?
      && calls[1].body.fields["query"] == JStr("podcast " + AgentTypeValue(req.agentType))
      && calls[1].body.fields["limit"] == JNum(3.0)
      && calls[1].body.fields["user_id"] == JStr(req.userId)
  {
    var m := RecallCall(req).body.fields;
    assert m["query"] == JStr(RecallQuery(req));
    assert m["limit"] == JNum(3.0);
    assert m["user_id"] == JStr(req.userId);
  }

  /**
   * A missing or falsy recall never aborts: the run is exactly the run with
   * no recall at all, and a completed result recalls "".
   */
  lemma MissingMemoryIsHarmless(
    store: JobStore, cache: ResultCache, jobId: string, req: PodcastRequest,
    replies: Replies, fault: bool, clock: Clock)
    requires jobId in store && Missing(replies.recall)
    ensures RunPipeline(store, cache, jobId, req, replies, fault, clock)
         == RunPipeline(store, cache, jobId, req, replies.(recall := None), fault, clock)
    ensures var r := RunPipeline(store, cache, jobId, req, replies, fault, clock);
      r.store[jobId].status == Completed ==> r.store[jobId].result.value.memoryRecalled == ""
  {
    StagesAgree(req, replies, replies.(recall := None));
    PipelineAgrees(store, cache, jobId, req, replies, replies.(recall := None), fault, clock);
    var stages := RunStages(req, replies);
    if stages.outcome.Ok? {
      assert MemoryContext(replies.recall) == Ok(stages.outcome.value.memory);
    }
  }

  /** Recalled memories are the space-join of their contents (default ""). */
  lemma RecalledMemoriesJoined(fields: map<string, Json>, items: seq<Json>)
    requires "memories" in fields && fields["memories"] == JArray(items) && |items| > 0
    requires forall i | 0 <= i < |items| :: items[i].JObject?
    requires forall i | 0 <= i < |items| :: "content" in items[i].fields ==> items[i].fields["content"].JStr?
    ensures MemoryContext(Some(JObject(fields))) == Ok(Join(ContentsOf(items), " "))
  {
    NonEmptyReply(fields, "memories");
    assert GetOr(JObject(fields), "memories", JNull) == Some(JArray(items));
    ContentsOfDicts(items);
  }

  /** A reply holding some key is a truthy dict. */
  lemma NonEmptyReply(fields: map<string, Json>, key: string)
    requires key in fields
    ensures !Missing(Some(JObject(fields)))
  {
    assert fields.Keys >= {key};
    assert |fields.Keys| >= |{key}|;
  }

  /** Each memory's `content`, or "" when it has none. */
  function ContentsOf(items: seq<Json>): (r: seq<string>)
    requires forall i | 0 <= i < |items| :: items[i].JObject?
    requires forall i | 0 <= i < |items| :: "content" in items[i].fields ==> items[i].fields["content"].JStr?
    ensures |r| == |items|
    ensures forall i | 0 <= i < |items| ::
      r[i] == (if "content" in items[i].fields then items[i].fields["content"].s else "")
  {
    if |items| == 0 then []
    else
      [if "content" in items[0].fields then items[0].fields["content"].s else ""] + ContentsOf(items[1..])
  }

  lemma {:induction false} ContentsOfDicts(items: seq<Json>)
    requires forall i | 0 <= i < |items| :: items[i].JObject?
    requires forall i | 0 <= i < |items| :: "content" in items[i].fields ==> items[i].fields["content"].JStr?
    ensures Contents(items) == Some(ContentsOf(items))
  {
    if |items| > 0 {
      ContentsOfDicts(items[1..]);
    }
  }

  // =====================================================================
  // A completed run
  // =====================================================================

  /**
   * A completed run stores a result carrying the accumulated stage outputs,
   * read from the replies with their Python defaults.
   */
  lemma CompletedResult(
    store: JobStore, cache: ResultCache, jobId: string, req: PodcastRequest,
    replies: Replies, fault: bool, clock: Clock)
    requires jobId in store
    requires RunStages(req, replies).outcome.Ok?
    ensures var r := RunPipeline(store, cache, jobId, req, replies, fault, clock);
      var res := r.store[jobId].result.value;
      && r.store[jobId].status == Completed
      && r.store[jobId].result.Some?
      && res.id == req.id && res.jobId == jobId && res.status == Completed
      && res.newsUsed == ReplyGet(replies.news, "news", JArray([]))
      && res.memoryRecalled == MemoryContext(replies.recall).value
      && res.script == ReplyGet(replies.script, "script", JStr(""))
      && res.audioPath == ReplyGet(replies.tts, "audio_path", JStr(""))
      && res.audioDuration == ReplyGet(replies.tts, "duration", JNum(0.0))
      && r.calls[|r.calls| - 1] == StoreMemoryCall(req, jobId, res.newsUsed, res.audioDuration)
  {
    StageOutputs(req, replies);
    CompletedRun(store, cache, jobId, req, replies, fault, clock);
  }

  /** What the four stages of a run that reached stage 5 read from the replies. */
  lemma StageOutputs(req: PodcastRequest, replies: Replies)
    requires RunStages(req, replies).outcome.Ok?
    ensures var o := RunStages(req, replies).outcome.value;
      && o.news == ReplyGet(replies.news, "news", JArray([]))
      && Ok(o.memory) == MemoryContext(replies.recall)
      && o.script == ReplyGet(replies.script, "script", JStr(""))
      && o.audio == Audio(ReplyGet(replies.tts, "audio_path", JStr("")), ReplyGet(replies.tts, "duration", JNum(0.0)))
  {
    var o := RunStages(req, replies).outcome.value;
    assert NewsList(replies.news) == Ok(o.news);
    assert MemoryContext(replies.recall) == Ok(o.memory);
    assert ScriptText(replies.script) == Ok(o.script);
    assert AudioOf(replies.tts) == Ok(o.audio);
  }

  /** A run whose stages succeed stores the assembled result and ends with the memory store. */
  lemma CompletedRun(
    store: JobStore, cache: ResultCache, jobId: string, req: PodcastRequest,
    replies: Replies, fault: bool, clock: Clock)
    requires jobId in store
    requires RunStages(req, replies).outcome.Ok?
    ensures var o := RunStages(req, replies).outcome.value;
      var r := RunPipeline(store, cache, jobId, req, replies, fault, clock);
      && r.store[jobId] == store[jobId].(status := Completed, result := Some(Assemble(req, jobId, o, clock)))
      && r.calls == RunStages(req, replies).calls + [StoreMemoryCall(req, jobId, o.news, o.audio.duration)]
  {
  }

  /** `reply.get(key, default)` on a reply that is a dict; the default otherwise. */
  function ReplyGet(reply: Option<Json>, key: string, default: Json): Json
  {
    if reply.Some? && reply.value.JObject? && key in reply.value.fields then reply.value.fields[key] else default
  }

  /**
   * Non-empty replies that lack the expected fields do not abort: the run
   * completes with an empty news list, an empty script, an empty audio path
   * and a zero duration.
   */
  lemma MissingFieldsDefault(
    store: JobStore, cache: ResultCache, jobId: string, req: PodcastRequest,
    other: map<string, Json>, fault: bool, clock: Clock)
    requires jobId in store
    requires |other| > 0
    requires "news" !in other && "memories" !in other && "script" !in other
    requires "audio_path" !in other && "duration" !in other
    ensures var r := RunPipeline(store, cache, jobId, req,
        Replies(Some(JObject(other)), Some(JObject(other)), Some(JObject(other)), Some(JObject(other)), None),
        fault, clock);
      var res := r.store[jobId].result.value;
      && r.store[jobId].status == Completed
      && r.store[jobId].result.Some?
      && res.newsUsed == JArray([])
      && res.memoryRecalled == ""
      && res.script == JStr("")
      && res.audioPath == JStr("")
      && res.audioDuration == JNum(0.0)
  {
    var reply := Some(JObject(other));
    var k :| k in other;
    NonEmptyReply(other, k);
    assert NewsList(reply) == Ok(JArray([]));
    assert MemoryContext(reply) == Ok("");
    assert ScriptText(reply) == Ok(JStr(""));
    assert AudioOf(reply) == Ok(Audio(JStr(""), JNum(0.0)));
    assert RunStages(req, Replies(reply, reply, reply, reply, None)).outcome
        == Ok(Outputs(JArray([]), "", JStr(""), Audio(JStr(""), JNum(0.0))));
  }

  /**
   * The final memory store happens after "completed" is written and its reply
   * is discarded: no reply to it changes anything the run leaves behind.
   */
  lemma StoreReplyCannotFlip(
    store: JobStore, cache: ResultCache, jobId: string, req: PodcastRequest,
    replies: Replies, a: Option<Json>, b: Option<Json>, fault: bool, clock: Clock)
    requires jobId in store
    ensures RunPipeline(store, cache, jobId, req, replies.(stored := a), fault, clock)
         == RunPipeline(store, cache, jobId, req, replies.(stored := b), fault, clock)
  {
    StagesAgree(req, replies.(stored := a), replies.(stored := b));
    PipelineAgrees(store, cache, jobId, req, replies.(stored := a), replies.(stored := b), fault, clock);
  }

  /**
   * After a completed run the result endpoint serves the assembled result,
   * from the cache when the write succeeded and from the store otherwise,
   * whether or not the cache read fails.
   */
  lemma CompletedResultServed(
    store: JobStore, cache: ResultCache, jobId: string, req: PodcastRequest,
    replies: Replies, writeFault: bool, readFault: bool, clock: Clock)
    requires jobId in store
    requires RunStages(req, replies).outcome.Ok?
    requires (cache.enabled && !writeFault) || ResultKey(jobId) !in cache.entries
    ensures var r := RunPipeline(store, cache, jobId, req, replies, writeFault, clock);
      GetResult(r.cache, r.store, jobId, readFault) == Ok(ResultToJson(r.store[jobId].result.value))
  {
  }

  /** A failed run leaves nothing to serve: the result endpoint answers NotReady(failed). */
  lemma FailedRunHasNoResult(
    store: JobStore, cache: ResultCache, jobId: string, req: PodcastRequest,
    replies: Replies, fault: bool, readFault: bool, clock: Clock)
    requires jobId in store
    requires RunStages(req, replies).outcome.Err?
    requires ResultKey(jobId) !in cache.entries
    ensures var r := RunPipeline(store, cache, jobId, req, replies, fault, clock);
      && ResultKey(jobId) !in r.cache.entries
      && GetResult(r.cache, r.store, jobId, readFault) == Err(NotReady(Failed))
  {
  }

  // =====================================================================
  // Caching the result
  // =====================================================================

  /** Every result dict holds a `datetime`, so `json.dumps` refuses all of them. */
  lemma ResultDictNotDumpable(r: PodcastResult)
    ensures !Dumpable(ResultDict(r))
  {
    var fields := ResultToJson(r).fields;
    ResultFields(r);
    assert "created_at" in fields;
    assert ResultDict(r)["created_at"] == Timestamp(r.createdAt);
  }

  /** With the timestamps as strings the dict dumps to the result's JSON form. */
  lemma IsoResultDictDumps(r: PodcastResult)
    ensures Dumpable(IsoResultDict(r)) && Dumped(IsoResultDict(r)) == ResultToJson(r)
  {
    var fields := ResultToJson(r).fields;
    assert (map k | k in IsoResultDict(r) :: IsoResultDict(r)[k].j) == fields;
  }

  /**
   * As written, no run ever caches its result: the cache is left exactly as
   * it was, so a completed result can only be served from the job store.
   */
  lemma ResultNeverCachedAsWritten(
    store: JobStore, cache: ResultCache, jobId: string, req: PodcastRequest,
    replies: Replies, backendFault: bool, clock: Clock)
    requires jobId in store
    ensures RunPipelineAsWritten(store, cache, jobId, req, replies, backendFault, clock).cache == cache
  {
    match RunStages(req, replies).outcome
    case Ok(o) =>
      ResultDictNotDumpable(Assemble(req, jobId, o, clock));
    case Err(_) =>
  }

  /**
   * With the result cached in its JSON form, a completed run on a working
   * cache leaves the result readable under `podcast_result:<job id>`.
   */
  lemma CompletedResultCached(
    store: JobStore, cache: ResultCache, jobId: string, req: PodcastRequest,
    replies: Replies, clock: Clock)
    requires jobId in store && cache.enabled
    requires RunStages(req, replies).outcome.Ok?
    ensures var r := RunPipeline(store, cache, jobId, req, replies, false, clock);
      && r.store[jobId].result.Some?
      && CacheManager.Get(r.cache, ResultKey(jobId), false) == Some(ResultToJson(r.store[jobId].result.value))
  {
  }

  // =====================================================================
  // End-to-end scenarios
  // =====================================================================

  function ScenarioRequest(): PodcastRequest
  {
    PodcastRequest("job-1", PodcastDaily, "jarvis", "u1", "t0", 3, "pt-BR", "pt-BR-FranciscaNeural", map[])
  }

  function ThreeNews(): Json
  {
    JArray([JObject(map["title" := JStr("a")]), JObject(map["title" := JStr("b")]), JObject(map["title" := JStr("c")])])
  }

  function ScenarioReplies(script: Option<Json>): Replies
  {
    Replies(
      Some(JObject(map["news" := ThreeNews()])),
      Some(JObject(map["memories" := JArray([])])),
      script,
      Some(JObject(map["audio_path" := JStr("/tmp/a.mp3"), "duration" := JNum(230.5)])),
      None)
  }

  /** The four stages of the scenario with a working script service. */
  lemma ScenarioStages(script: string)
    requires |script| > 0
    ensures RunStages(ScenarioRequest(), ScenarioReplies(Some(JObject(map["script" := JStr(script)])))).outcome
         == Ok(Outputs(ThreeNews(), "", JStr(script), Audio(JStr("/tmp/a.mp3"), JNum(230.5))))
  {
    var replies := ScenarioReplies(Some(JObject(map["script" := JStr(script)])));
    assert NewsList(replies.news) == Ok(ThreeNews());
    assert MemoryContext(replies.recall) == Ok("");
    assert ScriptText(replies.script) == Ok(JStr(script));
    ScenarioAudio();
  }

  lemma ScenarioAudio()
    ensures AudioOf(ScenarioReplies(None).tts) == Ok(Audio(JStr("/tmp/a.mp3"), JNum(230.5)))
  {
    var m := map["audio_path" := JStr("/tmp/a.mp3"), "duration" := JNum(230.5)];
    assert m["duration"] == JNum(230.5);
    assert m["audio_path"] == JStr("/tmp/a.mp3");
  }

  /**
   * Three news items, no prior memories, a script and an audio file of
   * 230.5 s: the job completes with three news items used, duration 230.5
   * and no memory recalled.
   */
  lemma ScenarioCompletes(cache: ResultCache, script: string, clock: Clock)
    requires |script| > 0
    ensures var s := Submit(map[], ScenarioRequest(), "t0");
      var r := RunPipeline(s.store, cache, s.jobId, ScenarioRequest(),
        ScenarioReplies(Some(JObject(map["script" := JStr(script)]))), true, clock);
      && r.store["job-1"].status == Completed
      && r.store["job-1"].result.Some?
      && Len(r.store["job-1"].result.value.newsUsed) == 3
      && r.store["job-1"].result.value.audioDuration == JNum(230.5)
      && r.store["job-1"].result.value.audioPath == JStr("/tmp/a.mp3")
      && r.store["job-1"].result.value.memoryRecalled == ""
  {
    ScenarioStages(script);
  }

  /**
   * The same request with the script service unreachable: the job fails,
   * no result is created, and the result endpoint never finds one.
   */
  lemma ScenarioScriptDown(cache: ResultCache, clock: Clock, readFault: bool)
    requires ResultKey("job-1") !in cache.entries
    ensures var s := Submit(map[], ScenarioRequest(), "t0");
      var r := RunPipeline(s.store, cache, s.jobId, ScenarioRequest(), ScenarioReplies(None), false, clock);
      && r.store["job-1"].status == Failed
      && r.store["job-1"].result.None?
      && GetResult(r.cache, r.store, "job-1", readFault) == Err(NotReady(Failed))
  {
    var s := Submit(map[], ScenarioRequest(), "t0");
    var replies := ScenarioReplies(None);
    assert NewsList(replies.news) == Ok(ThreeNews());
    assert MemoryContext(replies.recall) == Ok("");
    assert ScriptText(replies.script) == Err(ScriptUnavailable);
    assert RunStages(ScenarioRequest(), replies).outcome == Err(ScriptUnavailable);
    AbortEffects(s.store, cache, "job-1", ScenarioRequest(), replies, false, clock);
    FailedRunHasNoResult(s.store, cache, "job-1", ScenarioRequest(), replies, false, readFault, clock);
  }

}
