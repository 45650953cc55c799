/**
 * The shared data model of the services: agent types, job statuses, the
 * podcast request and the podcast result, with the JSON shape the result
 * takes when it is served or cached (`result.__dict__`).
 *
 * Timestamps are opaque strings supplied by the caller: the model has no
 * clock.
 */
module Models {
  import opened Common
  import opened Json

  datatype AgentType =
    | PodcastDaily
    | MarketAnalysis
    | EmailSummary
    | ContentGenerator
    | CodeAssistant

  /** `AgentType.value`. */
  function AgentTypeValue(a: AgentType): string
  {
    match a
    case PodcastDaily => "podcast_daily"
    case MarketAnalysis => "market_analysis"
    case EmailSummary => "email_summary"
    case ContentGenerator => "content_generator"
    case CodeAssistant => "code_assistant"
  }

  /** Reads an agent type back from its value; no other string names one. */
  function ParseAgentType(s: string): (r: Option<AgentType>)
    ensures r.Some? ==> AgentTypeValue(r.value) == s
  {
    if s == "podcast_daily" then Some(PodcastDaily)
    else if s == "market_analysis" then Some(MarketAnalysis)
    else if s == "email_summary" then Some(EmailSummary)
    else if s == "content_generator" then Some(ContentGenerator)
    else if s == "code_assistant" then Some(CodeAssistant)
    else None
  }

  lemma AgentTypeRoundTrip(a: AgentType)
    ensures ParseAgentType(AgentTypeValue(a)) == Some(a)
  {
  }

  datatype JobStatus = Pending | Running | Completed | Failed | Cancelled

  /** `JobStatus.value`, also the string the job store holds. */
  function StatusValue(s: JobStatus): string
  {
    match s
    case Pending => "pending"
    case Running => "running"
    case Completed => "completed"
    case Failed => "failed"
    case Cancelled => "cancelled"
  }

  function ParseStatus(s: string): (r: Option<JobStatus>)
    ensures r.Some? ==> StatusValue(r.value) == s
  {
    if s == "pending" then Some(Pending)
    else if s == "running" then Some(Running)
    else if s == "completed" then Some(Completed)
    else if s == "failed" then Some(Failed)
    else if s == "cancelled" then Some(Cancelled)
    else None
  }

  lemma StatusRoundTrip(s: JobStatus)
    ensures ParseStatus(StatusValue(s)) == Some(s)
  {
  }

  /** A podcast generation request; immutable once accepted. */
  datatype PodcastRequest = PodcastRequest(
    id: string,
    agentType: AgentType,
    agentName: string,
    userId: string,
    createdAt: string,
    newsCount: int,
    language: string,
    voice: string,
    metadata: map<string, Json>)

  /**
   * A request built from defaults only; `id` and `createdAt` stand for the
   * generated uuid4 and the creation time.
   */
  function DefaultRequest(id: string, createdAt: string): (r: PodcastRequest)
    ensures r.id == id && r.createdAt == createdAt
    ensures r.agentType == PodcastDaily && r.agentName == "jarvis" && r.userId == ""
    ensures r.newsCount == 8 && r.language == "pt-BR" && r.voice == "pt-BR-FranciscaNeural"
    ensures r.metadata == map[]
  {
    PodcastRequest(id, PodcastDaily, "jarvis", "", createdAt, 8, "pt-BR", "pt-BR-FranciscaNeural", map[])
  }

  /**
   * The result of one podcast job.  The stage outputs keep the JSON values
   * the downstream services returned, since the orchestrator passes them
   * through without conversion.
   */
  datatype PodcastResult = PodcastResult(
    id: string,
    jobId: string,
    agentName: string,
    agentType: AgentType,
    status: JobStatus,
    script: Json,
    audioPath: Json,
    audioDuration: Json,
    newsUsed: Json,
    memoryRecalled: string,
    errorMessage: Option<string>,
    createdAt: string,
    completedAt: string,
    executionTimeSeconds: Option<real>)

  function OptStr(o: Option<string>): Json
  {
    match o
    case None => JNull
    case Some(s) => JStr(s)
  }

  function OptNum(o: Option<real>): Json
  {
    match o
    case None => JNull
    case Some(n) => JNum(n)
  }

  /** The identifying attributes of a result, as they appear in its dict. */
  function ResultHeadFields(r: PodcastResult): map<string, Json>
  {
    map[
      "id" := JStr(r.id),
      "job_id" := JStr(r.jobId),
      "agent_name" := JStr(r.agentName),
      "agent_type" := JStr(AgentTypeValue(r.agentType)),
      "status" := JStr(StatusValue(r.status))
    ]
  }

  /** The stage outputs of a result, as they appear in its dict. */
  function ResultOutputFields(r: PodcastResult): map<string, Json>
  {
    map[
      "script" := r.script,
      "audio_path" := r.audioPath,
      "audio_duration" := r.audioDuration,
      "news_used" := r.newsUsed,
      "memory_recalled" := JStr(r.memoryRecalled)
    ]
  }

  /** The error and timing attributes of a result, as they appear in its dict. */
  function ResultTailFields(r: PodcastResult): map<string, Json>
  {
    map[
      "error_message" := OptStr(r.errorMessage),
      "created_at" := JStr(r.createdAt),
      "completed_at" := JStr(r.completedAt),
      "execution_time_seconds" := OptNum(r.executionTimeSeconds)
    ]
  }

  /**
   * The dict form of a result: its attributes by name, with the enums as
   * their values and the timestamps as ISO strings.
   */
  function ResultToJson(r: PodcastResult): (j: Json)
    ensures j.JObject? && |j.fields| > 0
  {
    var m := ResultHeadFields(r) + ResultOutputFields(r) + ResultTailFields(r);
    assert "id" in ResultHeadFields(r);
    JObject(m)
  }

  function ReadOptStr(j: Json): Option<Option<string>>
  {
    match j
    case JNull => Some(None)
    case JStr(s) => Some(Some(s))
    case _ => None
  }

  function ReadOptNum(j: Json): Option<Option<real>>
  {
    match j
    case JNull => Some(None)
    case JNum(n) => Some(Some(n))
    case _ => None
  }

  /** Reads a field that may be absent, as JSON null. */
  function Field(m: map<string, Json>, key: string): Json
  {
    if key in m then m[key] else JNull
  }

  /** Reads a result back from its dict form, as a reader of the cache would. */
  function ResultFromJson(j: Json): Option<PodcastResult>
  {
    if !j.JObject? then None
    else
      var m := j.fields;
      var id := GetStr(m, "id");
      var jobId := GetStr(m, "job_id");
      var name := GetStr(m, "agent_name");
      var agentType := GetStr(m, "agent_type");
      var status := GetStr(m, "status");
      var memory := GetStr(m, "memory_recalled");
      var created := GetStr(m, "created_at");
      var completed := GetStr(m, "completed_at");
      var err := ReadOptStr(Field(m, "error_message"));
      var exec := ReadOptNum(Field(m, "execution_time_seconds"));
      if id.None? || jobId.None? || name.None? || agentType.None? || status.None?
         || memory.None? || created.None? || completed.None? || err.None? || exec.None?
         || "script" !in m || "audio_path" !in m || "audio_duration" !in m || "news_used" !in m
      then None
      else
        var a := ParseAgentType(agentType.value);
        var st := ParseStatus(status.value);
        if a.None? || st.None? then None
        else Some(PodcastResult(
          id.value, jobId.value, name.value, a.value, st.value,
          m["script"], m["audio_path"], m["audio_duration"], m["news_used"],
          memory.value, err.value, created.value, completed.value, exec.value))
  }

  /** A key of a merged dict takes its value from the last part that holds it. */
  lemma MergedAt(h: map<string, Json>, o: map<string, Json>, t: map<string, Json>, k: string)
    ensures k in t ==> k in h + o + t && (h + o + t)[k] == t[k]
    ensures k !in t && k in o ==> k in h + o + t && (h + o + t)[k] == o[k]
    ensures k !in t && k !in o && k in h ==> k in h + o + t && (h + o + t)[k] == h[k]
  {
  }

  // The three parts of the dict use disjoint attribute names, so no part
  // shadows another; each lookup is checked in a lemma of its own to keep the
  // string comparisons small.

  lemma HeadKeysApart(r: PodcastResult)
    ensures var o, t := ResultOutputFields(r), ResultTailFields(r);
      && "id" !in o && "job_id" !in o && "agent_name" !in o && "agent_type" !in o && "status" !in o
      && "id" !in t && "job_id" !in t && "agent_name" !in t && "agent_type" !in t && "status" !in t
  {
  }

  lemma OutputKeysApart(r: PodcastResult)
    ensures var t := ResultTailFields(r);
      && "script" !in t && "audio_path" !in t && "audio_duration" !in t
      && "news_used" !in t && "memory_recalled" !in t
  {
  }

  lemma HeadEntries(r: PodcastResult)
    ensures var h := ResultHeadFields(r);
      && "id" in h && h["id"] == JStr(r.id)
      && "job_id" in h && h["job_id"] == JStr(r.jobId)
      && "agent_name" in h && h["agent_name"] == JStr(r.agentName)
      && "agent_type" in h && h["agent_type"] == JStr(AgentTypeValue(r.agentType))
      && "status" in h && h["status"] == JStr(StatusValue(r.status))
  {
  }

  lemma OutputEntries(r: PodcastResult)
    ensures var o := ResultOutputFields(r);
      && "script" in o && o["script"] == r.script
      && "audio_path" in o && o["audio_path"] == r.audioPath
      && "audio_duration" in o && o["audio_duration"] == r.audioDuration
      && "news_used" in o && o["news_used"] == r.newsUsed
      && "memory_recalled" in o && o["memory_recalled"] == JStr(r.memoryRecalled)
  {
  }

  lemma TailEntries(r: PodcastResult)
    ensures var t := ResultTailFields(r);
      && "error_message" in t && t["error_message"] == OptStr(r.errorMessage)
      && "created_at" in t && t["created_at"] == JStr(r.createdAt)
      && "completed_at" in t && t["completed_at"] == JStr(r.completedAt)
      && "execution_time_seconds" in t && t["execution_time_seconds"] == OptNum(r.executionTimeSeconds)
  {
  }

  /** The dict form holds each identifying field under its Python attribute name. */
  lemma ResultFields(r: PodcastResult)
    ensures var m := ResultToJson(r).fields;
      && GetStr(m, "id") == Some(r.id)
      && GetStr(m, "job_id") == Some(r.jobId)
      && GetStr(m, "agent_name") == Some(r.agentName)
      && GetStr(m, "agent_type") == Some(AgentTypeValue(r.agentType))
      && GetStr(m, "status") == Some(StatusValue(r.status))
  {
    var h, o, t := ResultHeadFields(r), ResultOutputFields(r), ResultTailFields(r);
    HeadKeysApart(r);
    HeadEntries(r);
    MergedAt(h, o, t, "id");
    MergedAt(h, o, t, "job_id");
    MergedAt(h, o, t, "agent_name");
    MergedAt(h, o, t, "agent_type");
    MergedAt(h, o, t, "status");
  }

  /** The dict form holds the timestamps and the recalled memory as strings. */
  lemma ResultStampFields(r: PodcastResult)
    ensures var m := ResultToJson(r).fields;
      && GetStr(m, "memory_recalled") == Some(r.memoryRecalled)
      && GetStr(m, "created_at") == Some(r.createdAt)
      && GetStr(m, "completed_at") == Some(r.completedAt)
  {
    var h, o, t := ResultHeadFields(r), ResultOutputFields(r), ResultTailFields(r);
    OutputKeysApart(r);
    OutputEntries(r);
    TailEntries(r);
    MergedAt(h, o, t, "memory_recalled");
    MergedAt(h, o, t, "created_at");
    MergedAt(h, o, t, "completed_at");
  }

  /** The stage outputs sit unchanged in the dict; absent options become `null`. */
  lemma ResultPassThroughFields(r: PodcastResult)
    ensures var m := ResultToJson(r).fields;
      && "script" in m && m["script"] == r.script
      && "audio_path" in m && m["audio_path"] == r.audioPath
      && "audio_duration" in m && m["audio_duration"] == r.audioDuration
      && "news_used" in m && m["news_used"] == r.newsUsed
      && Field(m, "error_message") == OptStr(r.errorMessage)
      && Field(m, "execution_time_seconds") == OptNum(r.executionTimeSeconds)
  {
    var h, o, t := ResultHeadFields(r), ResultOutputFields(r), ResultTailFields(r);
    OutputKeysApart(r);
    OutputEntries(r);
    TailEntries(r);
    MergedAt(h, o, t, "script");
    MergedAt(h, o, t, "audio_path");
    MergedAt(h, o, t, "audio_duration");
    MergedAt(h, o, t, "news_used");
    MergedAt(h, o, t, "error_message");
    MergedAt(h, o, t, "execution_time_seconds");
  }

  /** Any dict holding the fields of `r` reads back as `r`. */
  lemma ReadResultFields(m: map<string, Json>, r: PodcastResult)
    requires GetStr(m, "id") == Some(r.id) && GetStr(m, "job_id") == Some(r.jobId)
    requires GetStr(m, "agent_name") == Some(r.agentName)
    requires GetStr(m, "agent_type") == Some(AgentTypeValue(r.agentType))
    requires GetStr(m, "status") == Some(StatusValue(r.status))
    requires GetStr(m, "memory_recalled") == Some(r.memoryRecalled)
    requires GetStr(m, "created_at") == Some(r.createdAt)
    requires GetStr(m, "completed_at") == Some(r.completedAt)
    requires "script" in m && m["script"] == r.script
    requires "audio_path" in m && m["audio_path"] == r.audioPath
    requires "audio_duration" in m && m["audio_duration"] == r.audioDuration
    requires "news_used" in m && m["news_used"] == r.newsUsed
    requires Field(m, "error_message") == OptStr(r.errorMessage)
    requires Field(m, "execution_time_seconds") == OptNum(r.executionTimeSeconds)
    ensures ResultFromJson(JObject(m)) == Some(r)
  {
    AgentTypeRoundTrip(r.agentType);
    StatusRoundTrip(r.status);
    match r.errorMessage { case None => case Some(_) => }
    match r.executionTimeSeconds { case None => case Some(_) => }
  }

  /** A result written as JSON and read back reproduces every field. */
  lemma ResultJsonRoundTrip(r: PodcastResult)
    ensures ResultFromJson(ResultToJson(r)) == Some(r)
  {
    ResultFields(r);
    ResultStampFields(r);
    ResultPassThroughFields(r);
    ReadResultFields(ResultToJson(r).fields, r);
  }
}
