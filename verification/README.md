# J.A.R.V.I.S podcast pipeline — a Dafny model

J.A.R.V.I.S generates a daily technology podcast with a set of small HTTP
services:

- The **orchestrator** accepts a podcast request and returns a job id at once.
- It then runs a five-stage pipeline in the background:
  1. fetch news;
  2. recall memories;
  3. generate a script;
  4. synthesise audio;
  5. save the result.
- It keeps every job's status in an in-memory job store. It serves status and result lookups, checking a Redis cache before the store.
- The **news service** normalises and caches fetched news.
- The **script service** builds the LLM prompt, calls the LLM and caches the script with its word count and estimated duration.
- Shared utilities provide the Redis cache manager, an HTTP client that turns every failure into `None`, and a retry helper with exponential backoff.
- Two text clean-ups prepare a script for speech: `format_for_speech` (with its SSML wrapper) and `adapt_text_for_speech`.

This project models all of that as pure Dafny functions and a few methods, and proves what each operation promises.

| file | module | models |
|---|---|---|
| `common.dfy` | `Common` | `Option`/`Result`, Python's whitespace and word-character classes, `str.split`-style runs, `rstrip`/`strip`, integer formatting |
| `json.dfy` | `Json` | decoded JSON values, Python truthiness, `dict.get` with a default |
| `models.dfy` | `Models` | `AgentType`, `JobStatus`, `PodcastRequest`, `PodcastResult` and the result's dict form |
| `cache.dfy` | `CacheManager` | `CacheManager`: get/set/delete and the `clear_pattern` scan loop, with Redis glob matching |
| `service_client.dfy` | `ServiceClient` | `ServiceClient.get`/`post`: every failure collapses to `None` |
| `retry.dfy` | `Retry` | `retry_async`/`retry_sync` |
| `orchestrator.dfy` | `Orchestrator` | the job store, the three endpoints, the pipeline and its stage rules |
| `orchestrator_props.dfy` | `OrchestratorProps` | lifecycle invariants, abort rules, the result cache and the end-to-end scenarios |
| `news_service.dfy` | `NewsService` | `fetch_news`, `get_sources`, `clear_cache` |
| `script_service.dfy` | `ScriptService` | the date line, the news block, the prompt, `generate_script` |
| `text_formatter.dfy` | `TextFormatter` | `format_for_speech` step by step, and `format_with_ssml` |
| `speech_adapter.dfy` | `SpeechAdapter` | `adapt_text_for_speech` step by step |

Everything the source gets from outside is a parameter of the model:

- **Downstream services:** each reply is an `Option<Json>`, where `None` means the client returned `None`.
- **Cache backend:** a map plus a flag saying whether the call raised. A `clear_pattern` scan is a list of replies.
- **Clock:** the timestamps the pipeline reads.
- **News fetcher:** `Unavailable`, `Fetched(items)` or `FetchFailed(message)`.
- **Operation under retry:** a function from the attempt number to the attempt's outcome.

Each `re.sub` is modelled as a recursive scan of the string. Like the regex engine, it emits the replacement where the pattern matches and resumes after the match. Elsewhere it copies one character and moves on.

Behaviours of the code worth knowing before reading the contracts:

- **Script and TTS stages.** A stage aborts only on a missing or falsy reply (services/orchestrator/main.py:188-191 and 206-210). A reply without `script` or `audio_path` gives `""`, and the run completes (`OrchestratorProps.MissingFieldsDefault`).
- **Error texts.** The stage error texts are the code's Portuguese messages, such as "Falha ao buscar notícias" (services/orchestrator/main.py:151).
- **Result caching.** The `# Cachear resultado` comment (services/orchestrator/main.py:228) and the cache-first lookup of the result endpoint (services/orchestrator/main.py:104-108) show that a completed result is meant to be cached under `podcast_result:<job id>`. As written, the write always fails; see "## Findings".

## Model

| member | source | states |
|---|---|---|
| Common.RStrip | jarvis-voice/text_formatter.py:56 | `rstrip()` yields a prefix of its input, the part removed is all whitespace, and the result does not end in whitespace |
| Common.Strip | tools/speech_adapter.py:17 | `strip()` yields the slice that starts after the leading whitespace; what follows it is all whitespace, and the result neither starts nor ends with whitespace |
| Common.IntToStringRoundTrip | services/news-service/main.py:76 | the decimal rendering of `limit` in the cache key parses back to the same integer |
| Common.IntToStringInjective | services/news-service/main.py:76 | two limits with the same rendering are the same limit |
| Json.GetOr | services/orchestrator/main.py:153 | `reply.get(key, default)` succeeds exactly on a dict and yields the stored value or the default; on any other value it is the error Python raises |
| CacheManager.Connect | shared/utils.py:31-38 | the cache is enabled exactly when the startup ping succeeded |
| CacheManager.Get | shared/utils.py:40-51 | a value only when enabled, with no backend fault, and the key present; a disabled cache or a fault reads as a miss |
| CacheManager.Set | shared/utils.py:53-66 | returns true exactly when enabled and the backend accepts the write, and only then stores the value; otherwise the cache is unchanged |
| CacheManager.Delete | shared/utils.py:68-77 | returns true exactly when enabled and fault-free, and only then removes the key |
| CacheManager.SetThenGet | shared/utils.py:40-66 | a successful write reads back as the value written |
| CacheManager.SetKeepsOtherKeys | shared/utils.py:53-66 | a write leaves every other key's reading unchanged |
| CacheManager.DeleteThenGet | shared/utils.py:68-77 | after a successful delete the key reads as a miss |
| CacheManager.RunScan | shared/utils.py:84-93 | the loop deletes exactly the keys of the batches it processes before the cursor returns to 0 or a call raises |
| CacheManager.ClearPattern | shared/utils.py:79-96 | disabled: returns 0 and changes nothing; enabled: deletes the scanned keys and counts them, or returns 0 after a mid-scan fault while keeping the deletions already made |
| CacheManager.StarMatchesAll | shared/utils.py:87 | the glob `*` matches every key |
| CacheManager.PrefixGlob | shared/utils.py:87 | `prefix*` matches exactly the keys that start with `prefix` |
| CacheManager.ClearPatternEffect | shared/utils.py:79-96 | if the scan returns every matching key, none is left; if it returns only matching keys, no other key is touched |
| ServiceClient.Call | shared/utils.py:128-146 | a reply exactly when the transport answered with a 2xx status and a decodable body, and then it is that body |
| ServiceClient.FailuresCollapse | shared/utils.py:122-126 | a transport error, a non-2xx status and an undecodable body are the same `None` to the caller |
| Retry.Waits | shared/utils.py:166 | the wait after failed attempt k is `delay * backoff^k` |
| Retry.FirstSuccess | shared/utils.py:159-161 | the first attempt below the limit that succeeds, all earlier ones having raised, or none when every attempt raised |
| Retry.Run | shared/utils.py:150-173 | no call when `max_retries <= 0`; otherwise it stops at the first success and returns its value, or after `max_retries` failures re-raises the last error; it sleeps the backoff waits between calls |
| Retry.FirstSuccessAt | shared/utils.py:159-164 | an attempt that succeeds after only failures is the one whose value is returned |
| Retry.FirstSuccessNone | shared/utils.py:159-164 | when every allowed attempt raises, no value is returned |
| Retry.FailTwiceThenSucceed | shared/utils.py:150-173 | two failures, then 42: it returns 42 after waiting `delay` and `delay * backoff` |
| Models.ParseAgentType | shared/models.py:18-24 | only an agent type's value names it |
| Models.AgentTypeRoundTrip | shared/models.py:18-24 | every agent type is read back from its value |
| Models.ParseStatus | shared/models.py:27-33 | only a status's value names it |
| Models.StatusRoundTrip | shared/models.py:27-33 | every job status is read back from its value |
| Models.DefaultRequest | shared/models.py:58-69 | the request defaults: `podcast_daily`, `jarvis`, empty user, 8 news items, `pt-BR`, FranciscaNeural voice, no metadata |
| Models.ResultToJson | shared/models.py:72-88 | the result's dict form with ISO timestamp strings, which is what the result endpoint serves, is a non-empty dict; `result.__dict__` itself, holding `datetime` values, is `Orchestrator.ResultDict` |
| Models.ResultFields | shared/models.py:75-79 | the identity fields sit under their attribute names, with the enums as their values |
| Models.ResultStampFields | shared/models.py:80-88 | the memory and both timestamps sit under their attribute names |
| Models.ResultPassThroughFields | shared/models.py:80-88 | the stage outputs sit unchanged under their attribute names; absent options are `null` |
| Models.ResultJsonRoundTrip | shared/models.py:72-88 | reading the dict form back gives the same result, field for field |
| Orchestrator.Submit | services/orchestrator/main.py:56-85 | replies with the request's id and "pending", registers a pending record under that id (replacing any old one) and leaves every other record as it was |
| Orchestrator.GetStatus | services/orchestrator/main.py:92-98 | the stored record, or NotFound exactly for an unknown id |
| Orchestrator.GetResult | services/orchestrator/main.py:101-120 | a truthy cache entry first; otherwise NotFound exactly for an unknown id, NotReady with the status before completion, and the stored result after it |
| Orchestrator.NewsList | services/orchestrator/main.py:150-154 | a missing or falsy reply aborts with the news error; a surviving list supports `len` |
| Orchestrator.MemoryContext | services/orchestrator/main.py:167-173 | a missing or falsy recall gives the empty context and never aborts |
| Orchestrator.ScriptText | services/orchestrator/main.py:188-191 | a missing or falsy reply aborts with the script error |
| Orchestrator.AudioOf | services/orchestrator/main.py:206-211 | a missing or falsy reply aborts with the audio error |
| Orchestrator.RunStages | services/orchestrator/main.py:140-211 | one to four calls; a run that reaches the result has made all four |
| Orchestrator.RunPipeline | services/orchestrator/main.py:124-255 | only the job's own record changes, and it keeps its request and creation time |
| Orchestrator.RunPipelineAsWritten | services/orchestrator/main.py:228-233 | the write failure changes nothing but the cache: the store and the calls issued are the same as for the corrected run |
| OrchestratorProps.SubmitThenStatus | services/orchestrator/main.py:68-72 | a submitted job reads back as the pending record of its request |
| OrchestratorProps.ResubmitForgetsResult | services/orchestrator/main.py:68-72 | resubmitting an id replaces the record, so the store stops serving the old result |
| OrchestratorProps.SubmitPreservesValid | services/orchestrator/main.py:68-72 | submission keeps every record consistent with its lifecycle position |
| OrchestratorProps.UnknownJob | services/orchestrator/main.py:95-111 | an id never submitted is NotFound for both lookups, unless the cache holds a result for it |
| OrchestratorProps.CachedResultServedFirst | services/orchestrator/main.py:104-108 | a truthy cache entry is served even for a pending or failed job |
| OrchestratorProps.StatusTransitions | services/orchestrator/main.py:138-256 | a run writes "running" and then one final status, "completed" exactly when every stage succeeded |
| OrchestratorProps.PipelinePreservesValid | services/orchestrator/main.py:124-255 | a run from a valid store with a pending job leaves a valid store |
| OrchestratorProps.AbortEffects | services/orchestrator/main.py:252-255 | any abort marks the job failed with the error text, keeps its result field, leaves the cache alone and never issues the memory store |
| OrchestratorProps.NewsFailureStops | services/orchestrator/main.py:150-151 | no news: one call, failed with "Falha ao buscar notícias" |
| OrchestratorProps.ScriptFailureStops | services/orchestrator/main.py:188-189 | no script: three calls, failed with "Falha ao gerar roteiro", TTS never asked |
| OrchestratorProps.TtsFailureStops | services/orchestrator/main.py:206-207 | no audio: four calls, failed with "Falha ao gerar áudio" |
| OrchestratorProps.RecallRequest | services/orchestrator/main.py:158-165 | the recall asks for `podcast <agent type>`, 3 items, for the request's user |
| OrchestratorProps.MissingMemoryIsHarmless | services/orchestrator/main.py:167-173 | a missing recall changes nothing but the empty memory in the result |
| OrchestratorProps.RecalledMemoriesJoined | services/orchestrator/main.py:168-170 | the memory context is the space-join of the memories' `content` fields, each defaulting to "" |
| OrchestratorProps.ContentsOfDicts | services/orchestrator/main.py:170 | on a list of dicts with string contents the comprehension yields each content in order |
| OrchestratorProps.CompletedResult | services/orchestrator/main.py:209-233 | a completed run's result carries the news list, the memory, the script, the audio path and the duration from the replies, with their defaults |
| OrchestratorProps.MissingFieldsDefault | services/orchestrator/main.py:153-210 | replies lacking their fields complete with `[]`, `""`, `""` and `0.0` |
| OrchestratorProps.StoreReplyCannotFlip | services/orchestrator/main.py:238-250 | the reply to the final memory store changes nothing the run leaves behind |
| OrchestratorProps.CompletedResultServed | services/orchestrator/main.py:101-120 | after a completed run the result endpoint serves the assembled result, from the cache or from the store |
| OrchestratorProps.FailedRunHasNoResult | services/orchestrator/main.py:114-118 | after a failed run the result endpoint answers NotReady(failed) |
| OrchestratorProps.ResultDictNotDumpable | services/orchestrator/main.py:229 | every result dict holds a `datetime`, so `json.dumps` raises on it |
| OrchestratorProps.IsoResultDictDumps | services/orchestrator/main.py:229 | with the timestamps as strings the dict dumps to the result's JSON form |
| OrchestratorProps.ResultNeverCachedAsWritten | services/orchestrator/main.py:228-229 | as written, no run changes the cache |
| OrchestratorProps.CompletedResultCached | services/orchestrator/main.py:228-229 | corrected: a completed run on a working cache leaves its result readable under `podcast_result:<job id>` |
| OrchestratorProps.ScenarioCompletes | services/orchestrator/main.py:124-250 | three news items, no memories, a script and 230.5 s of audio complete the job with three news items used, duration 230.5 and no memory recalled |
| OrchestratorProps.ScenarioScriptDown | services/orchestrator/main.py:188-189 | the same request with the script service down fails and never serves a result |
| NewsService.DefaultNewsRequest | services/news-service/main.py:37-42 | defaults: `pt-BR`, 8 items, no categories, cache allowed |
| NewsService.Normalise | services/news-service/main.py:97-107 | each field comes from the raw item, defaulting to "", and the language is the request's |
| NewsService.NormaliseAll | services/news-service/main.py:97-107 | one dict per raw item, in order |
| NewsService.FetchNews | services/news-service/main.py:67-124 | a non-empty cached list is served as cached; otherwise the fetched items are normalised, cached and served uncached; a fetcher error is an HTTP 500 with its message |
| NewsService.CacheKeyInjective | services/news-service/main.py:76 | different languages or limits give different cache keys |
| NewsService.FreshFetchShape | services/news-service/main.py:97-120 | a fresh fetch keeps the items' order and count, and every item is in the request's language |
| NewsService.SourceCountBound | services/news-service/main.py:118 | the source count never exceeds the number of items |
| NewsService.NoFetcherEmpty | services/news-service/main.py:90-94 | with no fetcher, a miss answers an empty uncached list |
| NewsService.CacheHitServesCached | services/news-service/main.py:77-87 | a hit answers the cached list with `cached` set and source count 0; it does not consult the fetcher and leaves the cache unchanged |
| NewsService.SkipCacheRefreshes | services/news-service/main.py:77-112 | `skip_cache` never serves the cache but still refreshes it |
| NewsService.FetchThenCached | services/news-service/main.py:76-112 | a fetch followed by the same request serves the fetched list from the cache |
| NewsService.FetchFailureReported | services/news-service/main.py:122-124 | a raising fetcher is an HTTP 500 with its message, and the cache is unchanged |
| NewsService.SourceCatalogue | services/news-service/main.py:127-139 | seven sources, two Portuguese and five English, and a total of 7 |
| NewsService.FetchKeysAreCleared | services/news-service/main.py:143-147 | every key the fetch endpoint writes (`news:<language>:<limit>`, line 76) matches `news:*` |
| NewsService.ClearCache | services/news-service/main.py:142-147 | removes the scanned `news:*` keys and reports how many, or 0 when disabled or after a fault |
| ScriptService.WeekdayNames | services/script-service/main.py:77-89 | seven names, Portuguese for `pt-BR` and English otherwise |
| ScriptService.Pad2 | services/script-service/main.py:83-91 | `%d` and `%m` are two digits, zero-padded |
| ScriptService.CurrentDateInfo | services/script-service/main.py:64-92 | the weekday name and `dd/mm/yyyy` for `pt-BR`, `mm/dd/yyyy` otherwise |
| ScriptService.DateInfoRoundTrip | services/script-service/main.py:64-92 | the day name and date string determine the date: nothing is lost or swapped |
| ScriptService.ListingSplit | services/script-service/main.py:101-108 | the k-th block of the listing is the numbered block of the k-th item |
| ScriptService.GetRendering | services/script-service/main.py:102-108 | a field prints as `str()` of `news.get(key, "")`: nothing when missing, a string as itself, `None`, `True` and `False` by name |
| ScriptService.NullTitleRendering | services/script-service/main.py:102-108 | an item with a null title and a boolean source prints `None` and `True`, and its missing summary prints nothing |
| ScriptService.FormatNewsForPrompt | services/script-service/main.py:95-110 | an empty list gives "Nenhuma notícia disponível."; otherwise the header, then one numbered block per item, in order, holding the `str()` of its title, summary and source |
| ScriptService.MemorySectionPresence | services/script-service/main.py:136-138 | the memory section is present exactly when the memory context is non-empty |
| ScriptService.PromptCarriesMemory | services/script-service/main.py:136-163 | two prompts that differ only in the memory context are equal exactly when the contexts are |
| ScriptService.WordsCoverText | services/script-service/main.py:185 | `split()` yields genuine words that, laid end to end, are the visible text |
| ScriptService.WordsOfJoin | services/script-service/main.py:185 | splitting words joined by single spaces gives the words back |
| ScriptService.ScriptOf | services/script-service/main.py:176-182 | the script of a reply, or "LLM Service indisponível" on a missing reply, or "LLM não retornou um script válido" on an empty one |
| ScriptService.ScriptErrors | services/script-service/main.py:179-182 | a non-empty `text` is the script; a missing or empty one is the no-script error |
| ScriptService.GenerateScript | services/script-service/main.py:114-206 | a truthy cache entry is served without calling the LLM; otherwise the prompt is built from the request, and a missing reply is LLM-unavailable; a script gives its word count, the 130-words-a-minute estimate and a cached result; on an error the cache is unchanged |
| ScriptService.GenerateThenCached | services/script-service/main.py:122-202 | a generated script is served from the cache on the next identical request |
| TextFormatter.StripRuns | jarvis-voice/text_formatter.py:10-11 | deletes whole runs: the output only keeps characters of the input |
| TextFormatter.StripUrlsSpec | jarvis-voice/text_formatter.py:10-11 | after step 1 no `http://`, `https://` or `www.` begins a longer run of non-whitespace; a text without one is unchanged |
| TextFormatter.CollapseRepeatsNoTriples | jarvis-voice/text_formatter.py:17 | after step 3 no `!`, `?` or `.` appears three times in a row |
| TextFormatter.CollapseRepeatsKeeps | jarvis-voice/text_formatter.py:17 | runs of one or two are kept: a text without three in a row is unchanged |
| TextFormatter.SpaceAfterPunctSpaced | jarvis-voice/text_formatter.py:20 | after step 4 every `. ! ? , ; :` is followed by exactly one space and then visible text or the end |
| TextFormatter.SpaceAfterPunctVisible | jarvis-voice/text_formatter.py:20 | step 4 only changes whitespace: the visible text is unchanged |
| TextFormatter.CollapseRunsSpec | jarvis-voice/text_formatter.py:23-50 | after steps 5 and 10 no two copies of the character are adjacent; a text without such a pair is unchanged |
| TextFormatter.StripEmphasisCounts | jarvis-voice/text_formatter.py:26 | step 6 removes every `*`, `_`, backtick and `~` and keeps every other character with its count |
| TextFormatter.StripAsidesSpec | jarvis-voice/text_formatter.py:29 | after step 7 no `(` is followed by 100 or more non-`)` characters and a `)`; a text without one is unchanged |
| TextFormatter.CollapseSpacesSingle | jarvis-voice/text_formatter.py:32 | after step 8 the only whitespace is single spaces |
| TextFormatter.CollapseSpacesVisible | jarvis-voice/text_formatter.py:32 | step 8 leaves the visible text unchanged |
| TextFormatter.ReplaceAbbreviationKeeps | jarvis-voice/text_formatter.py:46-47 | a text in which the entry's pattern never matches is unchanged |
| TextFormatter.ExpandAbbreviationsSingle | jarvis-voice/text_formatter.py:35-47 | step 9 keeps a single-spaced text single spaced |
| TextFormatter.DoctorExample | jarvis-voice/text_formatter.py:36 | `Dr. ` followed by a name becomes `Doutor ` followed by the same name |
| TextFormatter.CodeWordExample | jarvis-voice/text_formatter.py:42-47 | matching ignores case: `cpf` becomes `CPF` |
| TextFormatter.InsideWordExample | jarvis-voice/text_formatter.py:36 | the leading `\b` keeps `ADr. x` unchanged |
| TextFormatter.BreaksToPauses | jarvis-voice/text_formatter.py:53 | after step 11 no line break is left; every character is from the input or is `.` or a space |
| TextFormatter.BreaksToPausesLength | jarvis-voice/text_formatter.py:53 | each line break adds exactly one character |
| TextFormatter.BreaksToPausesKeeps | jarvis-voice/text_formatter.py:53 | a text without a line break is unchanged |
| TextFormatter.TidySpeakable | jarvis-voice/text_formatter.py:10-32 | after steps 1 to 8 the whitespace is single spaces and no emphasis mark is left |
| TextFormatter.FinishSpec | jarvis-voice/text_formatter.py:32-56 | steps 10 and 11 change nothing, because step 8 has already removed every line break |
| TextFormatter.FormatForSpeechSpec | jarvis-voice/text_formatter.py:3-58 | the output has no emphasis mark and no line break, its whitespace is single spaces, nothing trails, and neither URL pattern matches anywhere in it; FormatForSpeechKeepsSettled ties the output to the input |
| TextFormatter.CollapseDashesMarks | jarvis-voice/text_formatter.py:23 | step 5 keeps every `.` and `:` followed by whitespace |
| TextFormatter.StripEmphasisMarks | jarvis-voice/text_formatter.py:26 | step 6 keeps every `.` and `:` followed by whitespace |
| TextFormatter.StripAsidesMarks | jarvis-voice/text_formatter.py:29 | step 7 keeps every `.` and `:` followed by whitespace |
| TextFormatter.CollapseSpacesMarks | jarvis-voice/text_formatter.py:32 | step 8 keeps every `.` and `:` followed by whitespace |
| TextFormatter.TidyMarks | jarvis-voice/text_formatter.py:20-32 | step 4 puts whitespace after every `.` and `:`, and it is still there after step 8 |
| TextFormatter.ReplaceAbbreviationMarks | jarvis-voice/text_formatter.py:46-47 | an entry whose pattern starts with a letter and whose replacement has neither `.` nor `:` keeps every `.` and `:` followed by whitespace |
| TextFormatter.ExpandAbbreviationsMarks | jarvis-voice/text_formatter.py:35-47 | step 9 keeps every `.` and `:` followed by whitespace |
| TextFormatter.MarksSpacedClean | jarvis-voice/text_formatter.py:10-11 | where every `.` and `:` is followed by whitespace, neither `https?://[^\s]+` nor `www\.[^\s]+` matches anywhere |
| TextFormatter.FormatForSpeechNoUrl | jarvis-voice/text_formatter.py:3-58 | no URL pattern of step 1 matches anywhere in the output: steps 10 to 12 add no `.` or `:` without a space after it |
| TextFormatter.SpaceAfterPunctAtSpacedMark | jarvis-voice/text_formatter.py:20 | a mark already followed by one space and visible text stays as it is, and step 4 goes on after that space |
| TextFormatter.SpaceAfterPunctAtOther | jarvis-voice/text_formatter.py:20 | a character that is not a mark is copied by step 4 |
| TextFormatter.SpaceAfterPunctKeeps | jarvis-voice/text_formatter.py:20 | where every mark but a final one is already followed by one space and visible text, step 4 only adds a space after a final mark |
| TextFormatter.StripEmphasisKeeps | jarvis-voice/text_formatter.py:26 | a text without `*`, `_`, backtick or `~` is unchanged by step 6 |
| TextFormatter.CollapseSpacesKeeps | jarvis-voice/text_formatter.py:32 | a text whose only whitespace is single spaces is unchanged by step 8 |
| TextFormatter.NoLongAsideSpace | jarvis-voice/text_formatter.py:29 | a space after a text with no long aside creates none: the aside pattern needs a closing `)` |
| TextFormatter.PaddedKeeps | jarvis-voice/text_formatter.py:20-32 | the space step 4 adds after a final mark brings no `--`, no long aside and no emphasis mark, and the whitespace stays single spaces |
| TextFormatter.ReplaceAllKeeps | jarvis-voice/text_formatter.py:46-47 | a text in which no entry of the table matches is unchanged by the replacements of step 9 |
| TextFormatter.RStripPadded | jarvis-voice/text_formatter.py:56 | the final `rstrip()` removes exactly the space step 4 added after a final mark |
| TextFormatter.TidyKeepsSettled | jarvis-voice/text_formatter.py:10-32 | on a settled text, steps 1 to 8 only add a space after a final mark |
| TextFormatter.NoAbbreviationWithout | jarvis-voice/text_formatter.py:46-47 | an entry whose first letter never occurs, in either case, matches nowhere |
| TextFormatter.NoAbbreviationsWithout | jarvis-voice/text_formatter.py:35-47 | a text without `d`, `s`, `p` or `c` in either case, and without the long s, matches no entry of the table |
| TextFormatter.FormatForSpeechKeepsSettled | jarvis-voice/text_formatter.py:3-58 | the formatter changes nothing in a text that is already settled: no URL, no run of three marks, each mark followed by one space and visible text, no `--`, no emphasis mark, no long aside, single spaces, nothing trailing, no abbreviation |
| TextFormatter.GreetingSettled | jarvis-voice/text_formatter.py:3-58 | `Boa noite, Tony.` is spoken as written |
| TextFormatter.Framed | jarvis-voice/text_formatter.py:61-79 | with fixed markup before and after a body, the body and the outermost tags read back |
| TextFormatter.WrapRoundTrip | jarvis-voice/text_formatter.py:61-79 | any body wrapped in the voice and prosody markup is one `<speak>` element whose body reads back unchanged |
| TextFormatter.SsmlBodyRoundTrip | jarvis-voice/text_formatter.py:61-79 | the SSML is one `<speak>` element whose body between the fixed voice and prosody markup is exactly the formatted text |
| SpeechAdapter.StripMarks | tools/speech_adapter.py:5 | the output has no `*` and only characters of the input |
| SpeechAdapter.StripMarksKeeps | tools/speech_adapter.py:5 | a text with neither `*` nor `---` is unchanged |
| SpeechAdapter.StripMarksNotIdempotent | tools/speech_adapter.py:5 | one pass is not idempotent: `-*--` becomes `---`, which a second pass would delete |
| SpeechAdapter.StripDirectionsSpec | tools/speech_adapter.py:8 | afterwards no `(` has a `)` after it on the same line; a text without one is unchanged |
| SpeechAdapter.StripLabelsKeeps | tools/speech_adapter.py:11 | a text with no `Name:` at a line start is unchanged |
| SpeechAdapter.StripLabelsMidLine | tools/speech_adapter.py:11 | labels are looked for only at line starts: within a line nothing is removed |
| SpeechAdapter.StripLabelsDropsSpeaker | tools/speech_adapter.py:11 | `Name:` and the blanks after it go from the start of a line |
| SpeechAdapter.StripLabelsKeepsNoDirection | tools/speech_adapter.py:11 | step 3 brings no `)` onto the line of an `(`: a label match starts at a line start and takes only letters, `:` and whitespace |
| SpeechAdapter.MarkParagraphs | tools/speech_adapter.py:14 | the length is kept, and a character changes only where a line break becomes `.` |
| SpeechAdapter.MarkParagraphsPair | tools/speech_adapter.py:14 | a paragraph break becomes `.` and a line break |
| SpeechAdapter.MarkParagraphsKeeps | tools/speech_adapter.py:14 | a text without a paragraph break is unchanged |
| SpeechAdapter.MarkParagraphsTriple | tools/speech_adapter.py:14 | pairs do not overlap: three breaks become `.` and two breaks |
| SpeechAdapter.MarkParagraphsKeepsNoDirection | tools/speech_adapter.py:14 | step 4 brings no `)` onto the line of an `(`: the break ending that line stays, or becomes `.` and a break |
| SpeechAdapter.NoDirectionBeforeJoin | tools/speech_adapter.py:5-14 | up to step 4, no `(` has a `)` after it on the same line |
| SpeechAdapter.JoinLines | tools/speech_adapter.py:15 | each line break becomes a space and every other character is kept in place |
| SpeechAdapter.JoinLinesKeeps | tools/speech_adapter.py:15 | a text without a line break is unchanged |
| SpeechAdapter.AdaptTextForSpeechSpec | tools/speech_adapter.py:3-17 | the output has no `*`, no line break and no whitespace at either end; AdaptKeepsPlainScript ties the output to the input |
| SpeechAdapter.StripKeeps | tools/speech_adapter.py:17 | `strip()` keeps a text that neither starts nor ends in whitespace |
| SpeechAdapter.PlainNoDirection | tools/speech_adapter.py:8 | a text without `(` has no stage direction |
| SpeechAdapter.PlainNoLabel | tools/speech_adapter.py:11 | a text without `:` has no speaker label |
| SpeechAdapter.JoinLinesEnds | tools/speech_adapter.py:15 | joining lines keeps a text that neither starts nor ends in whitespace so |
| SpeechAdapter.AdaptKeepsPlainScript | tools/speech_adapter.py:3-17 | a script without marks, `(`, `:`, paragraph breaks or outer whitespace is only joined into one line: each line break becomes a space and all else is kept |
| SpeechAdapter.AdaptKeepsPlainLine | tools/speech_adapter.py:3-17 | such a script on a single line is returned unchanged |

## Left out

- HTTP transport, FastAPI routing and background tasks are not modelled. Each downstream reply is a parameter, and the background pipeline is one function applied to the store.
- The health and debug endpoints and the test-pipeline endpoint are left out. They only report state.
- `preview_script` in the script service is left out. It is a debug endpoint outside the generation path.
- Logging is left out. Redis expiry times are ignored: the cache is a map with no time-to-live.
- The llm, memory and tts services and `shared/config.py` are not part of this model. Only the replies they give matter to the core.
- The `NewsItem` and `ServiceInfo` dataclasses and `ServiceStatus` are left out, because the core never builds them.
- ServiceClient.Call: the request timeout and the URL building are not modelled; the timeout is one of the transport errors.
- CacheManager.Get: JSON decoding of the stored string is not modelled; the cache holds decoded values.
- CacheManager.Glob: only `*` and `?` are modelled; the `[...]` classes and `\` escapes of Redis globs are not, and the core only uses `news:*`.
- Retry.Run: the waits are exact reals; there is no sleeping and no floating-point rounding.
- NewsService.FetchNews: the fetcher's `limit` is passed through and not enforced, as in the source. Non-string values in raw news items are not modelled.
- ScriptService.GenerateScript: the hash-based cache key is a parameter, because Python's string hash is salted per process. The duration estimate is an exact real, with no float rounding.
- ScriptService.FormatNewsForPrompt: `str()` of a number, list or dict in a news item is the parameter `show`, because a `Json` value does not record int versus float or a dict's insertion order. Strings, `None` and booleans are rendered exactly. The items are dicts because the request model declares `List[dict]`; validating the request body is the web framework's job and is not modelled.
- ScriptService.CurrentDateInfo: `%Y` is modelled as four digits, and years below 1000 are not treated specially.
- ScriptService.ScriptOf: the exception texts for a reply that is not a dict are not reproduced; such a reply is a separate `Malformed` error.
- Orchestrator.ErrorText: a reply of the wrong JSON type ends the run with `NotADict`, `NoLength`, `BadMemories` or `BadDuration`. The job's error text for these four is a placeholder. Python's own message names the offending value's type, such as "'list' object has no attribute 'get'", and a `Json` number does not record whether it was an int or a float.
- TextFormatter.ReplaceAbbreviation: for `\b`, characters above U+00FF count as non-word characters. Below that, the word class is exact. Under IGNORECASE only the long s (U+017F) is added to the ASCII case pairs, and that covers every letter in the table.
- SpeechAdapter.StripDirectionsSpec: the property is not claimed for the final text. Step 5 (tools/speech_adapter.py:15) turns every line break into a space. After that, an `(` and a `)` that were on different lines share the one line. The property is proved through step 4 (NoDirectionBeforeJoin).

## Findings

| source | as written | input that shows it | evidently intended | confidence | as-written member | corrected member |
|---|---|---|---|---|---|---|
| services/orchestrator/main.py:229 | `cache.set(..., result.__dict__)`: the dict holds `created_at` and `completed_at` as `datetime` objects, so `json.dumps` raises TypeError, `CacheManager.set` swallows it and returns False | any completed run with the cache enabled | the completed result is cached under `podcast_result:<job id>`, as the comment above the call says | high, not executed | OrchestratorProps.ResultNeverCachedAsWritten | OrchestratorProps.CompletedResultCached |
