/**
 * The script service: the date and news formatting that goes into the LLM
 * prompt, and `POST /api/script/generate` with its cache and error rules.
 *
 * The wall clock is a parameter (`Date`), the LLM service is the reply its
 * client returned, and the cache key, built from Python's per-process
 * randomised `hash()`, is an opaque parameter.
 */
module ScriptService {
  import opened Common
  import opened Json
  import CacheManager

  // =====================================================================
  // Date information
  // =====================================================================

  /** The parts of `datetime.now()` the service reads; `weekday` is 0 on Monday. */
  datatype Date = Date(weekday: nat, day: nat, month: nat, year: nat)

  /** What a `datetime` can hold. */
  predicate ValidDate(d: Date)
  {
    d.weekday < 7 && 1 <= d.day <= 31 && 1 <= d.month <= 12 && 1 <= d.year <= 9999
  }

  const PortugueseWeekdays: seq<string> :=
    ["segunda-feira", "terça-feira", "quarta-feira", "quinta-feira", "sexta-feira", "sábado", "domingo"]

  const EnglishWeekdays: seq<string> :=
    ["Monday", "Tuesday", "Wednesday", "Thursday", "Friday", "Saturday", "Sunday"]

  /** The weekday names used for a language. */
  function WeekdayNames(language: string): (names: seq<string>)
    ensures |names| == 7
    ensures language == "pt-BR" ==> names == PortugueseWeekdays
    ensures language != "pt-BR" ==> names == EnglishWeekdays
  {
    if language == "pt-BR" then PortugueseWeekdays else EnglishWeekdays
  }

  /** `%d`/`%m`: two zero-padded digits. */
  function Pad2(n: nat): (r: string)
    requires n < 100
    ensures |r| == 2 && AllDigits(r)
  {
    [DigitChar(n / 10), DigitChar(n % 10)]
  }

  /** `%Y`: four zero-padded digits. */
  function Pad4(n: nat): (r: string)
    requires n < 10000
    ensures |r| == 4 && AllDigits(r)
  {
    Pad2(n / 100) + Pad2(n % 100)
  }

  datatype DateInfo = DateInfo(dayName: string, date: string)

  /**
   * `get_current_date_info`: Portuguese names and dd/mm/yyyy for "pt-BR",
   * English names and mm/dd/yyyy for every other language.
   */
  function CurrentDateInfo(language: string, now: Date): (r: DateInfo)
    requires ValidDate(now)
    ensures r.dayName in WeekdayNames(language)
    ensures |r.date| == 10 && r.date[2] == '/' && r.date[5] == '/'
  {
    var dd := Pad2(now.day);
    var mm := Pad2(now.month);
    var date := if language == "pt-BR" then dd + "/" + mm + "/" + Pad4(now.year)
                else mm + "/" + dd + "/" + Pad4(now.year);
    DateInfo(WeekdayNames(language)[now.weekday], date)
  }

  /** Value of two decimal digits. */
  function Read2(s: string): nat
    requires |s| == 2 && AllDigits(s)
  {
    DigitValue(s[0]) * 10 + DigitValue(s[1])
  }

  /** Position of `name` in `names`, if present. */
  function IndexOf(names: seq<string>, name: string): (r: Option<nat>)
    ensures r.Some? ==> r.value < |names| && names[r.value] == name
    ensures r.None? ==> name !in names
  {
    if |names| == 0 then None
    else if names[0] == name then Some(0)
    else match IndexOf(names[1..], name)
      case Some(i) => Some(i + 1)
      case None => None
  }

  /** Reads a date back from the day name and date string of a language. */
  function ReadDateInfo(language: string, info: DateInfo): Option<Date>
  {
    if |info.date| != 10 || !AllDigits(info.date[0..2]) || !AllDigits(info.date[3..5]) || !AllDigits(info.date[6..]) then None
    else
      var first, second := Read2(info.date[0..2]), Read2(info.date[3..5]);
      var year := Read2(info.date[6..8]) * 100 + Read2(info.date[8..10]);
      match IndexOf(WeekdayNames(language), info.dayName)
      case None => None
      case Some(w) =>
        if language == "pt-BR" then Some(Date(w, first, second, year))
        else Some(Date(w, second, first, year))
  }

  lemma Read2Pad2(n: nat)
    requires n < 100
    ensures Read2(Pad2(n)) == n
  {
  }

  predicate Distinct(names: seq<string>)
  {
    forall i, j | 0 <= i < j < |names| :: names[i] != names[j]
  }

  /** In a list without repeats, a name is found at its own position. */
  lemma {:induction false} IndexOfDistinct(names: seq<string>, w: nat)
    requires Distinct(names) && w < |names|
    ensures IndexOf(names, names[w]) == Some(w)
    decreases w
  {
    if w > 0 {
      assert names[0] != names[w];
      assert Distinct(names[1..]) by {
        forall i, j | 0 <= i < j < |names[1..]|
          ensures names[1..][i] != names[1..][j]
        {
          assert names[1..][i] == names[i + 1] && names[1..][j] == names[j + 1];
        }
      }
      IndexOfDistinct(names[1..], w - 1);
      assert names[1..][w - 1] == names[w];
    }
  }

  lemma PortugueseDistinct()
    ensures Distinct(PortugueseWeekdays)
  {
  }

  lemma EnglishDistinct()
    ensures Distinct(EnglishWeekdays)
  {
  }

  /** Every weekday name of a language is distinct, so its position is its weekday. */
  lemma WeekdayIndex(language: string, w: nat)
    requires w < 7
    ensures IndexOf(WeekdayNames(language), WeekdayNames(language)[w]) == Some(w)
  {
    if language == "pt-BR" {
      PortugueseDistinct();
    } else {
      EnglishDistinct();
    }
    IndexOfDistinct(WeekdayNames(language), w);
  }

  /** Reading `a/b/y` under a day name: the two numbers, the year and the weekday's position. */
  lemma ReadDateFields(language: string, name: string, a: string, b: string, y: string)
    requires |a| == 2 && |b| == 2 && |y| == 4
    requires AllDigits(a) && AllDigits(b) && AllDigits(y)
    ensures var year := Read2(y[0..2]) * 100 + Read2(y[2..4]);
      ReadDateInfo(language, DateInfo(name, a + "/" + b + "/" + y)) ==
        match IndexOf(WeekdayNames(language), name)
        case None => None
        case Some(w) =>
          if language == "pt-BR" then Some(Date(w, Read2(a), Read2(b), year))
          else Some(Date(w, Read2(b), Read2(a), year))
  {
    var d := a + "/" + b + "/" + y;
    assert d[0..2] == a && d[3..5] == b && d[6..] == y;
    assert d[6..8] == y[0..2] && d[8..10] == y[2..4];
  }

  lemma Pad4Parts(n: nat)
    requires n < 10000
    ensures Pad4(n)[0..2] == Pad2(n / 100) && Pad4(n)[2..4] == Pad2(n % 100)
  {
  }

  /** The day name and date string determine the date: nothing is lost or swapped. */
  lemma DateInfoRoundTrip(language: string, now: Date)
    requires ValidDate(now)
    ensures ReadDateInfo(language, CurrentDateInfo(language, now)) == Some(now)
  {
    var dd, mm, y := Pad2(now.day), Pad2(now.month), Pad4(now.year);
    Read2Pad2(now.day);
    Read2Pad2(now.month);
    Read2Pad2(now.year / 100);
    Read2Pad2(now.year % 100);
    Pad4Parts(now.year);
    assert Read2(y[0..2]) * 100 + Read2(y[2..4]) == now.year;
    var names := WeekdayNames(language);
    WeekdayIndex(language, now.weekday);
    var name := names[now.weekday];
    assert IndexOf(names, name) == Some(now.weekday);
    if language == "pt-BR" {
      assert CurrentDateInfo(language, now) == DateInfo(name, dd + "/" + mm + "/" + y);
      ReadDateFields(language, name, dd, mm, y);
    } else {
      assert CurrentDateInfo(language, now) == DateInfo(name, mm + "/" + dd + "/" + y);
      ReadDateFields(language, name, mm, dd, y);
    }
  }

  // =====================================================================
  // News formatting
  // =====================================================================

  /** A news item as the request carries it: `List[dict]` admits any JSON value. */
  type NewsItem = map<string, Json>

  /**
   * `str(v)`, as the f-strings of `format_news_for_prompt` apply it: a string
   * is itself, `None` and the booleans print their Python names.  A number,
   * list or dict prints its Python repr, which depends on whether the number
   * was an int or a float and on the dict's insertion order; a `Json` value
   * keeps neither, so `show` stands for that rendering.
   */
  function Render(v: Json, show: Json -> string): string
  {
    match v
    case JStr(s) => s
    case JNull => "None"
    case JBool(b) => if b then "True" else "False"
    case _ => show(v)
  }

  /** `str(news.get(key, ""))`. */
  function Get(n: NewsItem, key: string, show: Json -> string): string
  {
    Render(if key in n then n[key] else JStr(""), show)
  }

  /**
   * What the f-string prints for a field: nothing for a missing one, a string
   * as itself, `None`, `True` and `False` by name, anything else as `show`s it.
   */
  lemma GetRendering(n: NewsItem, key: string, show: Json -> string)
    ensures key !in n ==> Get(n, key, show) == ""
    ensures key in n && n[key].JStr? ==> Get(n, key, show) == n[key].s
    ensures key in n && n[key].JNull? ==> Get(n, key, show) == "None"
    ensures key in n && n[key] == JBool(true) ==> Get(n, key, show) == "True"
    ensures key in n && n[key] == JBool(false) ==> Get(n, key, show) == "False"
    ensures key in n && (n[key].JNum? || n[key].JArray? || n[key].JObject?) ==> Get(n, key, show) == show(n[key])
  {
  }

  /** A null title prints as `None`, a boolean source as `True` and a missing summary as nothing. */
  lemma NullTitleRendering(show: Json -> string)
    ensures var n := map["title" := JNull, "source" := JBool(true)];
      Get(n, "title", show) == "None" && Get(n, "source", show) == "True" && Get(n, "summary", show) == ""
  {
  }

  const NoNews: string := "Nenhuma notícia disponível."
  const NewsHeader: string := "NOTÍCIAS DO DIA:\n\n"

  /** The block for the `i`-th item (1-based). */
  function Entry(i: nat, n: NewsItem, show: Json -> string): string
  {
    NatToString(i) + ". " + Get(n, "title", show) + "\n"
      + "   Resumo: " + Get(n, "summary", show) + "\n"
      + "   Fonte: " + Get(n, "source", show) + "\n\n"
  }

  /** The blocks of a list numbered from `first`, front to back. */
  function Listing(news: seq<NewsItem>, first: nat, show: Json -> string): string
  {
    if |news| == 0 then "" else Entry(first, news[0], show) + Listing(news[1..], first + 1, show)
  }

  /** Appending an item appends its block, numbered after the others. */
  lemma {:induction false} ListingSnoc(news: seq<NewsItem>, n: NewsItem, first: nat, show: Json -> string)
    ensures Listing(news + [n], first, show) == Listing(news, first, show) + Entry(first + |news|, n, show)
    decreases |news|
  {
    if |news| == 0 {
      assert Listing([n], first, show) == Entry(first, n, show) + Listing([], first + 1, show);
    } else {
      assert (news + [n])[1..] == news[1..] + [n];
      ListingSnoc(news[1..], n, first + 1, show);
    }
  }

  /** The `k`-th block of a listing is the block of the `k`-th item. */
  lemma {:induction false} ListingSplit(news: seq<NewsItem>, k: nat, show: Json -> string)
    requires k < |news|
    ensures Listing(news, 1, show) == Listing(news[..k], 1, show) + Entry(k + 1, news[k], show) + Listing(news[k + 1..], k + 2, show)
  {
    assert news[..k + 1] + news[k + 1..] == news;
    ListingAppend(news[..k + 1], news[k + 1..], 1, show);
    ListingPrefix(news, k, show);
  }

  lemma {:induction false} ListingAppend(a: seq<NewsItem>, b: seq<NewsItem>, first: nat, show: Json -> string)
    ensures Listing(a + b, first, show) == Listing(a, first, show) + Listing(b, first + |a|, show)
    decreases |a|
  {
    if |a| == 0 {
      assert a + b == b;
    } else {
      ListingOfAppendCons(a, b, first, show);
      ListingAppend(a[1..], b, first + 1, show);
      AppendAssoc(Entry(first, a[0], show), Listing(a[1..], first + 1, show), Listing(b, first + |a|, show));
    }
  }

  lemma ListingOfAppendCons(a: seq<NewsItem>, b: seq<NewsItem>, first: nat, show: Json -> string)
    requires |a| > 0
    ensures Listing(a + b, first, show) == Entry(first, a[0], show) + Listing(a[1..] + b, first + 1, show)
  {
    assert (a + b)[0] == a[0];
    assert (a + b)[1..] == a[1..] + b;
  }

  lemma AppendAssoc(x: string, y: string, z: string)
    ensures x + (y + z) == (x + y) + z
  {
  }

  /** One more item of the list adds its block. */
  lemma ListingPrefix(news: seq<NewsItem>, i: nat, show: Json -> string)
    requires i < |news|
    ensures Listing(news[..i + 1], 1, show) == Listing(news[..i], 1, show) + Entry(i + 1, news[i], show)
  {
    assert news[..i + 1] == news[..i] + [news[i]];
    ListingSnoc(news[..i], news[i], 1, show);
  }

  /** `format_news_for_prompt`: the loop over the items. */
  method FormatNewsForPrompt(news: seq<NewsItem>, show: Json -> string) returns (formatted: string)
    ensures |news| == 0 ==> formatted == NoNews
    ensures |news| > 0 ==> formatted == NewsHeader + Listing(news, 1, show)
  {
    if |news| == 0 {
      return NoNews;
    }
    var listing := "";
    var i := 0;
    while i < |news|
      invariant 0 <= i <= |news|
      invariant listing == Listing(news[..i], 1, show)
    {
      ListingPrefix(news, i, show);
      listing := listing + Entry(i + 1, news[i], show);
      i := i + 1;
    }
    assert news[..i] == news;
    formatted := NewsHeader + listing;
  }

  // =====================================================================
  // Prompt
  // =====================================================================

  /** `ScriptRequest`. */
  datatype ScriptRequest = ScriptRequest(
    agentName: string,
    agentType: string,
    news: seq<NewsItem>,
    memoryContext: string,
    language: string,
    durationMinutes: int)

  const MemoryHeader: string := "\n\nCONTEXTO DE MEMÓRIA ANTERIOR:\n"

  /** The memory section: empty exactly when there is no memory context. */
  function MemorySection(context: string): string
  {
    if |context| > 0 then MemoryHeader + context + "\n" else ""
  }

  /** The prompt text before the formatted news. */
  function PromptHead(agentName: string, info: DateInfo, minutes: int): string
  {
    "\nVocê é o J.A.R.V.I.S, um agente de IA especializado em criar podcasts diários sobre tecnologia.\n\n"
      + "Informações atuais:\n"
      + "- Agente: " + agentName + "\n"
      + "- Data: " + info.date + "\n"
      + "- Dia: " + info.dayName + "\n"
      + "- Duração esperada: ~" + IntToString(minutes) + " minutos\n\n"
  }

  /** The prompt text after the memory section. */
  function PromptTail(minutes: int): string
  {
    "\n\nCrie um roteiro engajante de podcast sobre tecnologia que:\n"
      + "1. Comece com uma saudação casual e mencione o dia da semana e data\n"
      + "2. Selecione as 3-4 notícias mais importantes e interessantes\n"
      + "3. Explique cada notícia de forma clara e envolvente\n"
      + "4. Faça conexões entre as notícias quando possível\n"
      + "5. Termine com uma reflexão sobre o futuro da tecnologia\n\n"
      + "O roteiro deve ser lido em aproximadamente " + IntToString(minutes) + " minutos (falada naturalmente).\n"
      + "Use linguagem conversacional e amigável.\n"
      + "Formato: Apenas o texto do roteiro, sem marcações.\n\n"
      + "Comece direto com o conteúdo do podcast.\n"
  }

  /** The variable parts of the prompt template. */
  datatype PromptInput = PromptInput(agentName: string, info: DateInfo, minutes: int, news: string, memoryContext: string)

  /** The prompt: the fixed template with the variable parts filled in. */
  function Prompt(p: PromptInput): string
  {
    PromptHead(p.agentName, p.info, p.minutes) + p.news + MemorySection(p.memoryContext) + PromptTail(p.minutes)
  }

  /** The memory section is present exactly when there is a memory context. */
  lemma MemorySectionPresence(context: string)
    ensures MemorySection(context) == "" <==> context == ""
    ensures context != "" ==> MemorySection(context)[|MemoryHeader|..|MemoryHeader| + |context|] == context
  {
  }

  /** The part between a fixed head and a fixed tail is determined by the whole. */
  lemma MiddleDetermined(head: string, a: string, b: string, tail: string)
    requires head + a + tail == head + b + tail
    ensures a == b
  {
    var x, y := head + a + tail, head + b + tail;
    assert |a| == |b|;
    assert a == x[|head|..|head| + |a|];
    assert b == y[|head|..|head| + |b|];
  }

  /** Different memory contexts give different memory sections. */
  lemma MemorySectionInjective(a: string, b: string)
    requires MemorySection(a) == MemorySection(b)
    ensures a == b
  {
    MemorySectionPresence(a);
    MemorySectionPresence(b);
    if |a| > 0 {
      assert |MemorySection(a)| == |MemoryHeader| + |a| + 1;
    }
  }

  /** The prompt is the part before the memory, the memory section and the part after it. */
  lemma PromptParts(p: PromptInput)
    ensures Prompt(p) == (PromptHead(p.agentName, p.info, p.minutes) + p.news) + MemorySection(p.memoryContext) + PromptTail(p.minutes)
  {
  }

  /** Equal prompts carry equal memory contexts. */
  lemma PromptDeterminesMemory(p: PromptInput, context: string)
    requires Prompt(p) == Prompt(p.(memoryContext := context))
    ensures p.memoryContext == context
  {
    var head := PromptHead(p.agentName, p.info, p.minutes) + p.news;
    var tail := PromptTail(p.minutes);
    PromptParts(p);
    PromptParts(p.(memoryContext := context));
    MiddleDetermined(head, MemorySection(p.memoryContext), MemorySection(context), tail);
    MemorySectionInjective(p.memoryContext, context);
  }

  /**
   * Requests that differ only in their memory context give different
   * prompts: the context reaches the LLM verbatim.
   */
  lemma PromptCarriesMemory(p: PromptInput, context: string)
    ensures Prompt(p) == Prompt(p.(memoryContext := context)) <==> p.memoryContext == context
  {
    var q := p.(memoryContext := context);
    if p.memoryContext == context {
      assert q == p;
    } else if Prompt(p) == Prompt(q) {
      PromptDeterminesMemory(p, context);
      assert false;
    }
  }

  // =====================================================================
  // Word count
  // =====================================================================

  /** `str.split()`: the maximal runs of non-whitespace characters. */
  function Words(s: string): (r: seq<string>)
    decreases |s|
  {
    if |s| == 0 then []
    else if IsSpace(s[0]) then Words(s[1..])
    else
      var n := NonSpaceRun(s);
      [s[..n]] + Words(s[n..])
  }

  function Concat(parts: seq<string>): string
  {
    if |parts| == 0 then "" else parts[0] + Concat(parts[1..])
  }

  /** A word is a non-empty run without whitespace. */
  predicate IsWord(w: string)
  {
    |w| > 0 && NoSpace(w)
  }

  lemma {:induction false} NonSpaceOfNoSpace(s: string)
    requires NoSpace(s)
    ensures NonSpace(s) == s
  {
    if |s| > 0 {
      NonSpaceOfNoSpace(s[1..]);
    }
  }

  /** The words are genuine words and, laid end to end, are the visible text. */
  lemma {:induction false} WordsCoverText(s: string)
    ensures forall i | 0 <= i < |Words(s)| :: IsWord(Words(s)[i])
    ensures Concat(Words(s)) == NonSpace(s)
    decreases |s|
  {
    if |s| == 0 {
    } else if IsSpace(s[0]) {
      WordsCoverText(s[1..]);
    } else {
      var n := NonSpaceRun(s);
      WordsCoverText(s[n..]);
      assert s == s[..n] + s[n..];
      NonSpaceAppend(s[..n], s[n..]);
      NonSpaceOfNoSpace(s[..n]);
      assert Words(s) == [s[..n]] + Words(s[n..]);
      assert Words(s)[1..] == Words(s[n..]);
    }
  }

  lemma {:induction false} NonSpaceRunOfWord(a: string, b: string)
    requires NoSpace(a)
    requires |b| == 0 || IsSpace(b[0])
    ensures NonSpaceRun(a + b) == |a|
    decreases |a|
  {
    if |a| == 0 {
      assert a + b == b;
    } else {
      assert (a + b)[1..] == a[1..] + b;
      NonSpaceRunOfWord(a[1..], b);
    }
  }

  /** Splitting words joined by single spaces gives the words back. */
  lemma {:induction false} WordsOfJoin(ws: seq<string>)
    requires forall i | 0 <= i < |ws| :: IsWord(ws[i])
    ensures Words(Join(ws, " ")) == ws
    decreases |ws|
  {
    if |ws| == 1 {
      var w := ws[0];
      NonSpaceRunOfWord(w, "");
      assert w + "" == w;
      assert w[|w|..] == "";
    } else if |ws| > 1 {
      var w, rest := ws[0], Join(ws[1..], " ");
      var s := w + " " + rest;
      assert s == w + (" " + rest);
      NonSpaceRunOfWord(w, " " + rest);
      assert s[..|w|] == w;
      assert s[|w|..] == " " + rest;
      assert (" " + rest)[1..] == rest;
      WordsOfJoin(ws[1..]);
    }
  }

  // =====================================================================
  // generate_script
  // =====================================================================

  /** `ScriptResponse`. */
  datatype ScriptResponse = ScriptResponse(
    script: string,
    wordCount: nat,
    estimatedDurationSeconds: real,
    agentName: string,
    language: string)

  /** The cache holds the result dicts this service wrote. */
  type ScriptCache = CacheManager.Cache<ScriptResponse>

  /** Why generation failed (HTTP 500 with the exception text). */
  datatype ScriptError =
    | LlmUnavailable   // the LLM reply was None or falsy
    | NoScript         // `text` missing or falsy
    | Malformed        // the reply or its `text` has the wrong type

  function ErrorDetail(e: ScriptError): string
  {
    match e
    case LlmUnavailable => "LLM Service indisponível"
    case NoScript => "LLM não retornou um script válido"
    case Malformed => "malformed LLM reply"
  }

  /** The formatted news the prompt embeds. */
  function NewsText(news: seq<NewsItem>, show: Json -> string): string
  {
    if |news| == 0 then NoNews else NewsHeader + Listing(news, 1, show)
  }

  /** The body posted to `/api/llm/generate` for a prompt. */
  function LlmRequest(p: PromptInput): Json
  {
    JObject(map[
      "prompt" := JStr(Prompt(p)),
      "context" := JStr("Agent: " + p.agentName + ", Type: podcast"),
      "temperature" := JNum(0.8),
      "max_tokens" := JNum(3000.0)])
  }

  /** The script in an LLM reply, or why there is none. */
  function ScriptOf(llm: Option<Json>): (r: Result<string, ScriptError>)
    ensures Missing(llm) <==> r == Err(LlmUnavailable)
    ensures r.Ok? ==> |r.value| > 0
  {
    if Missing(llm) then Err(LlmUnavailable)
    else match GetOr(llm.value, "text", JStr(""))
      case None => Err(Malformed)
      case Some(text) =>
        if !Truthy(text) then Err(NoScript)
        else if text.JStr? then Ok(text.s)
        else Err(Malformed)
  }

  /**
   * The error rules on a non-empty dict reply: a non-empty string `text` is
   * the script; a missing or empty `text` is "no valid script".
   */
  lemma ScriptErrors(m: map<string, Json>, text: string)
    requires |m| > 0
    ensures "text" in m && m["text"] == JStr(text) && |text| > 0 ==> ScriptOf(Some(JObject(m))) == Ok(text)
    ensures "text" !in m ==> ScriptOf(Some(JObject(m))) == Err(NoScript)
    ensures "text" in m && m["text"] == JStr("") ==> ScriptOf(Some(JObject(m))) == Err(NoScript)
  {
  }

  /** ~130 spoken words a minute. */
  function EstimatedSeconds(words: nat): real
  {
    (words as real / 130.0) * 60.0
  }

  /** What a generation left behind: the response, the cache and what filled the prompt sent to the LLM. */
  datatype Generation = Generation(response: Result<ScriptResponse, ScriptError>, cache: ScriptCache, prompt: Option<PromptInput>)

  /**
   * `generate_script`.  `key` stands for the hash-based cache key; `readFault`
   * and `writeFault` say whether the cache backend raised.
   */
  method GenerateScript(
    req: ScriptRequest, cache: ScriptCache, key: string, readFault: bool,
    now: Date, llm: Option<Json>, writeFault: bool, show: Json -> string)
    returns (g: Generation)
    requires ValidDate(now)
    ensures CacheManager.Get(cache, key, readFault).Some? ==>
      g == Generation(Ok(cache.entries[key]), cache, None)
    ensures CacheManager.Get(cache, key, readFault).None? ==>
      && g.prompt == Some(PromptInput(req.agentName, CurrentDateInfo(req.language, now), req.durationMinutes,
                                      NewsText(req.news, show), req.memoryContext))
      && (g.response.Err? ==> g.cache == cache)
      && (g.response == Err(LlmUnavailable) <==> Missing(llm))
      && (g.response.Err? <==> ScriptOf(llm).Err?)
      && (g.response.Ok? ==> g.response.value.script == ScriptOf(llm).value)
      && (g.response.Ok? ==> g.cache == CacheManager.Set(cache, key, g.response.value, writeFault).cache)
      && (g.response.Ok? ==>
            && |g.response.value.script| > 0
            && g.response.value.wordCount == |Words(g.response.value.script)|
            && g.response.value.estimatedDurationSeconds == EstimatedSeconds(g.response.value.wordCount)
            && g.response.value.agentName == req.agentName
            && g.response.value.language == req.language)
  {
    var cached := CacheManager.Get(cache, key, readFault);
    if cached.Some? {
      return Generation(Ok(cached.value), cache, None);
    }
    var formatted := FormatNewsForPrompt(req.news, show);
    var input := PromptInput(req.agentName, CurrentDateInfo(req.language, now), req.durationMinutes, formatted, req.memoryContext);
    match ScriptOf(llm)
    case Err(e) =>
      return Generation(Err(e), cache, Some(input));
    case Ok(script) =>
      var words := |Words(script)|;
      var result := ScriptResponse(script, words, EstimatedSeconds(words), req.agentName, req.language);
      var written := CacheManager.Set(cache, key, result, writeFault);
      return Generation(Ok(result), written.cache, Some(input));
  }

  /** A generated script is cached under its key and served on the next request. */
  method GenerateThenCached(req: ScriptRequest, cache: ScriptCache, key: string, now: Date, text: string, later: Option<Json>, show: Json -> string)
    returns (first: Generation, second: Generation)
    requires ValidDate(now) && cache.enabled && |text| > 0
    requires key !in cache.entries
    ensures first.response.Ok? && first.response.value.script == text
    ensures second.response == first.response && second.prompt.None?
  {
    var reply := Some(JObject(map["text" := JStr(text)]));
    assert GetOr(reply.value, "text", JStr("")) == Some(JStr(text));
    assert !Missing(reply) by {
      assert "text" in reply.value.fields;
      assert |reply.value.fields.Keys| >= |{"text"}|;
    }
    first := GenerateScript(req, cache, key, false, now, reply, false, show);
    second := GenerateScript(req, first.cache, key, false, now, later, false, show);
  }
}
