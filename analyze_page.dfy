/**
 * The file-backed analysis routes: `analyze_page` (prompt, model call, score
 * clamp) and the history kept in a JSON file (`save_analysis`, `get_history`,
 * `get_history_detail`). The file becomes the sequence of stored records.
 */
module AnalyzePage {
  import opened Text
  import opened Results
  import opened JsonValue
  import opened PyFloat
  import opened Http

  /** `PageContent`: what the client extracted from the page. */
  datatype PageContent = PageContent(
    title: Option<string>,
    metaDescription: Option<string>,
    headings: seq<string>,
    bodyText: Option<string>,
    ctaTexts: seq<string>,
    socialLinks: seq<string>)

  /** `AnalyzePageRequest`. */
  datatype AnalyzePageRequest = AnalyzePageRequest(
    url: Option<string>,
    pageContent: PageContent,
    userGoal: Option<string>)

  /** How an f-string shows an optional string: the text, or `None`. */
  function ShowOptional(s: Option<string>): string
  {
    match s
    case Some(t) => t
    case None => "None"
  }

  /** The goal the prompt names when the request gives none (or an empty one). */
  const DEFAULT_GOAL := "Infer the primary business goal."

  /** `data.user_goal if data.user_goal else "Infer the primary business goal."` */
  function GoalText(userGoal: Option<string>): string
  {
    if userGoal.Some? && userGoal.value != [] then userGoal.value else DEFAULT_GOAL
  }

  /** The fixed text of the prompt up to the input data. */
  const PROMPT_HEAD :=
    "\n"
    + "You are a senior marketing strategist and startup advisor.\n"
    + "\n"
    + "Perform a deep, structured audit of the website.\n"
    + "\n"
    + "STRICT RULES:\n"
    + "- Respond ONLY with valid JSON\n"
    + "- NO markdown\n"
    + "- NO explanations outside JSON\n"
    + "- Follow the schema EXACTLY\n"
    + "- Scores must be out of 10 (allow 1 decimal)\n"
    + "\n"
    + "JSON SCHEMA:\n"
    + "{\n"
    + "  \"what_this_site_is\": \"string\",\n"
    + "  \"target_audience\": \"string\",\n"
    + "  \"strengths\": [\"string\"],\n"
    + "  \"weaknesses\": [\"string\"],\n"
    + "  \"improvements\": [\"string\"],\n"
    + "  \"seo_metadata_feedback\": \"string\",\n"
    + "  \"social_presence_analysis\": \"string\",\n"
    + "  \"marketing_verdict\": \"string\",\n"
    + "  \"investor_verdict\": \"string\",\n"
    + "  \"overall_score\": number\n"
    + "}\n"
    + "\n"
    + "INPUT DATA:\n"

  /**
   * The pieces of the prompt f-string, in order. `showList` is how Python's
   * `str()` renders a list of strings.
   */
  function PromptParts(data: AnalyzePageRequest, showList: seq<string> -> string): seq<string>
  {
    [ PROMPT_HEAD,
      "URL: ", ShowOptional(data.url),
      "\nTITLE: ", ShowOptional(data.pageContent.title),
      "\nMETA DESCRIPTION: ", ShowOptional(data.pageContent.metaDescription),
      "\nHEADINGS: ", showList(data.pageContent.headings),
      "\nBODY TEXT: ", ShowOptional(data.pageContent.bodyText),
      "\nCTAs: ", showList(data.pageContent.ctaTexts),
      "\nSOCIAL LINKS: ", showList(data.pageContent.socialLinks),
      "\n\n", "USER GOAL:\n", GoalText(data.userGoal), "\n" ]
  }

  /** The prompt: the fixed instructions and schema, then the request's URL first among the input data. */
  function AnalyzePrompt(data: AnalyzePageRequest, showList: seq<string> -> string): (r: string)
    ensures IsPrefix(PROMPT_HEAD + "URL: " + ShowOptional(data.url) + "\nTITLE: ", r)
  {
    var parts := PromptParts(data, showList);
    assert parts == parts[..4] + parts[4..];
    JoinAppend(parts[..4], parts[4..]);
    assert parts[..4] == [PROMPT_HEAD, "URL: ", ShowOptional(data.url), "\nTITLE: "];
    JoinFour(PROMPT_HEAD, "URL: ", ShowOptional(data.url), "\nTITLE: ");
    Join(parts)
  }

  lemma JoinFour(a: string, b: string, c: string, d: string)
    ensures Join([a, b, c, d]) == a + b + c + d
  {
    assert [a, b, c, d][..3] == [a, b, c];
    JoinThree(a, b, c);
  }

  lemma JoinThree(a: string, b: string, c: string)
    ensures Join([a, b, c]) == a + b + c
  {
    assert [a, b, c][..2] == [a, b];
    assert [a, b][..1] == [a];
    JoinOne(a);
  }

  /**
   * The prompt ends with the goal section: the request's goal when it is a
   * non-empty string, and the default goal otherwise.
   */
  lemma PromptEndsWithGoal(data: AnalyzePageRequest, showList: seq<string> -> string)
    ensures data.userGoal.Some? && data.userGoal.value != [] ==>
      IsSuffix("USER GOAL:\n" + data.userGoal.value + "\n", AnalyzePrompt(data, showList))
    ensures data.userGoal.None? || data.userGoal.value == [] ==>
      IsSuffix("USER GOAL:\n" + DEFAULT_GOAL + "\n", AnalyzePrompt(data, showList))
  {
    var parts := PromptParts(data, showList);
    var n := |parts| - 3;
    assert parts == parts[..n] + parts[n..];
    JoinAppend(parts[..n], parts[n..]);
    assert parts[n..] == ["USER GOAL:\n", GoalText(data.userGoal), "\n"];
    JoinThree("USER GOAL:\n", GoalText(data.userGoal), "\n");
  }

  /** The detail of the 500 raised for a model reply that cannot be used. */
  const INVALID_RESPONSE := HttpError(500, "AI response was invalid or improperly formatted")

  /** How `analyze_page` can fail: the model call raised, or its reply was unusable. */
  datatype AnalyzeError = LlmFailed(reason: string) | Rejected(response: HttpError)

  /**
   * The decoded reply as an object and the `float()` of its `overall_score`
   * (0 when absent), or `None` where Python raises: a reply that is not JSON,
   * JSON that is not an object, or a score `float()` refuses.
   */
  function ScoredReply(outcome: ParseOutcome): (r: Option<(map<string, Json>, real)>)
    ensures r.Some? <==>
      && outcome.Parsed? && outcome.value.JObj?
      && ToFloat(Get(outcome.value.fields, "overall_score", JNum(0.0))).Some?
    ensures r.Some? ==> r.value.0 == outcome.value.fields
    ensures r.Some? && "overall_score" !in r.value.0 ==> r.value.1 == 0.0
    ensures r.Some? && "overall_score" in r.value.0 ==> ToFloat(r.value.0["overall_score"]) == Some(r.value.1)
  {
    match outcome
    case DecodeError(_) => None
    case Parsed(v) =>
      if !v.JObj? then None
      else
        match ToFloat(Get(v.fields, "overall_score", JNum(0.0)))
        case Some(score) => Some((v.fields, score))
        case None => None
  }

  /**
   * `analyze_page`: build the prompt, ask the model, decode its reply and
   * replace `overall_score` by the clamped score rounded to one decimal.
   */
  method AnalyzePage(data: AnalyzePageRequest, showList: seq<string> -> string,
                     llm: string -> Result<string, string>, parse: Parser)
    returns (r: Result<map<string, Json>, AnalyzeError>)
    ensures llm(AnalyzePrompt(data, showList)).Err? ==>
      r == Err(LlmFailed(llm(AnalyzePrompt(data, showList)).error))
    ensures llm(AnalyzePrompt(data, showList)).Ok? ==>
      match ScoredReply(parse(llm(AnalyzePrompt(data, showList)).value))
      case None => r == Err(Rejected(INVALID_RESPONSE))
      case Some(reply) => r == Ok(reply.0["overall_score" := JNum(Round1(Clamp(reply.1)))])
    ensures r.Ok? ==>
      && "overall_score" in r.value
      && r.value["overall_score"].JNum?
      && 0.0 <= r.value["overall_score"].n <= 10.0
  {
    var prompt := AnalyzePrompt(data, showList);
    var rawResponse := llm(prompt);
    if rawResponse.Err? {
      return Err(LlmFailed(rawResponse.error));
    }
    var reply := ScoredReply(parse(rawResponse.value));
    if reply.None? {
      return Err(Rejected(INVALID_RESPONSE));
    }
    var (analysis, score) := reply.value;
    analysis := analysis["overall_score" := JNum(Round1(Clamp(score)))];
    return Ok(analysis);
  }

  /** A reply object without `overall_score` is scored 0. */
  lemma MissingScoreIsZero(fields: map<string, Json>)
    requires "overall_score" !in fields
    ensures ScoredReply(Parsed(JObj(fields))) == Some((fields, 0.0))
  {
  }

  /** A reply that is not JSON, or JSON that is not an object, is rejected. */
  lemma NonObjectRejected(outcome: ParseOutcome)
    requires outcome.DecodeError? || !outcome.value.JObj?
    ensures ScoredReply(outcome) == None
  {
  }

  /** A score that `float()` refuses (null, a list, an object, a non-numeric string) is rejected, not read as 0. */
  lemma NonNumericScoreRejected(fields: map<string, Json>)
    requires "overall_score" in fields && ToFloat(fields["overall_score"]).None?
    ensures ScoredReply(Parsed(JObj(fields))) == None
  {
  }

  /** A numeric score is kept where it lies in [0, 10] and is already in tenths. */
  lemma InRangeScoreKept(fields: map<string, Json>, s: real)
    requires "overall_score" in fields && fields["overall_score"] == JNum(s)
    requires 0.0 <= s <= 10.0 && IsTenths(s)
    ensures ScoredReply(Parsed(JObj(fields))) == Some((fields, s))
    ensures Round1(Clamp(s)) == s
  {
    Round1KeepsTenths(s);
  }

  /** A record of the history file, as `SavedAnalysis.dict()` writes it. */
  datatype SavedAnalysis = SavedAnalysis(
    id: string,
    url: string,
    analysis: map<string, Json>,
    score: real,
    createdAt: string)

  /** `HistoryItem`: what the history listing shows of a record. */
  datatype HistoryItem = HistoryItem(id: string, url: string, score: real, createdAt: string)

  function ItemOf(a: SavedAnalysis): HistoryItem
  {
    HistoryItem(a.id, a.url, a.score, a.createdAt)
  }

  /** Why building the new record raised (its text, `str(e)`, is not modelled). */
  datatype EntryError =
    | AnalysisNotObject  // `payload["analysis"]` has no `.get`
    | ScoreNotNumeric    // `float()` refused `overall_score`
    | UrlNotString       // the `url` field fails validation
    | AnalysisMissing    // the `analysis` field is `None` and fails validation

  /**
   * `SavedAnalysis(...)` in `save_analysis`: the record built from the payload,
   * or the exception that building it raises.
   */
  function NewEntry(payload: map<string, Json>, id: string, createdAt: string): (r: Result<SavedAnalysis, EntryError>)
    ensures r.Ok? ==> r.value.id == id && r.value.createdAt == createdAt
    ensures r.Ok? ==> "url" in payload && payload["url"] == JStr(r.value.url)
    ensures r.Ok? ==> "analysis" in payload && payload["analysis"] == JObj(r.value.analysis)
    ensures r.Ok? ==> ToFloat(Get(r.value.analysis, "overall_score", JNum(0.0))) == Some(r.value.score)
    ensures "analysis" !in payload ==> r.Err?
    ensures "analysis" in payload && !payload["analysis"].JObj? ==> r == Err(AnalysisNotObject)
  {
    var analysis := Get(payload, "analysis", JObj(map[]));
    if !analysis.JObj? then Err(AnalysisNotObject)
    else
      match ToFloat(Get(analysis.fields, "overall_score", JNum(0.0)))
      case None => Err(ScoreNotNumeric)
      case Some(score) =>
        if "url" !in payload || !payload["url"].JStr? then Err(UrlNotString)
        else if "analysis" !in payload then Err(AnalysisMissing)
        else Ok(SavedAnalysis(id, payload["url"].s, analysis.fields, score, createdAt))
  }

  /**
   * A payload with a string `url` and an object `analysis` whose score `float()`
   * accepts is stored with exactly that url, analysis and score.
   */
  lemma NewEntryFields(payload: map<string, Json>, id: string, createdAt: string)
    requires "url" in payload && payload["url"].JStr?
    requires "analysis" in payload && payload["analysis"].JObj?
    requires ToFloat(Get(payload["analysis"].fields, "overall_score", JNum(0.0))).Some?
    ensures NewEntry(payload, id, createdAt) == Ok(SavedAnalysis(id, payload["url"].s,
      payload["analysis"].fields, ToFloat(Get(payload["analysis"].fields, "overall_score", JNum(0.0))).value, createdAt))
  {
  }

  /** A payload without `analysis` is not stored, although its score falls back to 0. */
  lemma MissingAnalysisNotSaved(payload: map<string, Json>, id: string, createdAt: string)
    requires "analysis" !in payload
    ensures NewEntry(payload, id, createdAt).Err?
  {
  }

  /** The `save_analysis` failure: a 500 whose detail starts `Failed to save analysis: `. */
  datatype SaveError = SaveFailed(cause: EntryError)

  /** The history rows for `records`, newest first: `reversed` with each record projected. */
  function HistoryItems(records: seq<SavedAnalysis>): (items: seq<HistoryItem>)
    ensures |items| == |records|
    ensures forall i :: 0 <= i < |records| ==> items[i] == ItemOf(records[|records| - 1 - i])
  {
    if records == [] then []
    else [ItemOf(records[|records| - 1])] + HistoryItems(records[..|records| - 1])
  }

  /** Saving one more record puts its row at the head of the history. */
  lemma HistoryAfterAppend(records: seq<SavedAnalysis>, entry: SavedAnalysis)
    ensures HistoryItems(records + [entry]) == [ItemOf(entry)] + HistoryItems(records)
  {
    assert (records + [entry])[..|records|] == records;
  }

  /** Records saved as a, b, c are listed as c, b, a. */
  lemma HistoryNewestFirst(a: SavedAnalysis, b: SavedAnalysis, c: SavedAnalysis)
    ensures HistoryItems([a, b, c]) == [ItemOf(c), ItemOf(b), ItemOf(a)]
  {
  }

  /** The index of the first record with the id, or -1. */
  function FirstWithId(records: seq<SavedAnalysis>, id: string): (k: int)
    ensures -1 <= k < |records|
    ensures k >= 0 ==> records[k].id == id
    ensures forall j :: 0 <= j < |records| && (k < 0 || j < k) ==> records[j].id != id
    decreases |records|
  {
    if records == [] then -1
    else if records[0].id == id then 0
    else
      var k := FirstWithId(records[1..], id);
      if k < 0 then -1 else k + 1
  }

  /** A record saved under an id not yet in the file is what a lookup of that id finds. */
  lemma LookupAfterFreshAppend(records: seq<SavedAnalysis>, entry: SavedAnalysis)
    requires forall j :: 0 <= j < |records| ==> records[j].id != entry.id
    ensures FirstWithId(records + [entry], entry.id) == |records|
  {
    var s := records + [entry];
    var k := FirstWithId(s, entry.id);
    assert s[|records|].id == entry.id;
    assert forall j :: 0 <= j < |records| ==> s[j].id != entry.id;
  }

  /** Appending a record does not change what a lookup already found. */
  lemma LookupStableUnderAppend(records: seq<SavedAnalysis>, entry: SavedAnalysis, id: string)
    requires FirstWithId(records, id) >= 0
    ensures FirstWithId(records + [entry], id) == FirstWithId(records, id)
  {
    var s := records + [entry];
    var k := FirstWithId(records, id);
    assert s[k] == records[k];
    assert forall j :: 0 <= j < k ==> s[j] == records[j];
  }

  /** The history file, as the list of records it holds. */
  class FileHistory {
    var analyses: seq<SavedAnalysis>

    /** The file starts as an empty list when it does not exist yet. */
    constructor()
      ensures analyses == []
    {
      analyses := [];
    }

    /** `save_analysis`: append the new record and answer its id, or fail and keep the file. */
    method SaveAnalysis(payload: map<string, Json>, id: string, createdAt: string)
      returns (r: Result<string, SaveError>)
      modifies this
      ensures NewEntry(payload, id, createdAt).Ok? ==>
        r == Ok(id) && analyses == old(analyses) + [NewEntry(payload, id, createdAt).value]
      ensures NewEntry(payload, id, createdAt).Err? ==>
        r == Err(SaveFailed(NewEntry(payload, id, createdAt).error)) && analyses == old(analyses)
    {
      var entry := NewEntry(payload, id, createdAt);
      if entry.Err? {
        return Err(SaveFailed(entry.error));
      }
      analyses := analyses + [entry.value];
      return Ok(id);
    }

    /** `get_history`: one row per record, newest first. */
    function GetHistory(): (items: seq<HistoryItem>)
      reads this
      ensures |items| == |analyses|
      ensures forall i :: 0 <= i < |items| ==> items[i] == ItemOf(analyses[|analyses| - 1 - i])
    {
      HistoryItems(analyses)
    }

    /** `get_history_detail`: the first record with the id, or 404. */
    method GetHistoryDetail(analysisId: string) returns (r: Result<SavedAnalysis, HttpError>)
      ensures FirstWithId(analyses, analysisId) >= 0 ==>
        r == Ok(analyses[FirstWithId(analyses, analysisId)])
      ensures FirstWithId(analyses, analysisId) < 0 ==> r == Err(NOT_FOUND)
    {
      var i := 0;
      while i < |analyses|
        invariant 0 <= i <= |analyses|
        invariant forall j :: 0 <= j < i ==> analyses[j].id != analysisId
      {
        if analyses[i].id == analysisId {
          return Ok(analyses[i]);
        }
        i := i + 1;
      }
      return Err(NOT_FOUND);
    }
  }
}
