/**
 * The stand-alone development server (`mock-backend.js`): it processes the section once at
 * start-up and answers four routes with CORS headers and JSON bodies.
 */
module MockServer {
  import opened Wrappers
  import opened Azkar
  import opened Text
  import opened Patterns

  /** The server's word checks, in its own order; it never looks at digits. */
  const WordChecks: seq<WordCheck> := [
    WordCheck("ثلاث مرات", "ثلاث", 3),
    WordCheck("سبع مرات", "سبع", 7),
    WordCheck("مائة مرة", "مائة", 100),
    WordCheck("عشر مرات", "عشر", 10),
    WordCheck("أربع مرات", "أربع", 4)
  ]

  /** The `repeatMin` if-chain: the first matching word check, else 1. */
  function RepeatMin(text: string): (r: int)
    ensures r in {1, 3, 4, 7, 10, 100}
    ensures r == 1 <==> forall k :: 0 <= k < |WordChecks| ==>
                          !Contains(text, WordChecks[k].phrase) && !Contains(text, WordChecks[k].word)
  {
    assert forall j :: 0 <= j < |WordChecks| ==> WordChecks[j].value in {3, 4, 7, 10, 100};
    FirstWordCount(WordChecks, text).GetOr(1)
  }

  /** The clean-up chain: parenthesised markers, then written-number markers, then whitespace; digit markers stay. */
  function CleanText(text: string): (r: string)
    ensures IsCollapsed(Js, r)
  {
    Normalize(Js, Remove(Js, WordMarker, Remove(Js, ParenMarker, text)))
  }

  /** `footnotes[index] || null`, indexed among the kept texts. */
  function Footnote(footnotes: seq<string>, k: nat): (r: Option<string>)
    ensures r.Some? <==> k < |footnotes| && footnotes[k] != ""
  {
    if k < |footnotes| && footnotes[k] != "" then Some(footnotes[k]) else None
  }

  /** `text.filter(text => text && text.trim().length > 0)`. */
  function NonBlank(texts: seq<string>): (r: seq<string>)
    ensures |r| <= |texts|
  {
    if texts == [] then []
    else
      var last := texts[|texts| - 1];
      NonBlank(texts[..|texts| - 1]) + (if IsBlank(Js, last) then [] else [last])
  }

  /** The filter keeps exactly the non-blank texts. */
  lemma {:induction false} NonBlankExact(texts: seq<string>)
    ensures forall t :: t in NonBlank(texts) <==> t in texts && !IsBlank(Js, t)
  {
    if texts != [] {
      var n := |texts| - 1;
      NonBlankExact(texts[..n]);
      assert texts == texts[..n] + [texts[n]];
    }
  }

  /** A list without blank texts passes the filter unchanged. */
  lemma {:induction false} NonBlankKeepsAll(texts: seq<string>)
    requires forall k :: 0 <= k < |texts| ==> !IsBlank(Js, texts[k])
    ensures NonBlank(texts) == texts
  {
    if texts != [] {
      var n := |texts| - 1;
      NonBlankKeepsAll(texts[..n]);
      assert texts == texts[..n] + [texts[n]];
    }
  }

  /**
   * The `map` over the kept texts; the cleaner and the count are parameters so that lemmas about
   * the list do not unfold the text scanners.
   */
  function Processed(survivors: seq<string>, footnotes: seq<string>, clean: string -> string, count: string -> int): (r: seq<Zikr>)
    ensures |r| == |survivors|
  {
    seq(|survivors|, k requires 0 <= k < |survivors| =>
      Zikr(k + 1, clean(survivors[k]), Footnote(footnotes, k), count(survivors[k]), k + 1))
  }

  /** The kept texts are numbered 1, 2, ..., n: id and orderIndex coincide and ids are distinct. */
  lemma ProcessedNumbering(survivors: seq<string>, footnotes: seq<string>, clean: string -> string, count: string -> int)
    ensures forall k :: 0 <= k < |survivors| ==>
              Processed(survivors, footnotes, clean, count)[k].id == k + 1
              && Processed(survivors, footnotes, clean, count)[k].orderIndex == k + 1
    ensures forall a, b :: 0 <= a < b < |survivors| ==>
              Processed(survivors, footnotes, clean, count)[a].id != Processed(survivors, footnotes, clean, count)[b].id
  {
  }

  const MissingSectionError: string := "Could not find morning/evening azkar data"

  /** `processAzkarData`: fails when the section or its text array is missing. */
  function ProcessAzkarData(section: Option<AzkarSection>): (r: Result<seq<Zikr>, string>)
    ensures r.Err? <==> section.None? || section.value.text.None?
    ensures r.Err? ==> r.error == MissingSectionError
    ensures r.Ok? ==> |r.value| == |NonBlank(section.value.text.value)|
  {
    if section.None? || section.value.text.None? then Err(MissingSectionError)
    else Ok(Processed(NonBlank(section.value.text.value), section.value.footnote.GetOr([]), CleanText, RepeatMin))
  }

  /** Every processed zikr carries a word-derived count and whitespace-normalised text. */
  lemma ProcessedFields(section: Option<AzkarSection>)
    requires ProcessAzkarData(section).Ok?
    ensures forall z :: z in ProcessAzkarData(section).value ==>
              z.repeatMin in {1, 3, 4, 7, 10, 100} && IsCollapsed(Js, z.textAr)
  {
    var sv := NonBlank(section.value.text.value);
    var r := ProcessAzkarData(section).value;
    forall z | z in r ensures z.repeatMin in {1, 3, 4, 7, 10, 100} && IsCollapsed(Js, z.textAr) {
      var k :| 0 <= k < |r| && r[k] == z;
      assert z.textAr == CleanText(sv[k]) && z.repeatMin == RepeatMin(sv[k]);
    }
  }

  const HealthPath: string := "/api/v1/health"
  const CategoriesPath: string := "/api/v1/categories"
  const AzkarPath: string := "/api/v1/azkar"

  /** What `res.end` was given; JSON serialisation is left implicit. */
  datatype Body =
    | NoBody
    | HealthBody(status: string)
    | CategoriesBody(categories: seq<Category>)
    | AzkarBody(azkar: seq<Zikr>)
    | ErrorBody(error: string)

  datatype Response = Response(status: int, body: Body)

  /** The four headers set before dispatch. */
  const CorsHeaders: map<string, string> := map[
    "Access-Control-Allow-Origin" := "*",
    "Access-Control-Allow-Methods" := "GET, POST, PUT, DELETE, OPTIONS",
    "Access-Control-Allow-Headers" := "Content-Type",
    "Content-Type" := "application/json"
  ]

  /** Setting the four headers one by one is the same as merging in `CorsHeaders`. */
  lemma CorsHeadersMerged(h: map<string, string>)
    ensures h["Access-Control-Allow-Origin" := "*"]
             ["Access-Control-Allow-Methods" := "GET, POST, PUT, DELETE, OPTIONS"]
             ["Access-Control-Allow-Headers" := "Content-Type"]["Content-Type" := "application/json"]
            == h + CorsHeaders
  {
  }

  /** A missing query parameter prints as `null` in the template string. */
  function QueryText(category: Option<string>): string {
    match category
    case Some(c) => c
    case None => "null"
  }

  /** The dispatch of the request callback as a function of method, path and `category` parameter. */
  function Route(verb: string, pathname: string, category: Option<string>, azkarList: seq<Zikr>): (r: Response)
    ensures r.status in {200, 400, 404}
    ensures verb == "OPTIONS" ==> r == Response(200, NoBody)
    ensures r.status == 200 <==>
              || verb == "OPTIONS" || pathname == HealthPath || pathname == CategoriesPath
              || (pathname == AzkarPath && category.Some? && IsCategorySlug(category.value))
    ensures r.status == 400 <==> verb != "OPTIONS" && pathname == AzkarPath && !(category.Some? && IsCategorySlug(category.value))
    ensures r.body.ErrorBody? <==> r.status != 200
    ensures verb != "OPTIONS" && pathname == HealthPath ==> r == Response(200, HealthBody("ok"))
    ensures verb != "OPTIONS" && pathname == CategoriesPath ==> r == Response(200, CategoriesBody(FixedCategories))
    ensures r.status == 404 ==> r.body == ErrorBody("Not found")
  {
    if verb == "OPTIONS" then Response(200, NoBody)
    else if pathname == HealthPath then Response(200, HealthBody("ok"))
    else if pathname == CategoriesPath then Response(200, CategoriesBody(FixedCategories))
    else if pathname == AzkarPath then
      if category == Some(MorningSlug) || category == Some(EveningSlug) then Response(200, AzkarBody(azkarList))
      else Response(400, ErrorBody("Invalid category '" + QueryText(category) + "'. Use \"morning\" or \"evening\""))
    else Response(404, ErrorBody("Not found"))
  }

  /** Both categories are served the same list. */
  lemma AzkarSameForBoth(verb: string, azkarList: seq<Zikr>)
    ensures Route(verb, AzkarPath, Some(MorningSlug), azkarList) == Route(verb, AzkarPath, Some(EveningSlug), azkarList)
    ensures verb != "OPTIONS" ==> Route(verb, AzkarPath, Some(MorningSlug), azkarList).body == AzkarBody(azkarList)
  {
  }

  /** The part of Node's `ServerResponse` the handler uses. */
  class ServerResponse {
    var headers: map<string, string>
    var status: Option<int>
    var body: Option<Body>

    constructor()
      ensures headers == map[] && status.None? && body.None?
    {
      headers := map[];
      status := None;
      body := None;
    }

    method SetHeader(name: string, value: string)
      modifies this`headers
      ensures headers == old(headers)[name := value]
    {
      headers := headers[name := value];
    }

    method WriteHead(code: int)
      modifies this`status
      ensures status == Some(code)
    {
      status := Some(code);
    }

    method End(b: Body)
      modifies this`body
      ensures body == Some(b)
    {
      body := Some(b);
    }
  }

  /** The running server: the list processed at start-up. */
  class MockBackend {
    const azkarList: seq<Zikr>

    constructor(azkarList: seq<Zikr>)
      ensures this.azkarList == azkarList
    {
      this.azkarList := azkarList;
    }

    /** The request callback: the CORS and content-type headers, then the routed status and body. */
    method Handle(verb: string, pathname: string, category: Option<string>, res: ServerResponse)
      modifies res
      ensures res.headers == old(res.headers)["Access-Control-Allow-Origin" := "*"]
                ["Access-Control-Allow-Methods" := "GET, POST, PUT, DELETE, OPTIONS"]
                ["Access-Control-Allow-Headers" := "Content-Type"]["Content-Type" := "application/json"]
      ensures res.status == Some(Route(verb, pathname, category, azkarList).status)
      ensures res.body == Some(Route(verb, pathname, category, azkarList).body)
    {
      res.SetHeader("Access-Control-Allow-Origin", "*");
      res.SetHeader("Access-Control-Allow-Methods", "GET, POST, PUT, DELETE, OPTIONS");
      res.SetHeader("Access-Control-Allow-Headers", "Content-Type");
      res.SetHeader("Content-Type", "application/json");
      if verb == "OPTIONS" {
        res.WriteHead(200);
        res.End(NoBody);
        return;
      }
      if pathname == HealthPath {
        res.WriteHead(200);
        res.End(HealthBody("ok"));
        return;
      }
      if pathname == CategoriesPath {
        res.WriteHead(200);
        res.End(CategoriesBody(FixedCategories));
        return;
      }
      if pathname == AzkarPath {
        if category == Some(MorningSlug) || category == Some(EveningSlug) {
          res.WriteHead(200);
          res.End(AzkarBody(azkarList));
        } else {
          res.WriteHead(400);
          res.End(ErrorBody("Invalid category '" + QueryText(category) + "'. Use \"morning\" or \"evening\""));
        }
        return;
      }
      res.WriteHead(404);
      res.End(ErrorBody("Not found"));
    }
  }
}
