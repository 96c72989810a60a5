/**
 The cases of scripts/test-validators.js, and the fenced empty list, worked through the
 model. `JSON.parse` stays a parameter: each case assumes only what it returns on the
 one text the case hands it.
 */
module TestVectors {
  import opened Base
  import opened Strings
  import opened JsonValues
  import opened Normalizer
  import opened Sanitizer
  import opened Validator
  import opened Prompts
  import opened Orchestrator

  const Source := "sample.pdf"

  /** The object between the fences of the first case, line by line. */
  const Case1Head := "{\n  \"items\": [\n    {\n"
  const Case1Text := "      \"date_text\": \"2024年3月1日\",\n"
  const Case1Iso := "      \"date_iso\": \"2024-03-01\",\n"
  const Case1Type := "      \"type\": \"deadline\",\n"
  const Case1Summary := "      \"summary\": \"繳交合約截止日\",\n"
  const Case1File := "      \"source_file\": \"\",\n"
  const Case1Page := "      \"page\": 2,\n"
  const Case1Section := "      \"section\": \"付款條款\",\n"
  const Case1Confidence := "      \"confidence\": 0.9,\n"
  const Case1Extra := "      \"extra\": \"should be ignored\"\n"
  const Case1Tail := "    }\n  ]\n}"

  const Case1Body := Case1Head + Case1Text + Case1Iso + Case1Type + Case1Summary + Case1File
    + Case1Page + Case1Section + Case1Confidence + Case1Extra + Case1Tail

  const Case1Raw := FencedJson(Case1Body)

  /** Text between an opening "```json" line and a closing fence line. */
  function FencedJson(body: string): string
  {
    "```json\n" + body + "\n```"
  }

  predicate NoTick(s: string)
  {
    forall i :: 0 <= i < |s| ==> s[i] != '`'
  }

  lemma NoTickConcat(a: string, b: string)
    requires NoTick(a) && NoTick(b)
    ensures NoTick(a + b)
  {
    forall i | |a| <= i < |a + b| ensures (a + b)[i] != '`' {
      assert (a + b)[i] == b[i - |a|];
    }
  }

  /** A fenced block whose body is tight and free of backticks cleans to the body. */
  lemma FencedJsonCleaned(body: string)
    requires Tight(body) && NoTick(body)
    ensures Clean(FencedJson(body)) == body
  {
    var t := "\n" + body + "\n";
    NoTickConcat("\n", body);
    NoTickConcat("\n" + body, "\n");
    assert FencedJson(body) == "```json" + t + Fence;
    assert IsOpener("```json");
    FencedLikeBare("```json", t);
    assert ReplaceAll(StripOpeners(t), Fence, "") == t;
    assert AllSpace("\n");
    TrimPadded("\n", body, "\n");
    TrimOfTight(body);
  }

  /** The fences and the surrounding line breaks are gone before parsing. */
  lemma Case1Cleaned()
    ensures Clean(Case1Raw) == Case1Body
  {
    assert NoTick(Case1Head) && NoTick(Case1Text) && NoTick(Case1Iso) && NoTick(Case1Type);
    assert NoTick(Case1Summary) && NoTick(Case1File) && NoTick(Case1Page);
    assert NoTick(Case1Section) && NoTick(Case1Confidence) && NoTick(Case1Extra) && NoTick(Case1Tail);
    NoTickConcat(Case1Head, Case1Text);
    NoTickConcat(Case1Head + Case1Text, Case1Iso);
    NoTickConcat(Case1Head + Case1Text + Case1Iso, Case1Type);
    NoTickConcat(Case1Head + Case1Text + Case1Iso + Case1Type, Case1Summary);
    NoTickConcat(Case1Head + Case1Text + Case1Iso + Case1Type + Case1Summary, Case1File);
    NoTickConcat(Case1Head + Case1Text + Case1Iso + Case1Type + Case1Summary + Case1File, Case1Page);
    NoTickConcat(Case1Head + Case1Text + Case1Iso + Case1Type + Case1Summary + Case1File
      + Case1Page, Case1Section);
    NoTickConcat(Case1Head + Case1Text + Case1Iso + Case1Type + Case1Summary + Case1File
      + Case1Page + Case1Section, Case1Confidence);
    NoTickConcat(Case1Head + Case1Text + Case1Iso + Case1Type + Case1Summary + Case1File
      + Case1Page + Case1Section + Case1Confidence, Case1Extra);
    NoTickConcat(Case1Head + Case1Text + Case1Iso + Case1Type + Case1Summary + Case1File
      + Case1Page + Case1Section + Case1Confidence + Case1Extra, Case1Tail);
    assert Case1Body[0] == '{';
    assert Case1Body[|Case1Body| - 1] == '}';
    FencedJsonCleaned(Case1Body);
  }

  /** What `JSON.parse` makes of `Case1Body`. */
  const Case1Item := JObj([
    (DateTextKey, JStr("2024年3月1日")),
    (DateIsoKey, JStr("2024-03-01")),
    (TypeKey, JStr("deadline")),
    (SummaryKey, JStr("繳交合約截止日")),
    (SourceFileKey, JStr("")),
    (PageKey, JNum(Number("2"))),
    (SectionKey, JStr("付款條款")),
    (ConfidenceKey, JNum(Number("0.9"))),
    ("extra", JStr("should be ignored"))])

  const Case1Json := JObj([(ItemsKey, JArr([Case1Item]))])

  const Case1Expected := DateEvent(
    "2024年3月1日", Some("2024-03-01"), Deadline, "繳交合約截止日", Source,
    Some(Number("2")), Some("付款條款"), Some(Number("0.9")))

  /** The candidate's allow-listed members, as property access reads them. */
  lemma Case1Members()
    ensures AllowListed(Case1Item) == Candidate(
      Some(JStr("2024年3月1日")), Some(JStr("2024-03-01")), Some(JStr("deadline")),
      Some(JStr("繳交合約截止日")), Some(JStr("")), Some(JNum(Number("2"))),
      Some(JStr("付款條款")), Some(JNum(Number("0.9"))))
  {
    var f := Case1Item.fields;
    LookupAt(f, 0, DateTextKey);
    LookupAt(f, 1, DateIsoKey);
    LookupAt(f, 2, TypeKey);
    LookupAt(f, 3, SummaryKey);
    LookupAt(f, 4, SourceFileKey);
    LookupAt(f, 5, PageKey);
    LookupAt(f, 6, SectionKey);
    LookupAt(f, 7, ConfidenceKey);
  }

  lemma Case1Normalized(parse: string -> Option<Json>)
    requires parse(Case1Body) == Some(Case1Json)
    ensures Normalize(Case1Raw, parse) == Returned(Some([Case1Item]))
  {
    Case1Cleaned();
    LookupAt(Case1Json.fields, 0, ItemsKey);
  }

  /** The sanitized form of the item: `extra` dropped, the empty `source_file` replaced
      by the upload's name. */
  lemma Case1Sanitized()
    ensures SanitizeItem(Case1Item, Source) == Case1Expected
  {
    Case1Members();
    TrimOfTight("2024-03-01");
    TrimOfTight("付款條款");
    assert Trim("") == "";
  }

  /** Test 1: the fenced object is unwrapped and its one item sanitized. */
  lemma Case1Validates(parse: string -> Option<Json>)
    requires parse(Case1Body) == Some(Case1Json)
    ensures Validate(Text(Case1Raw), Source, parse) == Returned(Some([Case1Expected]))
  {
    Case1Normalized(parse);
    Case1Sanitized();
    SingleItemValidates(Case1Raw, Source, parse, Case1Item, Case1Expected);
  }

  lemma ListValidates(raw: string, sourceFile: string, parse: string -> Option<Json>, xs: seq<Json>)
    requires Normalize(raw, parse) == Returned(Some(xs))
    ensures Validate(Text(raw), sourceFile, parse) == Returned(Some(Sanitize(xs, sourceFile)))
  {
  }

  lemma SingleItemValidates(raw: string, sourceFile: string, parse: string -> Option<Json>, x: Json, e: DateEvent)
    requires Normalize(raw, parse) == Returned(Some([x]))
    requires SanitizeItem(x, sourceFile) == e
    ensures Validate(Text(raw), sourceFile, parse) == Returned(Some([e]))
  {
    ListValidates(raw, sourceFile, parse, [x]);
    assert Sanitize([x], sourceFile) == [e];
  }

  const Case2Raw := "{\"foo\":\"bar\",\"items\":\"not-array\"}"

  const Case2Json := JObj([("foo", JStr("bar")), (ItemsKey, JStr("not-array"))])

  lemma Case2Cleaned()
    ensures Clean(Case2Raw) == Case2Raw
  {
    assert forall i :: 0 <= i < |Case2Raw| ==> Case2Raw[i] != '`';
    TrimOfTight(Case2Raw);
  }

  /** Test 2: an `items` member that is not an array makes the output invalid. */
  lemma Case2Rejected(parse: string -> Option<Json>)
    requires parse(Case2Raw) == Some(Case2Json)
    ensures Validate(Text(Case2Raw), Source, parse) == Returned(None)
  {
    Case2Cleaned();
    LookupAt(Case2Json.fields, 1, ItemsKey);
    NonListRejected(Case2Raw, Source, parse, Case2Json.fields);
  }

  /** An object whose `items` member is there but not an array is not a valid answer. */
  lemma NonListRejected(raw: string, sourceFile: string, parse: string -> Option<Json>,
                        fields: seq<(string, Json)>)
    requires parse(Clean(raw)) == Some(JObj(fields))
    requires Lookup(fields, ItemsKey).Some? && !Lookup(fields, ItemsKey).value.JArr?
    ensures Validate(Text(raw), sourceFile, parse) == Returned(None)
  {
  }

  /** ... and in a run, that reply is sent back once for repair. */
  lemma Case2Repaired(s: Settings, doc: Document, chat: Request -> Reply, parse: string -> Option<Json>)
    requires HasApiKey(s) && doc.sourceFile == Source
    requires parse(Case2Raw) == Some(Case2Json)
    requires chat(ExtractionRequest(s, doc)) == Answered(Case2Raw)
    ensures RunWithRepair(s, doc, chat, parse).sent
              == [ExtractionRequest(s, doc), RepairRequest(s, Case2Raw, SchemaDescription)]
  {
    Case2Rejected(parse);
  }

  const EmptyFenced := FencedJson("[]")

  lemma EmptyFencedCleaned()
    ensures Clean(EmptyFenced) == "[]"
  {
    assert NoTick("[]");
    FencedJsonCleaned("[]");
  }

  lemma EmptyFencedValidates(sourceFile: string, parse: string -> Option<Json>)
    requires parse("[]") == Some(JArr([]))
    ensures Validate(Text(EmptyFenced), sourceFile, parse) == Returned(Some([]))
  {
    EmptyFencedCleaned();
    ListValidates(EmptyFenced, sourceFile, parse, []);
    assert Sanitize([], sourceFile) == [];
  }

  /** A fenced empty list is a valid answer: no items, and no repair. */
  lemma EmptyListAccepted(s: Settings, doc: Document, chat: Request -> Reply, parse: string -> Option<Json>)
    requires HasApiKey(s)
    requires parse("[]") == Some(JArr([]))
    requires chat(ExtractionRequest(s, doc)) == Answered(EmptyFenced)
    ensures RunWithRepair(s, doc, chat, parse) == Run([ExtractionRequest(s, doc)], Returned([]))
  {
    EmptyFencedValidates(doc.sourceFile, parse);
    ValidFirstReplyReturned(s, doc, chat, parse, EmptyFenced, []);
  }
}
