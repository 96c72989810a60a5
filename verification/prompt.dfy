/**
 The requests the pipeline sends to the chat-completions endpoint: the extraction
 prompt that `callLLM` assembles (backend/server.js) and the repair prompt of
 `repairLLMOutput`.
 */
module Prompts {
  import opened Base
  import opened Strings

  /** `DOC_CHAR_LIMIT` when the environment does not set it. */
  const DefaultDocCharLimit := 12000

  /** Only the first pages get a hint line, and each hint only the start of its page. */
  const MaxPageHints := 8
  const PageHintChars := 800

  const DefaultEndpoint := "https://api.openai.com/v1/chat/completions"
  const DefaultModel := "gpt-4o-mini"

  /** The output schema, as the prompt spells it out to the model. */
  const SchemaDescription :=
    "{\"items\":[{\"date_text\":\"string\",\"date_iso\":\"string|null\",\"type\":\"start|end|deadline|sign|payment|other\",\"summary\":\"string\",\"source_file\":\"string\",\"page\":number|null,\"section\":\"string|null\",\"confidence\":number|null}]}"

  /** The instruction used when no prompt file could be loaded. */
  const DefaultInstruction := "請僅依據文件內容輸出符合 schema 的 JSON，找不到日期請輸出 {\"items\":[] }，勿回解釋。"
  const ExtractionSystem := "你是文件關鍵日期抽取助手，僅輸出 JSON 物件，遵守指定 schema，禁止多餘解釋。"
  const BodyHeading := "文件正文："
  const HintHeading := "頁面提示（僅供參考，可忽略重複片段）："
  const HintSeparator := "\n---\n"
  const PartSeparator := "\n\n"

  const RepairSystem := "你是 JSON 修復助手，僅輸出符合指定 schema 的 JSON，禁止加入新資訊，無法修復時請輸出 {\"items\":[]}"
  const RepairIntro := "以下是模型剛才的輸出，可能不是合法 JSON，請修復為合法且符合 schema 的 JSON。"
  const RepairRule := "不得臆測或新增原本沒有的事件，無法修復就回 {\"items\":[]}"
  const RawHeading := "原始輸出："

  /** The server's configuration. An environment variable is `None` when unset; the
      prompt file's text is `""` when it could not be read. `docCharLimit` is the number
      `DOC_CHAR_LIMIT` denotes, `None` when the variable is unset or empty. */
  datatype Settings = Settings(
    apiKey: Option<string>,
    apiUrl: Option<string>,
    modelName: Option<string>,
    docCharLimit: Option<int>,
    datePrompt: string)

  /** `Number(process.env.DOC_CHAR_LIMIT || 12000)`. */
  function DocCharLimit(s: Settings): int
  {
    if s.docCharLimit.Some? then s.docCharLimit.value else DefaultDocCharLimit
  }

  /** What text extraction hands to the pipeline: the whole text, the text of each page
      (none for DOCX and TXT) and the upload's original name. */
  datatype Document = Document(text: string, pages: seq<string>, sourceFile: string)

  /** One POST to the chat-completions endpoint: where, which model, the `Authorization`
      header, and the system and user messages. */
  datatype Request = Request(endpoint: string, model: string, authorization: string, system: string, user: string)

  /** `env || fallback`: an unset or empty variable takes the fallback. */
  function EnvOr(v: Option<string>, fallback: string): (r: string)
    ensures v.Some? && v.value != "" ==> r == v.value
    ensures v.None? || v.value == "" ==> r == fallback
  {
    if v.Some? && v.value != "" then v.value else fallback
  }

  /** `!apiKey` is false. */
  predicate HasApiKey(s: Settings)
  {
    s.apiKey.Some? && s.apiKey.value != ""
  }

  function Endpoint(s: Settings): string { EnvOr(s.apiUrl, DefaultEndpoint) }

  function Model(s: Settings): string { EnvOr(s.modelName, DefaultModel) }

  /** `Bearer ${apiKey}`: an unset key renders as `undefined`. */
  function Authorization(s: Settings): string
  {
    "Bearer " + (if s.apiKey.Some? then s.apiKey.value else "undefined")
  }

  /** Where `slice(0, end)` stops in a string of length `len`: a negative end counts
      back from the end, and no end lies beyond the string. */
  function SliceEnd(end: int, len: nat): (k: nat)
    ensures k <= len
    ensures 0 <= end ==> k == Min(end, len)
    ensures end < 0 ==> k == if len + end < 0 then 0 else len + end
  {
    if end < 0 then (if len + end < 0 then 0 else len + end)
    else if end < len then end
    else len
  }

  /** `text.slice(0, limit)`: the start of `text`, as long as the limit allows. */
  function TruncateText(text: string, limit: int): (r: string)
    ensures r <= text
    ensures 0 <= limit ==> |r| == Min(|text|, limit)
    ensures limit < 0 ==> |r| == (if |text| + limit < 0 then 0 else |text| + limit)
    ensures 0 <= limit <= |text| ==> text == r + text[limit..]
  {
    text[..SliceEnd(limit, |text|)]
  }

  /** The label in front of a page hint, `n` counting from one. */
  function HintLabel(n: nat): string
  {
    "頁碼 " + NatToString(n) + ": "
  }

  /** The hint lines of the first pages: each is its page's label followed by the start
      of that page. */
  function PageHints(pages: seq<string>): (r: seq<string>)
    ensures |r| == Min(|pages|, MaxPageHints)
    ensures forall i :: 0 <= i < |r| ==>
              && HintLabel(i + 1) <= r[i]
              && r[i][|HintLabel(i + 1)|..] <= pages[i]
              && |r[i]| - |HintLabel(i + 1)| == Min(|pages[i]|, PageHintChars)
  {
    seq(Min(|pages|, MaxPageHints), i requires 0 <= i < Min(|pages|, MaxPageHints) =>
      HintLabel(i + 1) + TruncateText(pages[i], PageHintChars))
  }

  /** `Schema: ${schema}`, which both prompts carry. */
  function SchemaLine(schema: string): string
  {
    "Schema: " + schema
  }

  function LengthLine(kept: nat, total: nat): string
  {
    "內容長度: " + NatToString(kept) + " / " + NatToString(total) + " (可能已截斷)"
  }

  /** The parts of the extraction prompt, before they are joined by blank lines. */
  function PromptParts(s: Settings, doc: Document): (parts: seq<string>)
    ensures |parts| == if |doc.pages| > 0 then 8 else 6
    ensures parts[1] == SchemaLine(SchemaDescription)
    ensures parts[2] == "檔名: " + doc.sourceFile
    ensures parts[5] <= doc.text
    ensures 0 <= DocCharLimit(s) ==> |parts[5]| == Min(|doc.text|, DocCharLimit(s))
    ensures parts[3] == LengthLine(|parts[5]|, |doc.text|)
    ensures |doc.pages| > 0 ==> parts[6] == HintHeading && parts[7] == Join(PageHints(doc.pages), HintSeparator)
  {
    var trimmed := TruncateText(doc.text, DocCharLimit(s));
    var hints := Join(PageHints(doc.pages), HintSeparator);
    var base := [
      EnvOr(Some(s.datePrompt), DefaultInstruction),
      SchemaLine(SchemaDescription),
      "檔名: " + doc.sourceFile,
      LengthLine(|trimmed|, |doc.text|),
      BodyHeading,
      trimmed
    ];
    if |doc.pages| > 0 then
      assert HintLabel(1) <= PageHints(doc.pages)[0] <= hints;
      base + [HintHeading, hints]
    else base
  }

  /** The extraction request `callLLM` posts, once it has an API key. Its user message
      opens with the instruction (the prompt file's text, or the built-in one when that is
      empty) and closes with the page hints, or with the truncated text when the document
      has no pages. */
  function ExtractionRequest(s: Settings, doc: Document): (r: Request)
    ensures r.endpoint == Endpoint(s) && r.model == Model(s) && r.system == ExtractionSystem
    ensures r.user == Join(PromptParts(s, doc), PartSeparator)
    ensures s.datePrompt != "" ==> s.datePrompt <= r.user
    ensures s.datePrompt == "" ==> DefaultInstruction <= r.user
    ensures |doc.pages| == 0 ==> EndsWith(r.user, TruncateText(doc.text, DocCharLimit(s)))
    ensures |doc.pages| > 0 ==> EndsWith(r.user, Join(PageHints(doc.pages), HintSeparator))
  {
    var parts := PromptParts(s, doc);
    assert parts[|parts| - 1] == if |doc.pages| > 0 then parts[7] else parts[5];
    JoinEndsWithLast(parts, PartSeparator);
    Request(Endpoint(s), Model(s), Authorization(s), ExtractionSystem, Join(parts, PartSeparator))
  }

  /** The parts of the repair prompt: instructions, the schema and the rejected output. */
  function RepairParts(raw: string, schema: string): (parts: seq<string>)
    ensures |parts| == 5 && parts[2] == SchemaLine(schema) && parts[4] == raw
  {
    [RepairIntro, RepairRule, SchemaLine(schema), RawHeading, raw]
  }

  /** The request `repairLLMOutput` posts. */
  function RepairRequest(s: Settings, raw: string, schema: string): (r: Request)
    ensures r.endpoint == Endpoint(s) && r.model == Model(s)
    ensures r.user == Join(RepairParts(raw, schema), PartSeparator)
  {
    Request(Endpoint(s), Model(s), Authorization(s), RepairSystem, Join(RepairParts(raw, schema), PartSeparator))
  }

  /** Both requests go to the same place with the same credentials: the configured
      endpoint and model unless unset or empty, and `Bearer` followed by the key. */
  lemma RequestsShareConnection(s: Settings, doc: Document, raw: string, schema: string)
    ensures var x, y := ExtractionRequest(s, doc), RepairRequest(s, raw, schema);
            && x.endpoint == y.endpoint && x.model == y.model && x.authorization == y.authorization
            && (s.apiUrl.Some? && s.apiUrl.value != "" ==> x.endpoint == s.apiUrl.value)
            && (s.apiUrl.None? || s.apiUrl == Some("") ==> x.endpoint == DefaultEndpoint)
            && (s.modelName.Some? && s.modelName.value != "" ==> x.model == s.modelName.value)
            && (s.modelName.None? || s.modelName == Some("") ==> x.model == DefaultModel)
            && (HasApiKey(s) ==> x.authorization == "Bearer " + s.apiKey.value)
  {
  }

  /** The rejected output reaches the repair prompt verbatim, after a preamble that does
      not depend on it. */
  lemma RepairAppendsRaw(s: Settings, raw: string, schema: string)
    ensures RepairRequest(s, raw, schema).user == RepairRequest(s, "", schema).user + raw
  {
    var head := [RepairIntro, RepairRule, SchemaLine(schema), RawHeading];
    assert RepairParts(raw, schema) == head + [raw];
    assert RepairParts("", schema) == head + [""];
    JoinSnoc(head, raw, PartSeparator);
    JoinSnoc(head, "", PartSeparator);
  }

  /** Different rejected outputs make different repair requests. */
  lemma RepairRequestInjective(s: Settings, a: string, b: string, schema: string)
    ensures RepairRequest(s, a, schema) == RepairRequest(s, b, schema) ==> a == b
  {
    RepairAppendsRaw(s, a, schema);
    RepairAppendsRaw(s, b, schema);
    var p := RepairRequest(s, "", schema).user;
    assert (p + a)[|p|..] == a && (p + b)[|p|..] == b;
  }

  /** The two prompts describe the schema in the same words. */
  lemma SchemaLineShared(s: Settings, doc: Document, raw: string)
    ensures PromptParts(s, doc)[1] == RepairParts(raw, SchemaDescription)[2]
  {
  }

  /** Pages past the eighth never reach the model. */
  lemma {:induction false} LaterPagesIgnored(s: Settings, doc: Document, extra: seq<string>)
    requires |doc.pages| >= MaxPageHints
    ensures ExtractionRequest(s, doc.(pages := doc.pages + extra)) == ExtractionRequest(s, doc)
  {
    var more := doc.(pages := doc.pages + extra);
    assert PageHints(more.pages) == PageHints(doc.pages);
  }

  /** Of text beyond the limit, only its length reaches the model. */
  lemma TextPastLimitIgnored(s: Settings, doc: Document, tail: string)
    requires 0 <= DocCharLimit(s) <= |doc.text|
    ensures var longer := doc.(text := doc.text + tail);
            PromptParts(s, longer)
              == PromptParts(s, doc)[3 := LengthLine(DocCharLimit(s), |doc.text| + |tail|)]
  {
    var longer := doc.(text := doc.text + tail);
    assert TruncateText(longer.text, DocCharLimit(s)) == TruncateText(doc.text, DocCharLimit(s));
  }
}
