/**
 The item sanitizer (`sanitizeItems`, backend/server.js): an allow-list coercion of
 each untrusted candidate into a Date-Event with exactly eight typed fields.
 */
module Sanitizer {
  import opened Base
  import opened Strings
  import opened JsonValues

  const DateTextKey := "date_text"
  const DateIsoKey := "date_iso"
  const TypeKey := "type"
  const SummaryKey := "summary"
  const SourceFileKey := "source_file"
  const PageKey := "page"
  const SectionKey := "section"
  const ConfidenceKey := "confidence"

  /** The only keys a sanitized item carries; everything else is dropped. */
  const AllowedKeys: set<string> :=
    {DateTextKey, DateIsoKey, TypeKey, SummaryKey, SourceFileKey, PageKey, SectionKey, ConfidenceKey}

  datatype EventType = Start | End | Deadline | Sign | Payment | Other

  /** The spelling of each event type on the wire. */
  function TypeName(t: EventType): string
  {
    match t
    case Start => "start"
    case End => "end"
    case Deadline => "deadline"
    case Sign => "sign"
    case Payment => "payment"
    case Other => "other"
  }

  /** Membership in `allowedTypes`: the type a string names, if any. */
  function ParseType(s: string): (r: Option<EventType>)
    ensures r.Some? ==> TypeName(r.value) == s
    ensures r.None? ==> forall t :: TypeName(t) != s
  {
    if s == "start" then Some(Start)
    else if s == "end" then Some(End)
    else if s == "deadline" then Some(Deadline)
    else if s == "sign" then Some(Sign)
    else if s == "payment" then Some(Payment)
    else if s == "other" then Some(Other)
    else None
  }

  /** A sanitized, trusted Date-Event. `None` is JSON `null`. */
  datatype DateEvent = DateEvent(
    dateText: string,
    dateIso: Option<string>,
    kind: EventType,
    summary: string,
    sourceFile: string,
    page: Option<Number>,
    section: Option<string>,
    confidence: Option<Number>)

  /** A non-empty string that starts and ends with a non-space character. */
  predicate Tight(s: string)
  {
    s != [] && !IsSpace(s[0]) && !IsSpace(s[|s| - 1])
  }

  /** What every sanitized item satisfies, for the upload named `sourceFile`. */
  predicate WellFormed(e: DateEvent, sourceFile: string)
  {
    && (e.dateIso.Some? ==> Tight(e.dateIso.value))
    && (e.section.Some? ==> Tight(e.section.value))
    && (Tight(e.sourceFile) || e.sourceFile == sourceFile)
  }

  lemma TrimOfTight(s: string)
    requires Tight(s)
    ensures Trim(s) == s
  {
    assert s[0..|s|] == s;
    assert TrimWindow(s, 0, |s|);
    TrimCharacterized(s, s);
  }

  lemma TrimIsTight(s: string)
    requires Trim(s) != ""
    ensures Tight(Trim(s))
  {
    var r := Trim(s);
    var i, j :| TrimWindow(s, i, j) && r == s[i..j];
  }

  /** The eight values `item?.date_text`, `item?.date_iso`, ... that the sanitizer reads:
      the allow-list. `None` is `undefined`. */
  datatype Candidate = Candidate(
    dateText: Option<Json>,
    dateIso: Option<Json>,
    kind: Option<Json>,
    summary: Option<Json>,
    sourceFile: Option<Json>,
    page: Option<Json>,
    section: Option<Json>,
    confidence: Option<Json>)

  function AllowListed(item: Json): Candidate
  {
    Candidate(
      Get(item, DateTextKey), Get(item, DateIsoKey), Get(item, TypeKey), Get(item, SummaryKey),
      Get(item, SourceFileKey), Get(item, PageKey), Get(item, SectionKey), Get(item, ConfidenceKey))
  }

  /** `typeof v === "string" && v.trim() ? v.trim() : null`. */
  function TrimmedOrNull(v: Option<Json>): (r: Option<string>)
    ensures r.Some? <==> v.Some? && v.value.JStr? && Trim(v.value.s) != ""
    ensures r.Some? ==> Tight(r.value) && IsTrimOf(r.value, v.value.s)
  {
    if v.Some? && v.value.JStr? && Trim(v.value.s) != "" then
      TrimIsTight(v.value.s);
      Some(Trim(v.value.s))
    else None
  }

  /** `typeof v === "string" ? v : ""`. */
  function StringOrEmpty(v: Option<Json>): (r: string)
    ensures v.Some? && v.value.JStr? ==> r == v.value.s
    ensures !(v.Some? && v.value.JStr?) ==> r == ""
  {
    match v case Some(JStr(s)) => s case _ => ""
  }

  /** `typeof v === "number" ? v : null`: a numeric string is not a number. */
  function NumberOrNull(v: Option<Json>): (r: Option<Number>)
    ensures r.Some? <==> v.Some? && v.value.JNum?
    ensures r.Some? ==> v == Some(JNum(r.value))
  {
    match v case Some(JNum(n)) => Some(n) case _ => None
  }

  /** `allowedTypes.has(v) ? v : "other"`. */
  function TypeOrOther(v: Option<Json>): (t: EventType)
    ensures forall t' :: v == Some(JStr(TypeName(t'))) ==> t == t'
    ensures t != Other ==> v == Some(JStr(TypeName(t)))
  {
    match v
    case Some(JStr(s)) => (match ParseType(s) case Some(t) => t case None => Other)
    case _ => Other
  }

  /** The object literal of `sanitizeItems`, built from the allow-listed values. */
  function Coerce(c: Candidate, sourceFile: string): DateEvent
  {
    var named := TrimmedOrNull(c.sourceFile);
    DateEvent(
      dateText := StringOrEmpty(c.dateText),
      dateIso := TrimmedOrNull(c.dateIso),
      kind := TypeOrOther(c.kind),
      summary := StringOrEmpty(c.summary),
      sourceFile := if named.Some? then named.value else sourceFile,
      page := NumberOrNull(c.page),
      section := TrimmedOrNull(c.section),
      confidence := NumberOrNull(c.confidence))
  }

  /** One candidate, coerced field by field; `sourceFile` is the uploaded file's name.
      Each field is stated through the `typeof` reading of its member. */
  function SanitizeItem(item: Json, sourceFile: string): (e: DateEvent)
    ensures WellFormed(e, sourceFile)
    ensures e.dateText == (if GetString(item, DateTextKey).Some? then GetString(item, DateTextKey).value else "")
    ensures e.summary == (if GetString(item, SummaryKey).Some? then GetString(item, SummaryKey).value else "")
    ensures e.dateIso == TrimmedOrNull(Get(item, DateIsoKey))
    ensures e.section == TrimmedOrNull(Get(item, SectionKey))
    ensures e.kind != Other ==> GetString(item, TypeKey) == Some(TypeName(e.kind))
    ensures forall t :: GetString(item, TypeKey) == Some(TypeName(t)) ==> e.kind == t
    ensures TrimmedOrNull(Get(item, SourceFileKey)).None? ==> e.sourceFile == sourceFile
    ensures TrimmedOrNull(Get(item, SourceFileKey)).Some? ==>
              e.sourceFile == TrimmedOrNull(Get(item, SourceFileKey)).value
    ensures e.page == GetNumber(item, PageKey)
    ensures e.confidence == GetNumber(item, ConfidenceKey)
  {
    Coerce(AllowListed(item), sourceFile)
  }

  /** `sanitizeItems`: `items.map(...)`. */
  function Sanitize(items: seq<Json>, sourceFile: string): (r: seq<DateEvent>)
    ensures |r| == |items|
    ensures forall i :: 0 <= i < |items| ==> r[i] == SanitizeItem(items[i], sourceFile)
  {
    if items == [] then []
    else [SanitizeItem(items[0], sourceFile)] + Sanitize(items[1..], sourceFile)
  }

  function OptionalString(x: Option<string>): Json
  {
    match x case Some(s) => JStr(s) case None => JNull
  }

  function OptionalNumber(x: Option<Number>): Json
  {
    match x case Some(n) => JNum(n) case None => JNull
  }

  /** The object literal `sanitizeItems` builds, members in the order it writes them. */
  function ToJson(e: DateEvent): (r: Json)
    ensures r.JObj? && |r.fields| == 8
    ensures Keys(r.fields) == AllowedKeys
  {
    var fields := [
      (DateTextKey, JStr(e.dateText)),
      (DateIsoKey, OptionalString(e.dateIso)),
      (TypeKey, JStr(TypeName(e.kind))),
      (SummaryKey, JStr(e.summary)),
      (SourceFileKey, JStr(e.sourceFile)),
      (PageKey, OptionalNumber(e.page)),
      (SectionKey, OptionalString(e.section)),
      (ConfidenceKey, OptionalNumber(e.confidence))];
    assert fields[0].0 in Keys(fields) && fields[1].0 in Keys(fields) && fields[2].0 in Keys(fields);
    assert fields[3].0 in Keys(fields) && fields[4].0 in Keys(fields) && fields[5].0 in Keys(fields);
    assert fields[6].0 in Keys(fields) && fields[7].0 in Keys(fields);
    JObj(fields)
  }

  /** Reading the object `ToJson` builds gives back each field. */
  lemma ToJsonMembers(e: DateEvent)
    ensures Get(ToJson(e), DateTextKey) == Some(JStr(e.dateText))
    ensures Get(ToJson(e), DateIsoKey) == Some(OptionalString(e.dateIso))
    ensures Get(ToJson(e), TypeKey) == Some(JStr(TypeName(e.kind)))
    ensures Get(ToJson(e), SummaryKey) == Some(JStr(e.summary))
    ensures Get(ToJson(e), SourceFileKey) == Some(JStr(e.sourceFile))
    ensures Get(ToJson(e), PageKey) == Some(OptionalNumber(e.page))
    ensures Get(ToJson(e), SectionKey) == Some(OptionalString(e.section))
    ensures Get(ToJson(e), ConfidenceKey) == Some(OptionalNumber(e.confidence))
  {
    var fs := ToJson(e).fields;
    LookupAt(fs, 0, DateTextKey);
    LookupAt(fs, 1, DateIsoKey);
    LookupAt(fs, 2, TypeKey);
    LookupAt(fs, 3, SummaryKey);
    LookupAt(fs, 4, SourceFileKey);
    LookupAt(fs, 5, PageKey);
    LookupAt(fs, 6, SectionKey);
    LookupAt(fs, 7, ConfidenceKey);
  }

  /** The default item: what a candidate that is not an object becomes. */
  function DefaultEvent(sourceFile: string): DateEvent
  {
    DateEvent("", None, Other, "", sourceFile, None, None, None)
  }

  lemma NonObjectGetsDefaults(item: Json, sourceFile: string)
    requires !item.JObj?
    ensures SanitizeItem(item, sourceFile) == DefaultEvent(sourceFile)
  {
  }

  /** Allow-list: a candidate's sanitized form depends on the eight listed keys only. */
  lemma OnlyAllowedKeysMatter(a: Json, b: Json, sourceFile: string)
    requires forall k :: k in AllowedKeys ==> Get(a, k) == Get(b, k)
    ensures SanitizeItem(a, sourceFile) == SanitizeItem(b, sourceFile)
  {
    assert AllowListed(a) == AllowListed(b);
  }

  /** A member under any key outside the allow-list (an `extra`, say) is dropped. */
  lemma ExtraMemberDropped(fields: seq<(string, Json)>, key: string, v: Json, sourceFile: string)
    requires key !in AllowedKeys
    ensures SanitizeItem(JObj(fields + [(key, v)]), sourceFile) == SanitizeItem(JObj(fields), sourceFile)
  {
    forall k | k in AllowedKeys
      ensures Get(JObj(fields + [(key, v)]), k) == Get(JObj(fields), k)
    {
      LookupIgnoresOtherKey(fields, key, v, k);
    }
    OnlyAllowedKeysMatter(JObj(fields + [(key, v)]), JObj(fields), sourceFile);
  }

  /** An upload name that sanitizing leaves alone: already trimmed, or blank. */
  predicate StableName(sourceFile: string)
  {
    Trim(sourceFile) == sourceFile || Trim(sourceFile) == ""
  }

  /** A sanitized optional string survives a second coercion. */
  lemma OptionalStringStable(x: Option<string>)
    requires x.Some? ==> Tight(x.value)
    ensures TrimmedOrNull(Some(OptionalString(x))) == x
  {
    if x.Some? {
      TrimOfTight(x.value);
    }
  }

  /** A sanitized `source_file` survives a second pass, given a trim-stable upload name. */
  lemma SourceFileStable(name: string, sourceFile: string)
    requires StableName(sourceFile)
    requires Tight(name) || name == sourceFile
    ensures var n := TrimmedOrNull(Some(JStr(name)));
            (if n.Some? then n.value else sourceFile) == name
  {
    if Tight(name) {
      TrimOfTight(name);
    }
  }

  /** The allow-listed values of an item's JSON form. */
  function JsonCandidate(e: DateEvent): Candidate
  {
    Candidate(
      Some(JStr(e.dateText)), Some(OptionalString(e.dateIso)), Some(JStr(TypeName(e.kind))),
      Some(JStr(e.summary)), Some(JStr(e.sourceFile)), Some(OptionalNumber(e.page)),
      Some(OptionalString(e.section)), Some(OptionalNumber(e.confidence)))
  }

  lemma ToJsonAllowListed(e: DateEvent)
    ensures AllowListed(ToJson(e)) == JsonCandidate(e)
  {
    ToJsonMembers(e);
  }

  /** `Coerce` gives `e` once each field's coercion does. */
  lemma CoerceExactly(c: Candidate, sourceFile: string, e: DateEvent)
    requires StringOrEmpty(c.dateText) == e.dateText && StringOrEmpty(c.summary) == e.summary
    requires TrimmedOrNull(c.dateIso) == e.dateIso && TrimmedOrNull(c.section) == e.section
    requires TypeOrOther(c.kind) == e.kind
    requires NumberOrNull(c.page) == e.page && NumberOrNull(c.confidence) == e.confidence
    requires (if TrimmedOrNull(c.sourceFile).Some? then TrimmedOrNull(c.sourceFile).value else sourceFile)
               == e.sourceFile
    ensures Coerce(c, sourceFile) == e
  {
  }

  /** An event type written out reads back as itself. */
  lemma TypeNameRead(t: EventType)
    ensures TypeOrOther(Some(JStr(TypeName(t)))) == t
  {
  }

  /** The fields that are copied, not trimmed, read back as they were written. */
  lemma JsonCandidatePlain(e: DateEvent)
    ensures StringOrEmpty(JsonCandidate(e).dateText) == e.dateText
    ensures StringOrEmpty(JsonCandidate(e).summary) == e.summary
    ensures TypeOrOther(JsonCandidate(e).kind) == e.kind
    ensures NumberOrNull(JsonCandidate(e).page) == e.page
    ensures NumberOrNull(JsonCandidate(e).confidence) == e.confidence
  {
    TypeNameRead(e.kind);
  }

  /** The trimmed fields of a well-formed item survive a second coercion. */
  lemma JsonCandidateTrims(e: DateEvent, sourceFile: string)
    requires WellFormed(e, sourceFile) && StableName(sourceFile)
    ensures TrimmedOrNull(JsonCandidate(e).dateIso) == e.dateIso
    ensures TrimmedOrNull(JsonCandidate(e).section) == e.section
    ensures var named := TrimmedOrNull(JsonCandidate(e).sourceFile);
            (if named.Some? then named.value else sourceFile) == e.sourceFile
  {
    OptionalStringStable(e.dateIso);
    OptionalStringStable(e.section);
    SourceFileStable(e.sourceFile, sourceFile);
  }

  lemma CoerceJsonCandidate(e: DateEvent, sourceFile: string)
    requires WellFormed(e, sourceFile) && StableName(sourceFile)
    ensures Coerce(JsonCandidate(e), sourceFile) == e
  {
    JsonCandidatePlain(e);
    JsonCandidateTrims(e, sourceFile);
    CoerceExactly(JsonCandidate(e), sourceFile, e);
  }

  /** A well-formed item read back from its JSON form is that item again, given a
      trim-stable upload name. */
  lemma SanitizeToJsonRoundTrip(e: DateEvent, sourceFile: string)
    requires WellFormed(e, sourceFile) && StableName(sourceFile)
    ensures SanitizeItem(ToJson(e), sourceFile) == e
  {
    ToJsonAllowListed(e);
    CoerceJsonCandidate(e, sourceFile);
  }

  /** Sanitizing what sanitizing produced changes nothing. */
  lemma SanitizeItemIdempotent(item: Json, sourceFile: string)
    requires StableName(sourceFile)
    ensures SanitizeItem(ToJson(SanitizeItem(item, sourceFile)), sourceFile) == SanitizeItem(item, sourceFile)
  {
    SanitizeToJsonRoundTrip(SanitizeItem(item, sourceFile), sourceFile);
  }

  /** Without `StableName` the fallback name is re-trimmed on a second pass. */
  lemma UnstableNameNotIdempotent()
    ensures SanitizeItem(ToJson(SanitizeItem(JNull, " a")), " a") != SanitizeItem(JNull, " a")
  {
    var e := SanitizeItem(JNull, " a");
    assert e.sourceFile == " a";
    assert " a"[1..2] == "a";
    assert TrimWindow(" a", 1, 2);
    TrimCharacterized("a", " a");
    ToJsonMembers(e);
    assert GetString(ToJson(e), SourceFileKey) == Some(" a");
    assert SanitizeItem(ToJson(e), " a").sourceFile == "a";
  }

  /** Candidates are sanitized independently: changing one changes only its own output. */
  lemma SanitizeLocal(items: seq<Json>, i: int, x: Json, sourceFile: string)
    requires 0 <= i < |items|
    ensures Sanitize(items[i := x], sourceFile) == Sanitize(items, sourceFile)[i := SanitizeItem(x, sourceFile)]
  {
  }
}
