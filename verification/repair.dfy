/**
 `runLLMWithRepair` (backend/server.js): one extraction call, a validation, and at most
 one repair call when validation yields `null`. The chat-completions endpoint is an
 oracle `chat` from requests to replies.
 */
module Orchestrator {
  import opened Base
  import opened Strings
  import opened JsonValues
  import opened Sanitizer
  import opened Normalizer
  import opened Validator
  import opened Prompts

  /** How a POST to the endpoint ends: an OK response whose message content (or `json`
      member, or `""`) is given, a non-OK status with its body, or a rejected `fetch` or
      unreadable response body. */
  datatype Reply = Answered(content: string) | Rejected(status: int, body: string) | Failed

  /** A call to the endpoint: the requests it posted and how it ended. */
  datatype Call = Call(sent: seq<Request>, outcome: Outcome<string>)

  /** `callLLM`: no request without an API key; a non-OK status is an error. */
  function CallLLM(s: Settings, doc: Document, chat: Request -> Reply): (c: Call)
    ensures !HasApiKey(s) ==> c == Call([], Threw(MissingApiKey))
    ensures HasApiKey(s) ==> c.sent == [ExtractionRequest(s, doc)]
    ensures c.outcome.Returned? <==> HasApiKey(s) && chat(ExtractionRequest(s, doc)).Answered?
    ensures c.outcome.Returned? ==> chat(ExtractionRequest(s, doc)) == Answered(c.outcome.value)
  {
    if !HasApiKey(s) then Call([], Threw(MissingApiKey))
    else
      var req := ExtractionRequest(s, doc);
      match chat(req)
      case Answered(content) => Call([req], Returned(content))
      case Rejected(status, body) => Call([req], Threw(Upstream(status, body)))
      case Failed => Call([req], Threw(Transport))
  }

  /** `repairLLMOutput`: a non-OK status yields the empty string, not an error. */
  function RepairLLMOutput(s: Settings, raw: string, schema: string, chat: Request -> Reply): (c: Call)
    ensures c.sent == [RepairRequest(s, raw, schema)]
    ensures c.outcome.Threw? <==> chat(RepairRequest(s, raw, schema)).Failed?
    ensures c.outcome.Threw? ==> c.outcome.fault == Transport
    ensures chat(RepairRequest(s, raw, schema)).Rejected? ==> c.outcome == Returned("")
    ensures chat(RepairRequest(s, raw, schema)).Answered? ==>
              c.outcome == Returned(chat(RepairRequest(s, raw, schema)).content)
  {
    var req := RepairRequest(s, raw, schema);
    match chat(req)
    case Answered(content) => Call([req], Returned(content))
    case Rejected(_, _) => Call([req], Returned(""))
    case Failed => Call([req], Threw(Transport))
  }

  /** A whole run: the requests posted and the items returned (or the error raised). */
  datatype Run = Run(sent: seq<Request>, outcome: Outcome<seq<DateEvent>>)

  /** `runLLMWithRepair({text, pages, sourceFile})`. */
  function RunWithRepair(s: Settings, doc: Document, chat: Request -> Reply, parse: string -> Option<Json>)
    : (r: Run)
    ensures |r.sent| <= 2
    ensures !HasApiKey(s) ==> r == Run([], Threw(MissingApiKey))
    ensures HasApiKey(s) ==> |r.sent| >= 1 && r.sent[0] == ExtractionRequest(s, doc)
    ensures |r.sent| == 2 ==>
              && chat(r.sent[0]).Answered?
              && Validate(Text(chat(r.sent[0]).content), doc.sourceFile, parse) == Returned(None)
              && r.sent[1] == RepairRequest(s, chat(r.sent[0]).content, SchemaDescription)
    ensures (&& HasApiKey(s) && chat(r.sent[0]).Answered?
             && Validate(Text(chat(r.sent[0]).content), doc.sourceFile, parse) == Returned(None))
            ==> |r.sent| == 2
    ensures r.outcome.Returned? ==> forall e :: e in r.outcome.value ==> WellFormed(e, doc.sourceFile)
    ensures r.outcome == Threw(MissingApiKey) ==> r.sent == []
    ensures r.outcome.Threw? && r.outcome.fault.Upstream? ==> |r.sent| == 1
  {
    var first := CallLLM(s, doc, chat);
    match first.outcome
    case Threw(fault) => Run(first.sent, Threw(fault))
    case Returned(raw) =>
      match Validate(Text(raw), doc.sourceFile, parse)
      case Threw(fault) => Run(first.sent, Threw(fault))
      case Returned(Some(items)) => Run(first.sent, Returned(items))
      case Returned(None) =>
        var second := RepairLLMOutput(s, raw, SchemaDescription, chat);
        var sent := first.sent + second.sent;
        match second.outcome
        case Threw(fault) => Run(sent, Threw(fault))
        case Returned(repaired) =>
          match Validate(Text(repaired), doc.sourceFile, parse)
          case Threw(fault) => Run(sent, Threw(fault))
          case Returned(Some(items)) => Run(sent, Returned(items))
          case Returned(None) => Run(sent, Returned([]))
  }

  /** A first call that fails ends the run with its error: nothing is repaired and no
      items are returned. */
  lemma FirstCallFaultPropagates(s: Settings, doc: Document, chat: Request -> Reply,
                                 parse: string -> Option<Json>)
    requires HasApiKey(s)
    ensures var reply := chat(ExtractionRequest(s, doc));
            var r := RunWithRepair(s, doc, chat, parse);
            && (reply.Rejected? ==> r == Run([ExtractionRequest(s, doc)], Threw(Upstream(reply.status, reply.body))))
            && (reply.Failed? ==> r == Run([ExtractionRequest(s, doc)], Threw(Transport)))
  {
  }

  /** A first reply that parses to JSON `null` makes the run throw `TypeError`, with no
      repair call. */
  lemma NullReplyThrows(s: Settings, doc: Document, chat: Request -> Reply,
                        parse: string -> Option<Json>, raw: string)
    requires HasApiKey(s)
    requires chat(ExtractionRequest(s, doc)) == Answered(raw)
    requires parse(Clean(raw)) == Some(JNull)
    ensures RunWithRepair(s, doc, chat, parse) == Run([ExtractionRequest(s, doc)], Threw(TypeError))
  {
  }

  /** Output that validates on the first attempt is returned as validated, with no
      repair call. */
  lemma ValidFirstReplyReturned(s: Settings, doc: Document, chat: Request -> Reply,
                                parse: string -> Option<Json>, raw: string, items: seq<DateEvent>)
    requires HasApiKey(s)
    requires chat(ExtractionRequest(s, doc)) == Answered(raw)
    requires Validate(Text(raw), doc.sourceFile, parse) == Returned(Some(items))
    ensures RunWithRepair(s, doc, chat, parse) == Run([ExtractionRequest(s, doc)], Returned(items))
  {
  }

  /** A first reply that is not JSON at all validates to `[]`, not `null`, so it is
      never repaired: the run returns no items after a single call. */
  lemma UnparseableFirstReplyNotRepaired(s: Settings, doc: Document, chat: Request -> Reply,
                                         parse: string -> Option<Json>, raw: string)
    requires HasApiKey(s)
    requires chat(ExtractionRequest(s, doc)) == Answered(raw)
    requires parse(Clean(raw)).None?
    ensures RunWithRepair(s, doc, chat, parse) == Run([ExtractionRequest(s, doc)], Returned([]))
  {
    assert Sanitize([], doc.sourceFile) == [];
  }

  /** The outcome of a run that had to repair, by how the repair call ended: a failed
      fetch and a repaired reply that parses to JSON `null` both end it with an error. */
  lemma RepairOutcome(s: Settings, doc: Document, chat: Request -> Reply,
                      parse: string -> Option<Json>, raw: string)
    requires HasApiKey(s)
    requires chat(ExtractionRequest(s, doc)) == Answered(raw)
    requires Validate(Text(raw), doc.sourceFile, parse) == Returned(None)
    ensures var r := RunWithRepair(s, doc, chat, parse);
            var fix := RepairRequest(s, raw, SchemaDescription);
            && r.sent == [ExtractionRequest(s, doc), fix]
            && (chat(fix).Failed? ==> r.outcome == Threw(Transport))
            && ((chat(fix).Answered? && Validate(Text(chat(fix).content), doc.sourceFile, parse).Returned?)
                  ==> r.outcome == Returned(EmptyIfNull(Validate(Text(chat(fix).content), doc.sourceFile, parse).value)))
            && ((chat(fix).Rejected? && Validate(Text(""), doc.sourceFile, parse).Returned?)
                  ==> r.outcome == Returned(EmptyIfNull(Validate(Text(""), doc.sourceFile, parse).value)))
            && ((chat(fix).Answered? && parse(Clean(chat(fix).content)) == Some(JNull))
                  ==> r.outcome == Threw(TypeError))
  {
  }

  /** A repair call answered with a non-OK status yields `""`, which `JSON.parse` rejects,
      so the run ends with no items rather than an error. */
  lemma RejectedRepairGivesEmpty(s: Settings, doc: Document, chat: Request -> Reply,
                                 parse: string -> Option<Json>, raw: string)
    requires HasApiKey(s)
    requires chat(ExtractionRequest(s, doc)) == Answered(raw)
    requires Normalize(raw, parse) == Returned(None)
    requires chat(RepairRequest(s, raw, SchemaDescription)).Rejected?
    requires parse("").None?
    ensures RunWithRepair(s, doc, chat, parse).outcome == Returned([])
  {
    assert Clean("") == "" by {
      assert StripOpeners("") == "";
      assert ReplaceAll("", Fence, "") == "";
      assert Trim("") == "";
    }
    assert Sanitize([], doc.sourceFile) == [];
  }

  /** `items || []` for the value `validateItems` returned. */
  function EmptyIfNull(v: Option<seq<DateEvent>>): (r: seq<DateEvent>)
    ensures v.Some? ==> r == v.value
    ensures v.None? ==> r == []
  {
    if v.Some? then v.value else []
  }

  /** When neither the reply nor its repair yields a list, the run returns no items. */
  lemma IrreparableGivesEmpty(s: Settings, doc: Document, chat: Request -> Reply,
                              parse: string -> Option<Json>, raw: string, fixed: string)
    requires HasApiKey(s)
    requires chat(ExtractionRequest(s, doc)) == Answered(raw)
    requires Normalize(raw, parse) == Returned(None)
    requires chat(RepairRequest(s, raw, SchemaDescription)) == Answered(fixed)
    requires Normalize(fixed, parse) == Returned(None)
    ensures RunWithRepair(s, doc, chat, parse).outcome == Returned([])
  {
  }
}
