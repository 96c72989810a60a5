# AiDoc date extraction: validation and repair pipeline, in Dafny

AiDoc is a service that takes an uploaded PDF, DOCX or TXT file and asks a chat-completion
model for the document's key dates. The model's reply is untrusted text. This project
models the part of `backend/server.js` that turns that reply into trusted Date-Events,
along with the HTML escaper the front end applies to them:

- `normalizeItems`: strips Markdown code fences, trims the text, parses it as JSON and
  picks out the candidate list.
- `sanitizeItems`: coerces each candidate through an allow-list into an eight-field
  Date-Event.
- `validateItems`: normalizes, sanitizes and re-defaults.
- `runLLMWithRepair`: one extraction call, then at most one repair call when validation
  yields `null`.
- The prompt assembly inside `callLLM`, and the repair prompt of `repairLLMOutput`.
- `escapeHtml` from `frontend/public/app.js`.

Modules, one per file:

| file | module | what |
|---|---|---|
| `base.dfy` | `Base` | `Option`; `Outcome` (a value or a thrown fault); the faults the pipeline can throw |
| `strings.dfy` | `Strings` | `String.prototype.trim`, global literal `replace`, `join`, decimal rendering |
| `json.dfy` | `JsonValues` | the JSON values `JSON.parse` yields; property access with last-key-wins |
| `normalize.dfy` | `Normalizer` | `normalizeItems` |
| `sanitize.dfy` | `Sanitizer` | `sanitizeItems`, the Date-Event record, its JSON form |
| `validate.dfy` | `Validator` | `validateItems` |
| `prompt.dfy` | `Prompts` | configuration, prompt truncation and assembly, the two requests |
| `repair.dfy` | `Orchestrator` | `callLLM`, `repairLLMOutput`, `runLLMWithRepair` |
| `escape.dfy` | `HtmlEscape` | `escapeHtml` and its inverse |
| `testvectors.dfy` | `TestVectors` | the cases of `scripts/test-validators.js`, and a fenced empty list |

External effects become parameters:

- `JSON.parse` is a function `parse: string -> Option<Json>`, where `None` means a
  `SyntaxError`.
- The chat-completions endpoint is a function `chat: Request -> Reply`. A reply is an OK
  answer with its message content, a non-OK status with its body, or a failed `fetch`.
- The environment variables and the prompt file's text are fields of `Settings`.

A run returns the list of requests it posted together with its outcome, so contracts can
say how many calls were made and what was sent.

## Behaviour of the code worth knowing

Four behaviours of the code are easy to miss when reading only its comments and prompts.
The model follows the code in each.

- Text that does not parse normalizes to `[]`, not to `null` (backend/server.js:275-279). Such a
  reply therefore counts as "no dates found", and it is never sent for repair, even though
  the repair prompt speaks of output that "may not be valid JSON".
  `Orchestrator.UnparseableFirstReplyNotRepaired` states this.
- A reply that parses to JSON `null` makes `parsed.items` throw a `TypeError`
  (backend/server.js:282). The error propagates out of the run, whether the `null` comes from the
  first reply (`Orchestrator.NullReplyThrows`) or from the repaired one (`Orchestrator.RepairOutcome`).
- Fences are removed wherever they occur in the text, not only at its ends
  (backend/server.js:271-272).
- In the repair call, a non-OK status yields `""` (backend/server.js:258-260). When `""` fails to
  parse, as `JSON.parse` makes it, the run returns `[]` (`Orchestrator.RejectedRepairGivesEmpty`).
  A rejected `fetch`, however, is not caught and propagates.

## Model

| member | source | states |
|---|---|---|
| Strings.Trim | backend/server.js:270-273 | the result is the input with its leading and trailing JavaScript white space (WhiteSpace and LineTerminator) cut off, characterised by a window of indices |
| Strings.TrimCharacterized | backend/server.js:273 | `trim` returns r exactly when r is the input's white-space-free middle; there is only one such r |
| Strings.TrimIdempotent | backend/server.js:300-307 | trimming a trimmed string changes nothing |
| Strings.TrimPadded | backend/server.js:270-273 | white space added around a text disappears under `trim` |
| Strings.ReplaceAll | backend/server.js:271-272 | a global literal replace leaves alone a string in which the pattern's first character never occurs |
| Strings.ReplaceAllSkips | backend/server.js:271-272 | a prefix that cannot start a match passes through a global replace unchanged, whatever follows it |
| Strings.ReplaceAllNoMatch | backend/server.js:271-272 | a global replace changes nothing in a text where the pattern never occurs |
| Strings.ReplaceCharConcat | frontend/public/app.js:73-77 | a replace with a one-character pattern distributes over concatenation |
| Strings.JoinSnoc | backend/server.js:236-242 | joining one more part appends the separator and that part |
| Strings.JoinEndsWithLast | backend/server.js:191 | the last part closes the joined text |
| Strings.NatToString | backend/server.js:164 | the decimal rendering of a number is a non-empty digit string, denotes that number, and has no leading zero |
| JsonValues.LookupLastWins | backend/server.js:282 | a key is absent exactly when no member carries it; otherwise the value read is that of the last member carrying the key |
| JsonValues.LookupAt | backend/server.js:282 | the value of the last member with a key is what property access reads |
| JsonValues.LookupIgnoresOtherKey | backend/server.js:296-321 | a member under another key does not change what a key reads |
| Normalizer.StripOpeners | backend/server.js:271 | removing "```json" openers leaves text with no backtick unchanged (and, by `Normalizer.StripOpenersNoOpener`, any text with no opener) |
| Normalizer.StripOpenersNoOpener | backend/server.js:271 | text in which no "```json" opener (in any ASCII case) occurs passes through opener removal unchanged, so other language tags such as "```yaml" are kept |
| Normalizer.FenceRemovalLeavesNoFence | backend/server.js:272 | after all bare fences are removed left to right, no three consecutive backticks remain |
| Normalizer.StripOpenersFence | backend/server.js:271 | a closing fence never completes an opener: removing openers from a text followed by a fence removes them from the text and keeps the fence |
| Normalizer.FenceAppendedRemoved | backend/server.js:272 | a fence at the end of a text is removed whole, whatever backticks precede it |
| Normalizer.Clean | backend/server.js:270-273 | the text handed to `JSON.parse` contains no code fence; fence-free text is only trimmed (`Normalizer.CleanFenceFree`) |
| Normalizer.CleanFenceFree | backend/server.js:270-273 | text with no three consecutive backticks reaches `JSON.parse` trimmed and otherwise unchanged, single and double backticks inside it included |
| Normalizer.Normalize | backend/server.js:269-284 | parse failure gives `[]`; a `null` root throws `TypeError` and nothing else throws; a returned list is the parsed array or the array under `items`; `null` comes back exactly when the parsed value offers neither |
| Normalizer.FencedLikeBare | backend/server.js:270-273 | wrapping any text, backticks included, in an opener (in any ASCII case) and a closing fence changes neither the cleaned text nor the normalized result |
| Sanitizer.ParseType | backend/server.js:287-294 | a string is an allowed type exactly when it spells one of the six types |
| Sanitizer.TypeOrOther | backend/server.js:297 | `type` is kept exactly when it is one of the six allowed strings, otherwise it is `other` |
| Sanitizer.TrimmedOrNull | backend/server.js:300-303 | `date_iso` and `section` are present exactly for strings with a non-blank trim, and then are that trim, which has no white space at either end |
| Sanitizer.SanitizeItem | backend/server.js:296-322 | every sanitized item is well-formed; `date_text` and `summary` are the member's string or `""`; `date_iso` and `section` are the trimmed non-blank string or `null`; the type is kept exactly when it is one of the six allowed spellings, and is otherwise `other`; `source_file` is the item's own non-blank name, trimmed, or else the upload's name; `page` and `confidence` are the member exactly when it is a number |
| Sanitizer.Sanitize | backend/server.js:286-324 | same length, same order, item i sanitized from input item i alone |
| Sanitizer.SanitizeLocal | backend/server.js:296 | replacing one input item changes only the corresponding output item |
| Sanitizer.ToJson | backend/server.js:298-321 | a sanitized item serialises to an object with exactly the eight allowed keys |
| Sanitizer.ToJsonMembers | backend/server.js:298-321 | each key of that object holds the corresponding field |
| Sanitizer.NonObjectGetsDefaults | backend/server.js:296-322 | a number, string, array, boolean or `null` candidate gets every default |
| Sanitizer.OnlyAllowedKeysMatter | backend/server.js:296-322 | two candidates that agree on the eight allowed keys sanitize alike |
| Sanitizer.ExtraMemberDropped | backend/server.js:296-322 | an extra member under any other key has no effect |
| Sanitizer.SanitizeToJsonRoundTrip | backend/server.js:296-322 | a well-formed item written out as its JSON object and sanitized again is the same item, when the upload's name is trim-stable |
| Sanitizer.SanitizeItemIdempotent | backend/server.js:296-322 | sanitizing a sanitized item's JSON form gives the item back, when the upload's name is trim-stable |
| Sanitizer.UnstableNameNotIdempotent | backend/server.js:307-309 | for an upload named " a", a second sanitization changes `source_file`, so the name condition above is needed |
| Validator.RedefaultAll | backend/server.js:338-348 | the re-defaulting map keeps the length and works item by item |
| Validator.Redefault | backend/server.js:338-348 | the re-defaulting of one item changes at most `source_file`, and only an empty one, which takes the upload's name |
| Validator.RedefaultKeepsSanitized | backend/server.js:338-348 | the re-defaulting map changes nothing on a sanitized item |
| Validator.RedefaultAllKeepsSanitized | backend/server.js:338-348 | the same holds for a whole list of sanitized items |
| Validator.Validate | backend/server.js:326-349 | an array input is sanitized directly; for text, the result is `null` exactly when normalization gives `null`, it throws exactly when normalization throws, and otherwise it is the sanitized normalized list; every returned item is well-formed |
| Validator.SanitizeAllIdempotent | backend/server.js:286-324 | sanitizing sanitized output again changes nothing, when the upload's name is trim-stable |
| Validator.ValidateIdempotent | backend/server.js:326-349 | validating the array that validation returned gives the same array, when the upload's name is trim-stable |
| Prompts.TruncateText | backend/server.js:161 | the truncated text is a prefix of the text, of length min(length, limit); a negative limit counts back from the end |
| Prompts.PageHints | backend/server.js:162-165 | there are min(pages, 8) hints; hint i carries the label i+1 and then a prefix of page i of length min(length, 800) |
| Prompts.PromptParts | backend/server.js:169-181 | eight parts when there are pages and six otherwise; the schema line; the file name; the truncated text with its two lengths; the hint block joined by separators |
| Prompts.ExtractionRequest | backend/server.js:167-192 | the user message opens with the prompt file's text, or the built-in instruction when that is empty, and closes with the page hints, or with the truncated text when there are no pages |
| Prompts.RequestsShareConnection | backend/server.js:220-256 | the repair request goes to the same endpoint, model and `Authorization` as the extraction request; the endpoint and model are the configured ones unless unset or empty, and the header is `Bearer` and the key |
| Prompts.RepairAppendsRaw | backend/server.js:236-242 | the rejected output is appended verbatim to a repair preamble that does not depend on it |
| Prompts.RepairRequestInjective | backend/server.js:236-242 | different rejected outputs give different repair requests |
| Prompts.SchemaLineShared | backend/server.js:167-172 | both prompts carry the identical schema line |
| Prompts.LaterPagesIgnored | backend/server.js:162-165 | pages after the eighth do not change the request |
| Prompts.TextPastLimitIgnored | backend/server.js:161-176 | text past the limit reaches the model only through the total length it adds |
| Orchestrator.CallLLM | backend/server.js:152-218 | without an API key, nothing is sent and the call throws; otherwise exactly the extraction request is sent; a non-OK status or failed fetch throws; an answer is returned |
| Orchestrator.RepairLLMOutput | backend/server.js:220-267 | exactly the repair request is sent; an OK reply's content is returned as it is; a non-OK status yields `""`; only a failed fetch throws |
| Orchestrator.RunWithRepair | backend/server.js:129-150 | at most two requests; the first is the extraction request; the second is sent exactly when the first reply validates to `null`, and it is the repair request built from that reply and the schema alone, nothing of the document; returned items are well-formed; a missing API key throws before any request; a non-OK status can end the run only on the first call, since the repair call turns it into `""` |
| Orchestrator.FirstCallFaultPropagates | backend/server.js:206-209 | a non-OK status or a failed fetch on the first call ends the run with that error after a single request |
| Orchestrator.NullReplyThrows | backend/server.js:282 | a first reply that parses to JSON `null` ends the run with a `TypeError` after a single request |
| Orchestrator.ValidFirstReplyReturned | backend/server.js:131-135 | a first reply that validates, to `[]` included, is returned after a single call |
| Orchestrator.UnparseableFirstReplyNotRepaired | backend/server.js:275-279 | a first reply that does not parse ends the run with `[]` after a single call |
| Orchestrator.RepairOutcome | backend/server.js:137-149 | after a repair: a failed fetch propagates; a repaired reply that parses to JSON `null` throws `TypeError`; otherwise the run returns the repaired validation, or `[]` in place of `null` |
| Orchestrator.RejectedRepairGivesEmpty | backend/server.js:258-260 | a repair answered with a non-OK status gives `""`, which does not parse, so the run returns `[]` |
| Orchestrator.IrreparableGivesEmpty | backend/server.js:143-149 | when both the reply and its repair validate to `null`, the run returns `[]` |
| HtmlEscape.EscapeHtml | frontend/public/app.js:71-78 | the escaped text has no `<`, `>`, `"` or `'` and is no shorter than the input, because no entity a replace inserts contains a character a later replace removes |
| HtmlEscape.EscapeHtmlConcat | frontend/public/app.js:71-78 | the escape distributes over concatenation |
| HtmlEscape.EscapeHtmlChar | frontend/public/app.js:73-77 | on one character the chain gives that character's own escape, because `&` is replaced first |
| HtmlEscape.EscapeHtmlPerCharacter | frontend/public/app.js:71-78 | the chained replaces equal the per-character mapping |
| HtmlEscape.EscapeEachProperties | frontend/public/app.js:73-77 | the per-character mapping leaves no `<`, `>`, `"` or `'`, never shortens, and fixes strings with nothing to escape |
| HtmlEscape.EscapeHtmlProperties | frontend/public/app.js:71-78 | the same three facts hold for `escapeHtml` itself |
| HtmlEscape.EscapeHtmlEntities | frontend/public/app.js:73-77 | every `&` in the output begins one of the five entities |
| HtmlEscape.DecodeStep | frontend/public/app.js:73-77 | decoding one entity turns one stage of partially decoded text into the next, because the entities differ at their second character |
| HtmlEscape.EscapeHtmlRoundTrip | frontend/public/app.js:71-78 | decoding the five entities, `&amp;` last, recovers the input |
| HtmlEscape.EscapeHtmlInjective | frontend/public/app.js:71-78 | different inputs escape differently |
| TestVectors.Case1Cleaned | scripts/test-validators.js:16-32 | the fenced text of test 1 cleans to the bare object |
| TestVectors.Case1Sanitized | scripts/test-validators.js:15-32 | the item of test 1 loses `extra` and takes `sample.pdf` for its empty `source_file` |
| TestVectors.Case1Validates | scripts/test-validators.js:15-32 | test 1 validates to that one item |
| TestVectors.Case2Rejected | scripts/test-validators.js:34-35 | test 2 validates to `null` |
| TestVectors.Case2Repaired | scripts/test-validators.js:34-35 | in a run, the reply of test 2 is sent back once for repair |
| TestVectors.EmptyListAccepted | backend/server.js:131-135 | a fenced empty list is accepted with no repair |

## Left out

- Express routing, CORS, static files and the multer upload limit: framework plumbing
  outside the pipeline.
- `extractText`, `parsePdf` and `parseDocx`: thin wrappers over PDF and DOCX libraries.
  Their result is the `Document` parameter.
- `fetch` and the response JSON. A reply is given already reduced to its message content;
  `content || json || ""` is assumed to be a string.
- `JSON.parse` and JSON numbers. Parsing is a parameter, and numbers are opaque literals
  that are only passed through.
- `DOC_CHAR_LIMIT` values that `Number` turns into `NaN` or a fraction. The setting is an
  optional integer, with 12000 when the variable is unset or empty.
- The `temperature` and `response_format` members of both request bodies: constants that
  play no part in the pipeline's logic.
- `Validator.Validate`: inputs other than a string or an array (which `String()` would
  coerce) are not modelled, since both callers pass the model's string reply.
- Strings are sequences of Unicode scalar values, while JavaScript lengths and `slice`
  count UTF-16 code units. `Prompts.TruncateText`, `Prompts.PageHints` and the lengths in
  `Prompts.PromptParts` therefore agree with the source only for text inside the Basic
  Multilingual Plane.
- Rendering the result table (`renderRows`), `setStatus` and the submit handler in
  `frontend/public/app.js`: DOM and network code.
- The error messages' wording. A thrown error is one of the `Fault` cases, carrying the
  status and body of a non-OK reply.
