/**
 `validateItems` (backend/server.js): normalize unless already given an array, then
 sanitize, then the re-defaulting map over the sanitized items.
 */
module Validator {
  import opened Base
  import opened JsonValues
  import opened Normalizer
  import opened Sanitizer

  /** What `validateItems` is called with: the model's raw text, or an array that is
      used as the candidate list directly. */
  datatype Input = Text(raw: string) | Items(elems: seq<Json>)

  /** `x || d` for a string `x`: the empty string is the only falsy one. */
  function OrElse(x: string, d: string): string
  {
    if x == "" then d else x
  }

  /** The second map at the end of `validateItems`. On the typed model `?? null` and the
      `typeof ... === "number"` checks cannot change anything, and `x || ""` on a string
      gives the same string: only an empty `source_file` can change, to the upload's name. */
  function Redefault(e: DateEvent, sourceFile: string): (r: DateEvent)
    ensures r == e.(sourceFile := r.sourceFile)
    ensures e.sourceFile != "" ==> r == e
    ensures e.sourceFile == "" ==> r.sourceFile == sourceFile
  {
    e.(dateText := OrElse(e.dateText, ""),
       summary := OrElse(e.summary, ""),
       sourceFile := OrElse(OrElse(e.sourceFile, sourceFile), ""))
  }

  function RedefaultAll(es: seq<DateEvent>, sourceFile: string): (r: seq<DateEvent>)
    ensures |r| == |es|
    ensures forall i :: 0 <= i < |es| ==> r[i] == Redefault(es[i], sourceFile)
  {
    if es == [] then [] else [Redefault(es[0], sourceFile)] + RedefaultAll(es[1..], sourceFile)
  }

  /** The re-defaulting map is the identity on what the sanitizer produces. */
  lemma RedefaultKeepsSanitized(e: DateEvent, sourceFile: string)
    requires WellFormed(e, sourceFile)
    ensures Redefault(e, sourceFile) == e
  {
  }

  lemma {:induction false} RedefaultAllKeepsSanitized(es: seq<DateEvent>, sourceFile: string)
    requires forall i :: 0 <= i < |es| ==> WellFormed(es[i], sourceFile)
    ensures RedefaultAll(es, sourceFile) == es
  {
    forall i | 0 <= i < |es|
      ensures RedefaultAll(es, sourceFile)[i] == es[i]
    {
      RedefaultKeepsSanitized(es[i], sourceFile);
    }
  }

  /** Lines 327-335: the candidate list, `Returned(None)` standing for `null`. */
  function Candidates(input: Input, parse: string -> Option<Json>): Outcome<Option<seq<Json>>>
  {
    match input
    case Items(xs) => Returned(Some(xs))
    case Text(raw) => Normalize(raw, parse)
  }

  /** `validateItems(input, sourceFile)`: `Returned(None)` is `null`. */
  function Validate(input: Input, sourceFile: string, parse: string -> Option<Json>)
    : (r: Outcome<Option<seq<DateEvent>>>)
    ensures input.Items? ==> r == Returned(Some(Sanitize(input.elems, sourceFile)))
    ensures input.Text? ==> (r == Returned(None) <==> Normalize(input.raw, parse) == Returned(None))
    ensures input.Text? ==> (r.Threw? <==> Normalize(input.raw, parse).Threw?)
    ensures input.Text? && Normalize(input.raw, parse).Threw? ==> r == Threw(TypeError)
    ensures input.Text? && Normalize(input.raw, parse).Returned? && Normalize(input.raw, parse).value.Some? ==>
              r == Returned(Some(Sanitize(Normalize(input.raw, parse).value.value, sourceFile)))
    ensures r.Returned? && r.value.Some? ==> forall e :: e in r.value.value ==> WellFormed(e, sourceFile)
  {
    match Candidates(input, parse)
    case Threw(fault) => Threw(fault)
    case Returned(None) => Returned(None)
    case Returned(Some(xs)) =>
      var sanitized := Sanitize(xs, sourceFile);
      RedefaultAllKeepsSanitized(sanitized, sourceFile);
      Returned(Some(RedefaultAll(sanitized, sourceFile)))
  }

  function ToJsonAll(es: seq<DateEvent>): (r: seq<Json>)
    ensures |r| == |es| && forall i :: 0 <= i < |es| ==> r[i] == ToJson(es[i])
  {
    if es == [] then [] else [ToJson(es[0])] + ToJsonAll(es[1..])
  }

  /** Sanitizing what the sanitizer produced, written back out as JSON, changes nothing
      when the upload's name is one sanitizing leaves alone. */
  lemma {:induction false} SanitizeAllIdempotent(xs: seq<Json>, sourceFile: string)
    requires StableName(sourceFile)
    ensures Sanitize(ToJsonAll(Sanitize(xs, sourceFile)), sourceFile) == Sanitize(xs, sourceFile)
  {
    var es := Sanitize(xs, sourceFile);
    var again := Sanitize(ToJsonAll(es), sourceFile);
    forall i | 0 <= i < |es|
      ensures again[i] == es[i]
    {
      SanitizeItemIdempotent(xs[i], sourceFile);
    }
  }

  /** Validating the array `validateItems` returned gives that array back, provided the
      upload's name is one sanitizing leaves alone. */
  lemma ValidateIdempotent(input: Input, sourceFile: string, parse: string -> Option<Json>)
    requires StableName(sourceFile)
    requires Validate(input, sourceFile, parse).Returned? && Validate(input, sourceFile, parse).value.Some?
    ensures var es := Validate(input, sourceFile, parse).value.value;
            Validate(Items(ToJsonAll(es)), sourceFile, parse) == Returned(Some(es))
  {
    var xs := Candidates(input, parse).value.value;
    assert Validate(input, sourceFile, parse).value.value == Sanitize(xs, sourceFile);
    SanitizeAllIdempotent(xs, sourceFile);
  }
}
