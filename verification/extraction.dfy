/**
 * `extract_provider_data` after the request is built: locate the JSON object
 * in the completion text, parse it, and stamp the profile URL on it.
 *
 * The completion service and `json.loads` are not modelled; they are
 * passed in as functions that either answer or fail.
 */
module Extraction {
  import opened Wrappers
  import opened Text
  import Schema
  import Prompt

  /** Why a URL produced no record. `extract_provider_data` returns `None`
      for all of them; `ExtractError` keeps them apart. */
  datatype ExtractError =
    | CompletionFailed  // the request to the completion service failed
    | NoJsonSpan        // no `{` followed later by a `}` in the completion
    | InvalidJson       // the delimited text does not parse

  /** The completion service: request text to completion text. */
  type Completion = string -> Option<string>

  /** `json.loads` on a text that starts with `{`: an object or a parse error. */
  type JsonParser = string -> Option<Schema.Record>

  /** `text` has a `{` with a `}` somewhere after it. */
  predicate HasBracePair(text: string) {
    exists i, j :: 0 <= i < j < |text| && text[i] == '{' && text[j] == '}'
  }

  /** The text from the first `{` through the last `}`, when that is a
      non-empty span (`start_idx >= 0 and end_idx > start_idx`). */
  function LocateSpan(text: string): (span: Option<string>)
    ensures span.Some? ==> |span.value| >= 2
    ensures span.Some? ==> span.value[0] == '{' && span.value[|span.value| - 1] == '}'
  {
    var start := Find(text, '{');
    var end := RFind(text, '}') + 1;
    if start >= 0 && end > start then Some(text[start..end]) else None
  }

  /** A span is found exactly when some `{` precedes some `}`. */
  lemma LocateSpanSucceedsIff(text: string)
    ensures LocateSpan(text).Some? <==> HasBracePair(text)
  {
  }

  /** The span is the outermost one: it starts at the first `{` of the text
      and ends at its last `}`. */
  lemma LocateSpanIsOutermost(text: string) returns (start: nat)
    requires LocateSpan(text).Some?
    ensures start + |LocateSpan(text).value| <= |text|
    ensures LocateSpan(text).value == text[start..start + |LocateSpan(text).value|]
    ensures '{' !in text[..start]
    ensures '}' !in text[start + |LocateSpan(text).value|..]
  {
    start := Find(text, '{');
  }

  /** `data["Profile URL"] = url`. */
  function StampUrl(data: Schema.Record, url: string): (stamped: Schema.Record)
    ensures stamped.Keys == data.Keys + {"Profile URL"}
    ensures stamped["Profile URL"] == url
    ensures forall k :: k in data && k != "Profile URL" ==> stamped[k] == data[k]
  {
    data["Profile URL" := url]
  }

  /** The reconciliation of one completion: locate, parse, stamp. */
  function Reconcile(text: string, url: string, parse: JsonParser): (r: Result<Schema.Record, ExtractError>)
    ensures r.Success? ==> "Profile URL" in r.value && r.value["Profile URL"] == url
    ensures r.Failure? ==> r.error != CompletionFailed
  {
    match LocateSpan(text)
    case None => Failure(NoJsonSpan)
    case Some(span) =>
      match parse(span)
      case None => Failure(InvalidJson)
      case Some(data) => Success(StampUrl(data, url))
  }

  /** `extract_provider_data`: request, completion, reconciliation. */
  function ExtractProviderData(content: string, url: string, complete: Completion, parse: JsonParser)
    : (r: Result<Schema.Record, ExtractError>)
    ensures r.Success? ==> "Profile URL" in r.value && r.value["Profile URL"] == url
  {
    match complete(Prompt.PromptAsWritten(content))
    case None => Failure(CompletionFailed)
    case Some(text) => Reconcile(text, url, parse)
  }

  /** Extraction succeeds exactly when the service answers, its answer has a
      `{` before a `}`, and the outermost span parses; the record is then the
      parsed object with its profile URL replaced by the input URL, every
      other key kept as parsed. */
  lemma ExtractSucceedsIff(content: string, url: string, complete: Completion, parse: JsonParser)
    ensures var r := ExtractProviderData(content, url, complete, parse);
            var answer := complete(Prompt.PromptAsWritten(content));
            && (r.Success? <==>
                  answer.Some? && HasBracePair(answer.value) && parse(LocateSpan(answer.value).value).Some?)
            && (r.Success? ==>
                  var data := parse(LocateSpan(answer.value).value).value;
                  && r.value.Keys == data.Keys + {"Profile URL"}
                  && r.value["Profile URL"] == url
                  && forall k :: k in data && k != "Profile URL" ==> r.value[k] == data[k])
  {
  }

  /** The written row carries the input URL in its profile URL column,
      whatever the language model said there. */
  lemma RowCarriesUrl(content: string, url: string, complete: Completion, parse: JsonParser)
    requires ExtractProviderData(content, url, complete, parse).Success?
    ensures Schema.BuildRow(ExtractProviderData(content, url, complete, parse).value)[Schema.ProfileUrlColumn] == url
  {
  }
}
