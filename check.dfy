/**
 * The synchronous sentiment check (`read_item` in app/routes/check.py): one
 * result per input text, in input order, with the classifier `predict` applied
 * to the text as given.
 */
module Check {
  import opened Models

  /** One entry of the response: the text as received and its sentiment. */
  datatype CheckResult = CheckResult(text: string, sentiment: SentimentLevel)

  /** The response to a check request: results in the order of the input texts,
      each echoing its text and carrying the unfiltered text's prediction. */
  method ReadItem(texts: seq<string>, predict: string -> SentimentLevel) returns (results: seq<CheckResult>)
    ensures |results| == |texts|
    ensures forall i :: 0 <= i < |texts| ==> results[i].text == texts[i]
    ensures forall i :: 0 <= i < |texts| ==> results[i].sentiment == predict(texts[i])
  {
    results := [];
    for i := 0 to |texts|
      invariant |results| == i
      invariant forall k :: 0 <= k < i ==> results[k] == CheckResult(texts[k], predict(texts[k]))
    {
      var text := texts[i];
      results := results + [CheckResult(text, predict(text))];
    }
  }
}
