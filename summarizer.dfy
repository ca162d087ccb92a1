/**
  `BedrockSummarizer`: it sends one request per summary to Bedrock, reads the
  summary out of the response, and turns every failure into an exception
  message. `summarize_all_lengths` collects the three lengths into one
  dictionary and keeps a failure of one length from affecting the others.

  The Bedrock runtime client is modelled by the outcome it gives for each
  request: a parsed response body, a ClientError, a KeyError raised before the
  body is parsed, or any other exception.
*/
module Summarizer {
  import opened Wrappers
  import opened PyText
  import opened LengthPolicy
  import opened SummaryRequest

  /** One element of the response's "content" list; its "text" key may be missing. */
  datatype ContentBlock = ContentBlock(text: Option<string>)

  /** The parsed response body; its "content" key may be missing. */
  datatype ResponseBody = ResponseBody(content: Option<seq<ContentBlock>>)

  /** How `invoke_model` and the parsing of its body end: with the parsed
      body, with a botocore ClientError carrying an error code and message,
      with a KeyError raised before the body is parsed (the response has no
      "body" key, say) naming the missing key, or with any other exception,
      given by its `str()`. */
  datatype BackendOutcome =
    | Responded(body: ResponseBody)
    | ClientError(code: string, message: string)
    | KeyErrorRaised(key: string)
    | OtherFailure(detail: string)

  /** Why `generate_summary` fails, before the failure is written as a message. */
  datatype SummaryError =
    | ApiError(code: string, message: string)
    | UnexpectedFormat(missingKey: string)
    | GenerationFailed(detail: string)

  const API_ERROR_PREFIX := "Bedrock API Error ("
  const FORMAT_PREFIX := "Unexpected response format: "
  const FAILED_PREFIX := "Failed to generate summary: "
  /** `str()` of the IndexError raised by `[0]` on an empty list. */
  const INDEX_ERROR := "list index out of range"
  /** What `summarize_all_lengths` puts before the message of a failure. */
  const ENTRY_ERROR_PREFIX := "Error: "

  /** The message of the exception `generate_summary` raises. A missing key
      appears as Python prints a KeyError: the key's repr. For a key without
      quotes or backslashes, such as "content", "text" or "body", that is the
      key in single quotes, which is what is written here.
      The three kinds of failure start differently, so the message tells
      which kind happened. */
  function ErrorMessage(e: SummaryError): (m: string)
    ensures e.ApiError? <==> API_ERROR_PREFIX <= m
    ensures e.UnexpectedFormat? <==> FORMAT_PREFIX <= m
    ensures e.GenerationFailed? <==> FAILED_PREFIX <= m
  {
    match e
    case ApiError(code, message) =>
      var m := API_ERROR_PREFIX + code + "): " + message;
      assert m[..|API_ERROR_PREFIX|] == API_ERROR_PREFIX && m[0] == 'B';
      m
    case UnexpectedFormat(key) =>
      var m := FORMAT_PREFIX + ("'" + key + "'");
      assert m[..|FORMAT_PREFIX|] == FORMAT_PREFIX && m[0] == 'U';
      m
    case GenerationFailed(detail) =>
      var m := FAILED_PREFIX + detail;
      assert m[..|FAILED_PREFIX|] == FAILED_PREFIX && m[0] == 'F';
      m
  }

  /** The key a format error names, read back from its message. */
  function MissingKeyOf(m: string): (key: Option<string>)
    ensures key.Some? ==> ErrorMessage(UnexpectedFormat(key.value)) == m
  {
    if |FORMAT_PREFIX| + 2 <= |m| && m[..|FORMAT_PREFIX|] == FORMAT_PREFIX
       && m[|FORMAT_PREFIX|] == '\'' && m[|m| - 1] == '\''
    then
      var key := m[|FORMAT_PREFIX| + 1..|m| - 1];
      assert m == m[..|FORMAT_PREFIX|] + ("'" + key + "'");
      Some(key)
    else None
  }

  /** The key of a format error can always be read back from its message. */
  lemma MissingKeyRoundTrip(key: string)
    ensures MissingKeyOf(ErrorMessage(UnexpectedFormat(key))) == Some(key)
  {
    var m := ErrorMessage(UnexpectedFormat(key));
    assert m[..|FORMAT_PREFIX|] == FORMAT_PREFIX;
    assert m[|FORMAT_PREFIX| + 1..|m| - 1] == key;
  }

  /** `response_body['content'][0]['text'].strip()`: a missing key is a
      format error naming it, an empty content list an IndexError. */
  function ReadSummary(body: ResponseBody): (r: Result<string, SummaryError>)
    ensures r.Success? <==>
      body.content.Some? && body.content.value != [] && body.content.value[0].text.Some?
    ensures r.Success? ==> IsStripOf(body.content.value[0].text.value, r.value)
    ensures r == Failure(UnexpectedFormat("content")) <==> body.content.None?
    ensures r == Failure(UnexpectedFormat("text")) <==>
      body.content.Some? && body.content.value != [] && body.content.value[0].text.None?
    ensures r == Failure(GenerationFailed(INDEX_ERROR)) <==> body.content == Some([])
  {
    match body.content
    case None => Failure(UnexpectedFormat("content"))
    case Some(blocks) =>
      if blocks == [] then Failure(GenerationFailed(INDEX_ERROR))
      else
        match blocks[0].text
        case None => Failure(UnexpectedFormat("text"))
        case Some(text) => Success(Strip(text))
  }

  /** What one call of `generate_summary` returns, or the message of the
      exception it raises, for the outcome of its request. */
  function Translate(outcome: BackendOutcome): (r: Result<string, string>)
    ensures r.Success? <==> outcome.Responded? && ReadSummary(outcome.body).Success?
    ensures r.Success? ==> r.value == Strip(outcome.body.content.value[0].text.value)
    ensures r.Success? ==> NoEdgeSpace(r.value)
    ensures r.Failure? ==> (API_ERROR_PREFIX <= r.error <==> outcome.ClientError?)
    ensures r.Failure? ==> (FAILED_PREFIX <= r.error <==>
      outcome.OtherFailure? || (outcome.Responded? && outcome.body.content == Some([])))
    ensures r.Failure? ==> (FORMAT_PREFIX <= r.error <==>
      outcome.KeyErrorRaised? || (outcome.Responded? && outcome.body.content != Some([])))
    ensures outcome.Responded? && r.Failure? ==>
      r == Failure(ErrorMessage(ReadSummary(outcome.body).error))
    ensures outcome.ClientError? ==>
      r == Failure(API_ERROR_PREFIX + outcome.code + "): " + outcome.message)
    ensures outcome.KeyErrorRaised? ==> r == Failure(FORMAT_PREFIX + ("'" + outcome.key + "'"))
    ensures outcome.OtherFailure? ==> r == Failure(FAILED_PREFIX + outcome.detail)
  {
    match outcome
    case ClientError(code, message) => Failure(ErrorMessage(ApiError(code, message)))
    case KeyErrorRaised(key) => Failure(ErrorMessage(UnexpectedFormat(key)))
    case OtherFailure(detail) => Failure(ErrorMessage(GenerationFailed(detail)))
    case Responded(body) =>
      var read := ReadSummary(body);
      if read.Success? then
        StripNoEdge(body.content.value[0].text.value, read.value);
        Success(read.value)
      else Failure(ErrorMessage(read.error))
  }

  /** The result of a strip has no whitespace at either end. */
  lemma StripNoEdge(s: string, r: string)
    requires IsStripOf(s, r)
    ensures NoEdgeSpace(r)
  {
  }

  /** A summary is already stripped: stripping it again changes nothing. */
  lemma SummaryIsStripped(outcome: BackendOutcome)
    requires Translate(outcome).Success?
    ensures Strip(Translate(outcome).value) == Translate(outcome).value
  {
    StripNoEdgeSpace(Translate(outcome).value);
  }

  /** The result of `generate_summary` for `text` and `lengthType` when the
      client answers requests as `runtime` does. */
  function SummaryFor(runtime: Invocation -> BackendOutcome, modelId: string, text: string, lengthType: string): Result<string, string>
  {
    Translate(runtime(BuildInvocation(modelId, text, lengthType)))
  }

  /** What `summarize_all_lengths` stores for one length: the summary, or
      "Error: " followed by the message of the exception. */
  function Entry(r: Result<string, string>): (e: string)
    ensures r.Success? ==> e == r.value
    ensures r.Failure? ==> ENTRY_ERROR_PREFIX <= e && e[|ENTRY_ERROR_PREFIX|..] == r.error
  {
    match r
    case Success(summary) => summary
    case Failure(message) => ENTRY_ERROR_PREFIX + message
  }

  /** The result of `generate_summary` for each length type, for a fixed
      client, model and text. */
  function ResultsOf(runtime: Invocation -> BackendOutcome, modelId: string, text: string): string -> Result<string, string>
  {
    lengthType => SummaryFor(runtime, modelId, text, lengthType)
  }

  /** The entries for `lengths`, visited in order, a later visit overwriting
      an earlier one for the same key. */
  function EntriesFor(results: string -> Result<string, string>, lengths: seq<string>): (m: map<string, string>)
    ensures forall lt :: lt in m <==> lt in lengths
    ensures forall lt :: lt in m ==> m[lt] == Entry(results(lt))
  {
    if lengths == [] then map[]
    else
      var last := lengths[|lengths| - 1];
      EntriesFor(results, lengths[..|lengths| - 1])[last := Entry(results(last))]
  }

  /** Visiting one more length adds (or overwrites) that length's entry. */
  lemma EntriesForStep(results: string -> Result<string, string>, lengths: seq<string>, i: nat)
    requires i < |lengths|
    ensures EntriesFor(results, lengths[..i + 1]) == EntriesFor(results, lengths[..i])[lengths[i] := Entry(results(lengths[i]))]
  {
    assert lengths[..i + 1][..i] == lengths[..i];
  }

  /** The dictionary `summarize_all_lengths` returns: one entry for each of
      the three length types, whatever the results. */
  function AllSummaries(results: string -> Result<string, string>): (m: map<string, string>)
    ensures m.Keys == LENGTH_PARAMS.Keys
    ensures forall lt :: lt in m ==> m[lt] == Entry(results(lt))
  {
    var m := EntriesFor(results, LENGTHS);
    assert m.Keys == LENGTH_PARAMS.Keys by {
      assert forall lt :: lt in LENGTHS <==> lt in LENGTH_PARAMS;
    }
    m
  }

  /** The entry of one length depends only on the answer to that length's own
      request: a failure of another length cannot change it. */
  lemma EntryIsLocal(runtime1: Invocation -> BackendOutcome, runtime2: Invocation -> BackendOutcome,
                     modelId: string, text: string, lengthType: string)
    requires lengthType in LENGTHS
    requires runtime1(BuildInvocation(modelId, text, lengthType)) == runtime2(BuildInvocation(modelId, text, lengthType))
    ensures AllSummaries(ResultsOf(runtime1, modelId, text))[lengthType] ==
            AllSummaries(ResultsOf(runtime2, modelId, text))[lengthType]
  {
  }

  /** The entry recorded for a ClientError. */
  lemma ClientErrorText(code: string, message: string)
    ensures Entry(Translate(ClientError(code, message))) == "Error: Bedrock API Error (" + code + "): " + message
  {
    ApiErrorEntryText(code, message);
  }

  /** The two prefixes spelled out, kept apart from `Translate` so that the
      literal comparison is checked on its own. */
  lemma ApiErrorEntryText(code: string, message: string)
    ensures ENTRY_ERROR_PREFIX + (API_ERROR_PREFIX + code + "): " + message) == "Error: Bedrock API Error (" + code + "): " + message
  {
    assert ENTRY_ERROR_PREFIX + API_ERROR_PREFIX == "Error: Bedrock API Error (";
  }

  /** The entry recorded for a response without "content". */
  lemma MissingContentText()
    ensures Entry(Translate(Responded(ResponseBody(None)))) == ENTRY_ERROR_PREFIX + FORMAT_PREFIX + "'content'"
  {
    assert "'" + "content" + "'" == "'content'";
  }

  /** A first content element without "text" is reported as a format error
      naming "text". */
  lemma MissingTextMessage(rest: seq<ContentBlock>)
    ensures Translate(Responded(ResponseBody(Some([ContentBlock(None)] + rest)))) ==
      Failure(FORMAT_PREFIX + "'text'")
  {
    assert "'" + "text" + "'" == "'text'";
  }

  /** An empty "content" list is not a format error: indexing it raises an
      IndexError, which ends up as a generic failure. */
  lemma EmptyContentMessage()
    ensures Translate(Responded(ResponseBody(Some([])))) == Failure(FAILED_PREFIX + "list index out of range")
  {
  }

  /** A response without "body" raises a KeyError inside the `try`, so it is
      reported as a format error naming "body", not as a generic failure. */
  lemma MissingBodyMessage()
    ensures Translate(KeyErrorRaised("body")) == Failure(FORMAT_PREFIX + "'body'")
  {
    assert "'" + "body" + "'" == "'body'";
  }

  /** A length whose request is answered with a readable first text block is
      recorded, under that length, as that text stripped. */
  lemma SummaryEntry(runtime: Invocation -> BackendOutcome, modelId: string, text: string,
                     lengthType: string, blocks: seq<ContentBlock>, summaryText: string)
    requires lengthType in LENGTHS
    requires blocks != [] && blocks[0].text == Some(summaryText)
    requires runtime(BuildInvocation(modelId, text, lengthType)) == Responded(ResponseBody(Some(blocks)))
    ensures AllSummaries(ResultsOf(runtime, modelId, text))[lengthType] == Strip(summaryText)
  {
  }

  /** A ClientError on one length's request is recorded, under that length,
      as "Error: Bedrock API Error (<code>): <message>". */
  lemma ClientErrorEntry(runtime: Invocation -> BackendOutcome, modelId: string, text: string,
                         lengthType: string, code: string, message: string)
    requires lengthType in LENGTHS
    requires runtime(BuildInvocation(modelId, text, lengthType)) == ClientError(code, message)
    ensures AllSummaries(ResultsOf(runtime, modelId, text))[lengthType] ==
      "Error: Bedrock API Error (" + code + "): " + message
  {
    ClientErrorText(code, message);
  }

  /** A response without "content" is recorded as a format error naming it. */
  lemma MissingContentEntry(runtime: Invocation -> BackendOutcome, modelId: string, text: string, lengthType: string)
    requires lengthType in LENGTHS
    requires runtime(BuildInvocation(modelId, text, lengthType)) == Responded(ResponseBody(None))
    ensures AllSummaries(ResultsOf(runtime, modelId, text))[lengthType] == ENTRY_ERROR_PREFIX + FORMAT_PREFIX + "'content'"
  {
    MissingContentText();
  }

  class BedrockSummarizer {
    var region: string
    var modelId: string
    /** The `bedrock_runtime` client, given by the outcome of each request. */
    var runtime: Invocation -> BackendOutcome

    constructor (runtime: Invocation -> BackendOutcome,
                 region: string := "us-east-1",
                 modelId: string := "anthropic.claude-3-haiku-20240307-v1:0")
      ensures this.region == region && this.modelId == modelId && this.runtime == runtime
    {
      this.region := region;
      this.modelId := modelId;
      this.runtime := runtime;
    }

    /** `generate_summary`: the summary, or the message of the exception raised. */
    method GenerateSummary(text: string, lengthType: string := "medium") returns (r: Result<string, string>)
      ensures r == SummaryFor(runtime, modelId, text, lengthType)
      ensures r.Success? ==>
        var body := runtime(BuildInvocation(modelId, text, lengthType)).body;
        r.value == Strip(body.content.value[0].text.value)
      ensures r.Success? ==> NoEdgeSpace(r.value)
    {
      var params := PolicyFor(lengthType);
      var prompt := BuildPrompt(text, lengthType);
      var body := RequestBody(ANTHROPIC_VERSION, params.maxTokens, [Message("user", prompt)], TEMPERATURE, TOP_P);
      var outcome := runtime(Invocation(modelId, JSON_MEDIA_TYPE, JSON_MEDIA_TYPE, body));
      match outcome {
        case ClientError(code, message) =>
          r := Failure(ErrorMessage(ApiError(code, message)));
        case KeyErrorRaised(key) =>
          r := Failure(ErrorMessage(UnexpectedFormat(key)));
        case OtherFailure(detail) =>
          r := Failure(ErrorMessage(GenerationFailed(detail)));
        case Responded(responseBody) =>
          var read := ReadSummary(responseBody);
          if read.Success? {
            r := Success(read.value);
          } else {
            r := Failure(ErrorMessage(read.error));
          }
      }
    }

    /** `summarize_all_lengths`: one entry per length type, each the summary or
        the error recorded for it. */
    method SummarizeAllLengths(text: string) returns (summaries: map<string, string>)
      ensures summaries == AllSummaries(ResultsOf(runtime, modelId, text))
      ensures summaries.Keys == LENGTH_PARAMS.Keys
    {
      summaries := map[];
      for i := 0 to |LENGTHS|
        invariant summaries == EntriesFor(ResultsOf(runtime, modelId, text), LENGTHS[..i])
      {
        var length := LENGTHS[i];
        var r := GenerateSummary(text, length);
        EntriesForStep(ResultsOf(runtime, modelId, text), LENGTHS, i);
        summaries := summaries[length := Entry(r)];
      }
      assert LENGTHS[..|LENGTHS|] == LENGTHS;
    }
  }
}
