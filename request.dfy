/**
  What `generate_summary` sends to Bedrock: the prompt it writes around the
  user's text and the `invoke_model` call carrying the Claude 3 messages body.
*/
module SummaryRequest {
  import opened Wrappers
  import opened LengthPolicy

  // The pieces of the prompt template, in order (the first line ends in a space).
  const PROMPT_OPENING := "Please provide a "
  const PROMPT_REQUEST := " summary of the following text. "
  const PROMPT_GUIDANCE := "\nThe summary should be "
  const PROMPT_BREAK := ".\n\n"
  const TEXT_LABEL := "Text to summarize:\n"
  const SUMMARY_LABEL := "Summary:"
  const PROMPT_FOOTER := "\n\n" + SUMMARY_LABEL

  /** The first line of the prompt, up to its final space: it names the
      length type exactly as the caller gave it. */
  function Opening(lengthType: string): string
  {
    PROMPT_OPENING + lengthType + PROMPT_REQUEST
  }

  /** Everything of the prompt before the user's text. It names the length
      type as given, but describes the policy actually chosen for it. */
  function Header(lengthType: string): string
  {
    Opening(lengthType) + PROMPT_GUIDANCE + PolicyFor(lengthType).description + PROMPT_BREAK + TEXT_LABEL
  }

  /** The prompt of `generate_summary`: the user's text, verbatim, between the
      header and the footer. */
  function BuildPrompt(text: string, lengthType: string): (prompt: string)
    ensures |prompt| == |Header(lengthType)| + |text| + |PROMPT_FOOTER|
    ensures prompt[..|Header(lengthType)|] == Header(lengthType)
    ensures prompt[|Header(lengthType)|..|prompt| - |PROMPT_FOOTER|] == text
    ensures prompt[|prompt| - |PROMPT_FOOTER|..] == PROMPT_FOOTER
  {
    Header(lengthType) + text + PROMPT_FOOTER
  }

  /** The user's text inside a prompt written for `lengthType`, or None if the
      prompt was not written by BuildPrompt for that length type. */
  function ExtractText(prompt: string, lengthType: string): (r: Option<string>)
    ensures r.Some? ==> BuildPrompt(r.value, lengthType) == prompt
  {
    var h := Header(lengthType);
    if |h| + |PROMPT_FOOTER| <= |prompt| && prompt[..|h|] == h
       && prompt[|prompt| - |PROMPT_FOOTER|..] == PROMPT_FOOTER
    then
      var text := prompt[|h|..|prompt| - |PROMPT_FOOTER|];
      assert prompt == prompt[..|h|] + text + prompt[|prompt| - |PROMPT_FOOTER|..];
      Some(text)
    else None
  }

  /** The prompt starts with "Please provide a <length type> summary of the
      following text. ", the length type being the caller's, even when the
      table does not know it. */
  lemma PromptOpening(text: string, lengthType: string)
    ensures Opening(lengthType) <= BuildPrompt(text, lengthType)
  {
    var o, h := Opening(lengthType), Header(lengthType);
    assert h[..|o|] == o;
    assert BuildPrompt(text, lengthType)[..|o|] == BuildPrompt(text, lengthType)[..|h|][..|o|];
  }

  /** After "\nThe summary should be " the prompt gives the description of
      the chosen policy. */
  lemma PromptDescription(text: string, lengthType: string)
    ensures var k := |Opening(lengthType)| + |PROMPT_GUIDANCE|;
      BuildPrompt(text, lengthType)[k..k + |PolicyFor(lengthType).description|] == PolicyFor(lengthType).description
  {
    var d, h := PolicyFor(lengthType).description, Header(lengthType);
    var before := Opening(lengthType) + PROMPT_GUIDANCE;
    var p := BuildPrompt(text, lengthType);
    assert p == before + d + (PROMPT_BREAK + TEXT_LABEL + text + PROMPT_FOOTER);
    MiddleSlice(before, d, PROMPT_BREAK + TEXT_LABEL + text + PROMPT_FOOTER);
  }

  lemma MiddleSlice(a: string, m: string, b: string)
    ensures (a + m + b)[|a|..|a| + |m|] == m
  {
  }

  /** The text comes right after "Text to summarize:\n". */
  lemma PromptTextLabel(text: string, lengthType: string)
    ensures var h := |Header(lengthType)|;
      BuildPrompt(text, lengthType)[h - |TEXT_LABEL|..h] == TEXT_LABEL
  {
    var h := Header(lengthType);
    assert h[|h| - |TEXT_LABEL|..] == TEXT_LABEL;
    assert BuildPrompt(text, lengthType)[|h| - |TEXT_LABEL|..|h|] == BuildPrompt(text, lengthType)[..|h|][|h| - |TEXT_LABEL|..];
  }

  /** The prompt ends with "Summary:". */
  lemma PromptEnding(text: string, lengthType: string)
    ensures var n := |BuildPrompt(text, lengthType)|;
      BuildPrompt(text, lengthType)[n - |SUMMARY_LABEL|..] == SUMMARY_LABEL
  {
    var p := BuildPrompt(text, lengthType);
    assert PROMPT_FOOTER[2..] == SUMMARY_LABEL;
    assert p[|p| - |SUMMARY_LABEL|..] == p[|p| - |PROMPT_FOOTER|..][2..];
  }

  /** The text can always be read back out of the prompt written around it. */
  lemma PromptRoundTrip(text: string, lengthType: string)
    ensures ExtractText(BuildPrompt(text, lengthType), lengthType) == Some(text)
  {
  }

  /** Different texts give different prompts for the same length type. */
  lemma PromptInjective(text1: string, text2: string, lengthType: string)
    requires BuildPrompt(text1, lengthType) == BuildPrompt(text2, lengthType)
    ensures text1 == text2
  {
    PromptRoundTrip(text1, lengthType);
    PromptRoundTrip(text2, lengthType);
  }

  /** A decimal constant of the request body: `digits` / 10^`scale`. */
  datatype Decimal = Decimal(digits: nat, scale: nat)

  const ANTHROPIC_VERSION := "bedrock-2023-05-31"
  const TEMPERATURE := Decimal(5, 1)
  const TOP_P := Decimal(9, 1)
  const JSON_MEDIA_TYPE := "application/json"

  datatype Message = Message(role: string, content: string)

  /** The fields of `request_body`, before `json.dumps`. */
  datatype RequestBody = RequestBody(
    anthropicVersion: string,
    maxTokens: nat,
    messages: seq<Message>,
    temperature: Decimal,
    topP: Decimal)

  /** The keyword arguments of `invoke_model`. */
  datatype Invocation = Invocation(modelId: string, contentType: string, accept: string, body: RequestBody)

  /** The call `generate_summary` makes: one user message holding the prompt,
      the token budget of the chosen policy, and fixed sampling settings. */
  function BuildInvocation(modelId: string, text: string, lengthType: string): (inv: Invocation)
    ensures inv.modelId == modelId
    ensures inv.contentType == JSON_MEDIA_TYPE && inv.accept == JSON_MEDIA_TYPE
    ensures inv.body.anthropicVersion == "bedrock-2023-05-31"
    ensures inv.body.maxTokens == PolicyFor(lengthType).maxTokens
    ensures inv.body.messages == [Message("user", BuildPrompt(text, lengthType))]
    ensures inv.body.temperature == TEMPERATURE && inv.body.topP == TOP_P
  {
    var body := RequestBody(
      ANTHROPIC_VERSION,
      PolicyFor(lengthType).maxTokens,
      [Message("user", BuildPrompt(text, lengthType))],
      TEMPERATURE,
      TOP_P);
    Invocation(modelId, JSON_MEDIA_TYPE, JSON_MEDIA_TYPE, body)
  }

  /** The request holds a single user message from which the user's text is
      read back unchanged. */
  lemma InvocationCarriesText(modelId: string, text: string, lengthType: string)
    ensures |BuildInvocation(modelId, text, lengthType).body.messages| == 1
    ensures BuildInvocation(modelId, text, lengthType).body.messages[0].role == "user"
    ensures ExtractText(BuildInvocation(modelId, text, lengthType).body.messages[0].content, lengthType) == Some(text)
  {
    PromptRoundTrip(text, lengthType);
  }
}
