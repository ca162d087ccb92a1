# Bedrock Content Summarizer — a Dafny model of `main.py`

`main.py` sends a text to a Claude 3 model on Amazon Bedrock and asks for a
short, medium or long summary of it. It also counts the characters, words and
lines of a text for display. This project models that core in Dafny and proves
properties of it. The modules are:

- `LengthPolicy` (`policy.dfy`): the `length_params` table. It gives each
  length type a description and a `max_tokens` budget, and every other
  length type falls back to the medium entry.
- `SummaryRequest` (`request.dfy`): the prompt template around the user's
  text, and the `invoke_model` call. The call carries the Claude 3 messages
  body: `anthropic_version`, `max_tokens`, one user message, `temperature`
  and `top_p`.
- `Summarizer` (`summarizer.dfy`):
  - reading the summary out of the response (`['content'][0]['text'].strip()`);
  - turning `ClientError`, `KeyError` and every other exception into the
    messages `generate_summary` raises;
  - the class `BedrockSummarizer`, with its fields `region`, `model_id` and
    the runtime client. Its method `GenerateSummary` is `generate_summary`.
    Its method `SummarizeAllLengths` is the `for` loop of
    `summarize_all_lengths`, which fills the dictionary of the three lengths
    and stores `"Error: " + message` for a length that failed.
- `TextStatistics` (`stats.dfy`): `get_text_stats`.
- `PyText` (`pytext.dfy`): the three Python string operations the core relies
  on, `str.strip()`, `str.split()` and `str.splitlines()`.
- `Wrappers` (`wrappers.dfy`): `Option` and `Result`.

The Bedrock runtime client is a field `runtime: Invocation -> BackendOutcome`.
It gives, for each request, how the call ended:
- a parsed response body, in which `content` may be missing or empty, and
  `text` may be missing;
- a `ClientError` with its error code and message;
- a `KeyError` raised before the body is parsed, naming the missing key. The
  `response['body']` lookup at main.py:102 raises one when the response has no
  `body`. It is caught by the `KeyError` handler, so it becomes a format error;
- any other exception, given by its `str()`.

An exception raised by `generate_summary` is modelled as the `Failure` of a
`Result` that holds the exception's message.

Whitespace is the set of code points for which Python's `str.isspace()` is
true: `\t` to `\r`, U+001C to U+0020, U+0085, U+00A0, U+1680, U+2000 to
U+200A, U+2028, U+2029, U+202F, U+205F and U+3000. The line boundaries are
those of `str.splitlines()`: `\n`, `\v`, `\f`, `\r`, U+001C to U+001E,
U+0085, U+2028 and U+2029. `"\r\n"` counts as one boundary.

Two facts about the code are worth stating:
- **Empty text.** `"".splitlines()` is `[]`, so `get_text_stats("")` reports 0
  lines (`EmptyTextStats`).
- **No minimum length.** `generate_summary` in `main.py` accepts any text,
  including the empty one. Only the command-line script rejects stripped text
  shorter than 50 characters (bedrock_summarizer.py:219), and that script is
  not part of this model.

## Model

| member | source | states |
|---|---|---|
| LengthPolicy.PolicyFor | main.py:52-67 | The chosen policy is always one of the three table rows. It is the short row exactly for "short", the long row exactly for "long", and the medium row for every other length type. |
| LengthPolicy.TableKeys | main.py:52-65 | The table has exactly the keys short, medium and long: the three distinct lengths `summarize_all_lengths` visits. |
| LengthPolicy.UnknownLengthIsMedium | main.py:67 | A length type missing from the table gets the same policy as "medium". |
| LengthPolicy.TokensIncreaseWithLength | main.py:52-65 | The token budgets of short, medium and long strictly increase (150 < 300 < 600). |
| LengthPolicy.TokenBudgetBounds | main.py:52-67 | Every length type gets a budget between 150 and 600 tokens. |
| SummaryRequest.BuildPrompt | main.py:70-76 | The prompt is the header, then the user's text verbatim, then "\n\nSummary:". Its length is the sum of the three. |
| SummaryRequest.ExtractText | main.py:70-76 | Whenever it finds a text in a prompt, that text rebuilds exactly that prompt for the given length type. |
| SummaryRequest.PromptRoundTrip | main.py:70-76 | Reading the text back out of the prompt built around it gives the text back. |
| SummaryRequest.PromptInjective | main.py:70-76 | For one length type, different texts give different prompts. |
| SummaryRequest.PromptOpening | main.py:70 | The prompt starts with "Please provide a <length type> summary of the following text. ". The length type is the caller's own, even when the table falls back to medium. |
| SummaryRequest.PromptDescription | main.py:67-71 | After "\nThe summary should be ", the prompt holds the description of the policy chosen for the length type. |
| SummaryRequest.PromptTextLabel | main.py:73-74 | The user's text comes immediately after "Text to summarize:\n". |
| SummaryRequest.PromptEnding | main.py:76 | The prompt ends with "Summary:". |
| SummaryRequest.BuildInvocation | main.py:79-99 | The call goes to the given model id, with content type and accept `application/json`. The body has anthropic_version "bedrock-2023-05-31", the policy's max_tokens, exactly one user message holding the prompt, and the fixed temperature and top_p. |
| SummaryRequest.InvocationCarriesText | main.py:82-87 | The request holds a single message with role "user", and the user's text reads back out of it unchanged. |
| Summarizer.ErrorMessage | main.py:107-114 | Each kind of failure has its own message prefix: "Bedrock API Error (", "Unexpected response format: " or "Failed to generate summary: ". A message starts with a kind's prefix if and only if it reports that kind. |
| Summarizer.MissingKeyOf | main.py:111-112 | A key read out of a format-error message rebuilds exactly that message. |
| Summarizer.MissingKeyRoundTrip | main.py:111-112 | The missing key can always be read back out of its format-error message, which quotes it as a KeyError prints it for keys without quotes or backslashes, such as `content`, `text` and `body`. |
| Summarizer.ReadSummary | main.py:102-103 | Reading succeeds if and only if `content` is present and non-empty and its first element has `text`. The result is that text with its edge whitespace cut off. A missing `content` or `text` is a format error naming that key. An empty `content` list gives the IndexError message "list index out of range". |
| Summarizer.Translate | main.py:92-114 | `generate_summary` succeeds exactly when the call responded and the summary could be read. The summary is then the first content element's `text`, stripped, and has no whitespace at either end. A failure message starts with the API-error prefix exactly for a ClientError, and then holds its code and message verbatim. It starts with the generic prefix exactly for another exception or an empty content list, and another exception's `str()` follows the prefix unchanged. It starts with the format prefix exactly for a missing key, including a KeyError raised before the body is parsed, which quotes that key. For a response that arrives but cannot be read, the message is exactly that of the error `ReadSummary` reports, so it names the missing `content` or `text`, or gives the IndexError's text. |
| Summarizer.SummaryIsStripped | main.py:103 | Stripping a returned summary again leaves it unchanged. |
| Summarizer.ClientErrorText | main.py:107-110 | A ClientError is recorded as "Error: Bedrock API Error (<code>): <message>", with the code and message verbatim. |
| Summarizer.MissingContentText | main.py:103-112 | A response without `content` is recorded as "Error: Unexpected response format: 'content'". |
| Summarizer.MissingTextMessage | main.py:103-112 | A first content element without `text` gives "Unexpected response format: 'text'". |
| Summarizer.EmptyContentMessage | main.py:103-114 | An empty `content` list is not a format error. It gives "Failed to generate summary: list index out of range". |
| Summarizer.Entry | main.py:129-132 | A successful length stores its summary unchanged. A failed length is stored as "Error: " followed by the exception's message, and that message can be read back after the prefix. |
| Summarizer.EntriesFor | main.py:126-132 | The dictionary built over a list of lengths has exactly those lengths as keys. Each holds the entry of its own length's result. |
| Summarizer.AllSummaries | main.py:116-134 | The dictionary of `summarize_all_lengths` always has exactly the keys short, medium and long, whatever fails. Each key holds its own length's entry. |
| Summarizer.EntryIsLocal | main.py:128-132 | A length's entry depends only on the answer to that length's own request. A failure for another length cannot change it. |
| Summarizer.ClientErrorEntry | main.py:107-110 | A ClientError on one length's request puts "Error: Bedrock API Error (<code>): <message>" under that length. |
| Summarizer.MissingContentEntry | main.py:111-112 | A response without `content` puts the format error under that length. |
| Summarizer.MissingBodyMessage | main.py:102-112 | A response without `body` raises a KeyError inside the `try`, so it becomes "Unexpected response format: 'body'", not a generic failure. |
| Summarizer.SummaryEntry | main.py:102-130 | A length whose response has a first content element with `text` stores that text, stripped, under its own key. |
| Summarizer.BedrockSummarizer.constructor | main.py:15-26 | The new summarizer holds the given region, model id and runtime client. The defaults are "us-east-1" and "anthropic.claude-3-haiku-20240307-v1:0". |
| Summarizer.BedrockSummarizer.GenerateSummary | main.py:40-114 | It returns the result of translating the outcome of the request for the text and length type, with "medium" as the default length type. A returned summary is the response's first `text`, stripped, and has no edge whitespace. |
| Summarizer.BedrockSummarizer.SummarizeAllLengths | main.py:116-134 | The loop over short, medium and long builds exactly `AllSummaries` of this client's results: all three keys are present and no failure escapes. The object is left unchanged. |
| TextStatistics.GetTextStats | main.py:149-163 | The characters are the length of the text, and the words are its number of word ends. There are no words exactly when the text is empty or all whitespace, and no lines exactly when the text is empty. Neither words nor lines exceed the characters. |
| TextStatistics.WordsAtMostChars | main.py:161 | A text never has more words than characters. |
| TextStatistics.EmptyTextStats | main.py:159-163 | The empty text has 0 characters, 0 words and 0 lines. |
| TextStatistics.HelloWorldStats | main.py:159-163 | "hello world\nfoo" has 15 characters, 3 words and 2 lines. |
| TextStatistics.TwoLinesThreeWords | main.py:159-163 | Any text of the form "a b\nc", with a, b and c non-empty and free of whitespace, has 3 words and 2 lines. |
| TextStatistics.TrailingNewlineKeepsLineCount | main.py:161-162 | Adding "\n" to a text whose last character is not a line boundary changes neither the line count nor the word count. |
| PyText.Strip | main.py:103 | `strip()` cuts off only whitespace, at both ends, and leaves none at either edge. The result is no longer than the input. |
| PyText.StripOfUnique | main.py:103 | Only one string meets that description, so the contract of `Strip` determines its result. |
| PyText.StripNoEdgeSpace | main.py:103 | A string without whitespace at either end is its own strip. |
| PyText.StripIdempotent | main.py:103 | Stripping twice gives the same as stripping once. |
| PyText.Split | main.py:161 | Every word `split()` returns is non-empty and free of whitespace. |
| PyText.SplitCountsWordEnds | main.py:161 | `split()` returns as many words as the text has word ends: a non-whitespace character followed by whitespace or by the end. |
| PyText.SplitKeepsContent | main.py:161 | The words put together are exactly the non-whitespace characters of the text, in order. |
| PyText.SplitEmptyIffAllSpace | main.py:161 | `split()` finds no word if and only if the text is empty or all whitespace. |
| PyText.SplitWord | main.py:161 | A word followed by a whitespace character is split off as the first word. |
| PyText.SplitJoinWords | main.py:161 | Splitting non-empty, whitespace-free words joined with spaces gives the words back. |
| PyText.LineEnd | main.py:162 | A line ends at a line boundary at or after its start, or at the end of the text. |
| PyText.LineEndFirst | main.py:162 | No line boundary lies between a line's start and its end, so a line ends at the first boundary. |
| PyText.SplitLines | main.py:162 | `str.splitlines()`: the lines of the text, split at the boundaries listed above. No line holds a boundary. There are never more lines than characters, and no lines exactly when the text is empty. |
| PyText.SplitLinesJoinWith | main.py:162 | Lines without boundaries, the last one non-empty, joined with any one boundary ("\n", "\r\n", a lone "\r", or another boundary character), split back into the same lines. |
| PyText.CrLfIsOneBoundary | main.py:162 | "\r\n" is a single boundary: two lines joined by it split into exactly those two lines, not three. |
| PyText.SplitLinesTrailingNewline | main.py:162 | A "\n" after an unterminated last line adds no line. |

## Left out

- Creating the boto3 client (`_initialize_client`, main.py:28-38) and its
  credential errors are left out. They are library calls. The client is the
  `runtime` parameter of the constructor.
- `invoke_model`, `json.dumps` and `json.loads` are left out as library calls
  and network I/O. The request is kept as the record that `json.dumps` would
  serialise. The response is the parsed body, or the exception the call raised.
- The Bedrock service is modelled as a function of the request. The same request
  always gets the same answer, so the randomness of sampling is not modelled.
- `temperature` 0.5 and `top_p` 0.9 are floats. They are carried as the decimal
  constants 5/10 and 9/10 and are not reasoned about numerically.
- A `ClientError` whose response lacks the `Error` entry is not modelled. The
  `KeyError` it raises inside the handler would escape `generate_summary`.
- A response body of another shape than the one read here is left out: for
  example, a `content` that is not a list, or a `text` that is not a string.
  Python then raises a `TypeError`, an `AttributeError`, a `KeyError` or an
  `IndexError`, depending on the shape. A `content` that is an object reaches
  the format-error handler as "Unexpected response format: 0". An empty
  string reaches the generic handler as "Failed to generate summary: string
  index out of range". The model cannot produce these messages. The statements
  of `Translate` about which prefix a message starts with hold only for the
  response shapes modelled.
- Summarizer.SummarizeAllLengths: the dictionary is a Dafny `map`, which has no
  order. The insertion order short, medium, long of the Python `dict` is not
  represented. The loop does visit the three lengths in that order.
- `validate_aws_credentials` (main.py:137-146) is left out: it only reads
  environment variables.
- Whitespace and line boundaries are the fixed sets listed above. Unicode
  database updates beyond them are not modelled.
- SummaryRequest.ExtractText: the prompt alone does not determine the length
  type, because a length type can itself contain the template's text. Text can
  only be read back for a known length type.
