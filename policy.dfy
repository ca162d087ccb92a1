/**
  The summary-length policy of `generate_summary`: the `length_params` table
  and the lookup that falls back to the medium entry for any other length.
*/
module LengthPolicy {

  /** One row of `length_params`: how the prompt describes the summary and
      how many tokens the model may produce. */
  datatype Policy = Policy(description: string, maxTokens: nat)

  const SHORT := Policy("2-3 sentences that capture the main point", 150)
  const MEDIUM := Policy("1 paragraph (4-6 sentences) covering key points", 300)
  const LONG := Policy("multiple paragraphs with comprehensive details", 600)

  /** `length_params`, keyed by length type. */
  const LENGTH_PARAMS: map<string, Policy> := map["short" := SHORT, "medium" := MEDIUM, "long" := LONG]

  /** The length types of the table, in the order `summarize_all_lengths` visits them. */
  const LENGTHS: seq<string> := ["short", "medium", "long"]

  /** `length_params.get(length_type, length_params['medium'])`. */
  function PolicyFor(lengthType: string): (p: Policy)
    ensures p == SHORT || p == MEDIUM || p == LONG
    ensures p == SHORT <==> lengthType == "short"
    ensures p == LONG <==> lengthType == "long"
    ensures p == MEDIUM <==> lengthType != "short" && lengthType != "long"
  {
    if lengthType in LENGTH_PARAMS then LENGTH_PARAMS[lengthType] else LENGTH_PARAMS["medium"]
  }

  /** The table knows exactly the three lengths that `summarize_all_lengths` visits. */
  lemma TableKeys()
    ensures LENGTH_PARAMS.Keys == set lt | lt in LENGTHS
    ensures |LENGTHS| == 3 && LENGTHS[0] != LENGTHS[1] && LENGTHS[1] != LENGTHS[2] && LENGTHS[0] != LENGTHS[2]
  {
  }

  /** An unknown length type is served exactly like "medium". */
  lemma UnknownLengthIsMedium(lengthType: string)
    requires lengthType !in LENGTH_PARAMS
    ensures PolicyFor(lengthType) == PolicyFor("medium")
  {
  }

  /** Longer summary types allow strictly more output tokens. */
  lemma TokensIncreaseWithLength()
    ensures PolicyFor("short").maxTokens < PolicyFor("medium").maxTokens < PolicyFor("long").maxTokens
  {
  }

  /** Every length type gets a token budget between 150 and 600. */
  lemma TokenBudgetBounds(lengthType: string)
    ensures 150 <= PolicyFor(lengthType).maxTokens <= 600
  {
  }
}
