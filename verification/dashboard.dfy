/** The mock response generator behind the dashboard's prompt handler: crude
    token counts derived from the prompt length, one of four canned texts
    chosen by ordered keyword rules, and the response record that replaces
    the previous one.

    The random 500-2500 ms delay, `Date.now`, `toISOString` and the `v4` id
    generator are not modelled as effects: their values arrive as a
    `SubmitEnv`. */
module Dashboard {
  import opened Common
  import opened JsString

  // ---------------------------------------------------------------------------
  // Token arithmetic

  /** `Math.ceil(n / d)` for a length `n`: the least `q` with `q * d >= n`,
      counted by taking off `d` at a time. */
  function CeilDiv(n: nat, d: nat): (q: nat)
    requires d > 0
    ensures q * d >= n
    ensures q == 0 || (q - 1) * d < n
    decreases n
  {
    if n == 0 then 0
    else if n <= d then 1
    else
      var q := CeilDiv(n - d, d);
      assert (q + 1) * d == q * d + d;
      q + 1
  }

  datatype TokenCount = TokenCount(prompt: nat, completion: nat, total: nat)

  /** The fabricated token counts for a prompt of `length` characters: a
      quarter of the length for the prompt, half of it for the completion,
      both rounded up, and their sum. */
  function CountTokens(length: nat): (t: TokenCount)
    ensures t.prompt * 4 >= length && (t.prompt == 0 || (t.prompt - 1) * 4 < length)
    ensures t.completion * 2 >= length && (t.completion == 0 || (t.completion - 1) * 2 < length)
    ensures t.total == t.prompt + t.completion
  {
    var p := CeilDiv(length, 4);
    var c := CeilDiv(length, 2);
    TokenCount(p, c, p + c)
  }

  /** The completion count never falls below the prompt count, and a
      non-empty prompt has at least one token of each kind. */
  lemma TokenCountBounds(length: nat)
    ensures CountTokens(length).completion >= CountTokens(length).prompt
    ensures length > 0 ==> CountTokens(length).prompt >= 1 && CountTokens(length).completion >= 1
    ensures length == 0 ==> CountTokens(length) == TokenCount(0, 0, 0)
  {
    var t := CountTokens(length);
    HalfAtLeastQuarter(length, t.prompt, t.completion);
  }

  lemma HalfAtLeastQuarter(length: nat, p: nat, c: nat)
    requires p * 4 >= length && (p == 0 || (p - 1) * 4 < length)
    requires c * 2 >= length && (c == 0 || (c - 1) * 2 < length)
    ensures c >= p
    ensures length > 0 ==> p >= 1 && c >= 1
    ensures length == 0 ==> p == 0 && c == 0
  {
  }

  // ---------------------------------------------------------------------------
  // Canned texts

  datatype Template = Explanation | Comparison | Enumeration | Recommendation

  // Each text is written as a concatenation of short pieces that join to the
  // application's text character for character; the verifier reasons about
  // short literals far more cheaply than about one long one.

  const ExplanationBody :=
      "The concept involves integrating "
    + "multiple large language models "
    + "(LLMs) to create a more robust "
    + "and versatile system. By combining "
    + "models with different strengths, "
    + "the system can leverage the "
    + "unique capabilities of each "
    + "model while mitigating their "
    + "individual weaknesses.\n\nThis "
    + "approach, often called model "
    + "ensembling, allows for more "
    + "consistent responses and better "
    + "handling of edge cases that "
    + "might confuse a single model."

  const ComparisonBody :=
      "| Feature | Model A | Model "
    + "B |\n|---------|---------|--------|\n"
    + "| Parameters | 7B | 70B |\n| "
    + "Training Data | 1T tokens | "
    + "8T tokens |\n| Context Length "
    + "| 4K | 32K |\n| Inference Speed "
    + "| Faster | Slower |\n| Reasoning "
    + "| Good | Excellent |\n\nModel "
    + "A excels in efficiency and speed, "
    + "making it suitable for applications "
    + "with latency constraints, while "
    + "Model B provides superior reasoning "
    + "and handles complex tasks more "
    + "effectively at the cost of higher "
    + "computational requirements."

  const ListBody :=
      "1. Prompt engineering techniques\n"
    + "2. Few-shot learning strategies\n"
    + "3. Chain-of-thought prompting\n"
    + "4. Output format control\n5. "
    + "System message optimization\n"
    + "6. Context window management\n"
    + "7. Retrieval-augmented generation"

  /** The generic text, with its opening words named on their own. */
  const RecommendationBody := RecommendationOpening + RecommendationRest

  const RecommendationOpening := "Based on my analysis, "

  const RecommendationRest :=
      "the optimal approach would be "
    + "to implement a retrieval-augmented "
    + "generation (RAG) system that "
    + "combines the strengths of both "
    + "dense retrieval and sparse retrieval "
    + "methods. This hybrid approach "
    + "can significantly improve the "
    + "quality and relevance of generated "
    + "responses.\n\nThe system would "
    + "first use a vector database "
    + "to find semantically similar "
    + "content, then apply keyword-based "
    + "filtering to ensure precision. "
    + "For your specific use case, "
    + "I recommend starting with a "
    + "smaller model fine-tuned on "
    + "domain-specific data rather "
    + "than immediately deploying a "
    + "larger, more general model."

  const ExplanationPrefix :=
      "Here's an explanation of the "
    + "concept:\n\n"
  const ComparisonPrefix := "Here's a comparison:\n\n"
  const ListPrefix := "Here's a list of items:\n\n"

  /** The full response text of each template. */
  function TemplateText(t: Template): string {
    match t
    case Explanation => ExplanationPrefix + ExplanationBody
    case Comparison => ComparisonPrefix + ComparisonBody
    case Enumeration => ListPrefix + ListBody
    case Recommendation => RecommendationBody
  }

  /** Distinct templates have distinct texts, so the text alone tells which
      rule fired. */
  lemma TemplateTextInjective(t1: Template, t2: Template)
    requires t1 != t2
    ensures TemplateText(t1) != TemplateText(t2)
  {
    TemplateMarks(t1);
    TemplateMarks(t2);
    MarkInjective(t1, t2);
  }

  /** Characters 0, 8 and 9 of each text, which already tell them apart:
      "Here's an ", "Here's a c", "Here's a l" and "Based on m". */
  function Mark(t: Template): (char, char, char) {
    match t
    case Explanation => ('H', 'n', ' ')
    case Comparison => ('H', ' ', 'c')
    case Enumeration => ('H', ' ', 'l')
    case Recommendation => ('B', ' ', 'm')
  }

  lemma MarkInjective(t1: Template, t2: Template)
    requires t1 != t2
    ensures Mark(t1) != Mark(t2)
  {
  }

  lemma TemplateMarks(t: Template)
    ensures |TemplateText(t)| >= 10
    ensures Mark(t) == (TemplateText(t)[0], TemplateText(t)[8], TemplateText(t)[9])
  {
    match t
    case Explanation => ExplanationOpening();
    case Comparison => ComparisonOpening();
    case Enumeration => ListOpening();
    case Recommendation =>
      RecommendationOpens();
      assert TemplateText(t) == RecommendationOpening + RecommendationRest;
  }

  // One lemma per opening keeps each literal in a proof context of its own.

  lemma ExplanationOpening()
    ensures |ExplanationPrefix| == 39
    ensures (ExplanationPrefix[0], ExplanationPrefix[8], ExplanationPrefix[9]) == Mark(Explanation)
  {
  }

  lemma ComparisonOpening()
    ensures |ComparisonPrefix| == 22
    ensures (ComparisonPrefix[0], ComparisonPrefix[8], ComparisonPrefix[9]) == Mark(Comparison)
  {
  }

  lemma ListOpening()
    ensures |ListPrefix| == 25
    ensures (ListPrefix[0], ListPrefix[8], ListPrefix[9]) == Mark(Enumeration)
  {
  }

  lemma RecommendationOpens()
    ensures |RecommendationOpening| == 22
    ensures (RecommendationOpening[0], RecommendationOpening[8], RecommendationOpening[9]) == Mark(Recommendation)
  {
  }

  // ---------------------------------------------------------------------------
  // Keyword dispatch

  /** The first rule, in order "explain", "compare", "list" or "what are",
      that the lower-cased prompt contains; the recommendation when none
      does. */
  function SelectTemplate(prompt: string): (t: Template)
    ensures var p := ToLower(prompt);
      && (t == Explanation <==> Occurs("explain", p))
      && (t == Comparison <==> !Occurs("explain", p) && Occurs("compare", p))
      && (t == Enumeration <==> !Occurs("explain", p) && !Occurs("compare", p)
                                && (Occurs("list", p) || Occurs("what are", p)))
      && (t == Recommendation <==> !Occurs("explain", p) && !Occurs("compare", p)
                                   && !Occurs("list", p) && !Occurs("what are", p))
  {
    var p := ToLower(prompt);
    IncludesIffOccurs(p, "explain");
    IncludesIffOccurs(p, "compare");
    IncludesIffOccurs(p, "list");
    IncludesIffOccurs(p, "what are");
    if Includes(p, "explain") then Explanation
    else if Includes(p, "compare") then Comparison
    else if Includes(p, "list") || Includes(p, "what are") then Enumeration
    else Recommendation
  }

  /** The response text for a prompt: always one of the four fixed texts,
      never built from the prompt's own characters. */
  function ResponseText(prompt: string): (text: string)
    ensures exists t :: text == TemplateText(t)
    ensures Occurs("explain", ToLower(prompt)) ==> text == ExplanationPrefix + ExplanationBody
  {
    TemplateText(SelectTemplate(prompt))
  }

  /** Matching ignores case: a prompt and its lower-cased form get the same
      text. */
  lemma ResponseIgnoresCase(prompt: string)
    ensures ResponseText(ToLower(prompt)) == ResponseText(prompt)
  {
    ToLowerIdempotent(prompt);
  }

  /** Two prompts that agree once lower-cased get the same text. */
  lemma ResponseDependsOnlyOnLowerCase(p: string, q: string)
    requires ToLower(p) == ToLower(q)
    ensures ResponseText(p) == ResponseText(q)
  {
  }

  // ---------------------------------------------------------------------------
  // The response record and the handler

  datatype Metadata = Metadata(duration: real, tokenCount: TokenCount)

  datatype ModelResponse = ModelResponse(
    id: string,
    text: string,
    model: string,
    timestamp: string,
    metadata: Metadata)

  /** The values the handler draws from the environment: a fresh id, the
      ISO-8601 timestamp, and the clock readings in milliseconds before the
      delay and after it. */
  datatype SubmitEnv = SubmitEnv(id: string, timestamp: string, startMs: int, endMs: int)

  /** The dashboard's view state: the chosen model, the loading flag, and the
      single last response. */
  datatype DashboardState = DashboardState(
    selectedModel: string,
    isLoading: bool,
    response: Option<ModelResponse>)

  const InitialState := DashboardState("gpt-4o", false, None)

  /** `handlePromptSubmit(prompt, settings)`: build the response for the
      prompt and the selected model and make it the only response held;
      loading is off afterwards. The settings are accepted and ignored. */
  function HandlePromptSubmit<S>(st: DashboardState, prompt: string, settings: S, env: SubmitEnv): (r: DashboardState)
    ensures !r.isLoading
    ensures r.selectedModel == st.selectedModel
    ensures r.response.Some?
    ensures var resp := r.response.value;
      && resp.model == st.selectedModel
      && resp.id == env.id
      && resp.timestamp == env.timestamp
      && resp.text == ResponseText(prompt)
      && resp.metadata.tokenCount.total == resp.metadata.tokenCount.prompt + resp.metadata.tokenCount.completion
      && resp.metadata.tokenCount.prompt * 4 >= |prompt|
      && (resp.metadata.tokenCount.prompt == 0 || (resp.metadata.tokenCount.prompt - 1) * 4 < |prompt|)
      && resp.metadata.tokenCount.completion * 2 >= |prompt|
      && (resp.metadata.tokenCount.completion == 0 || (resp.metadata.tokenCount.completion - 1) * 2 < |prompt|)
      && resp.metadata.duration * 1000.0 == (env.endMs - env.startMs) as real
  {
    var response := ModelResponse(
      env.id,
      ResponseText(prompt),
      st.selectedModel,
      env.timestamp,
      Metadata((env.endMs - env.startMs) as real / 1000.0, CountTokens(|prompt|)));
    st.(isLoading := false, response := Some(response))
  }

  /** The new response replaces the old one: the previous response and the
      previous loading flag have no bearing on the state after a submit. */
  lemma SubmitReplacesResponse<S>(st1: DashboardState, st2: DashboardState, prompt: string,
                                  settings1: S, settings2: S, env: SubmitEnv)
    requires st1.selectedModel == st2.selectedModel
    ensures HandlePromptSubmit(st1, prompt, settings1, env) == HandlePromptSubmit(st2, prompt, settings2, env)
  {
  }
}
