/** Whole-application walkthroughs that combine the session manager, the
    prompt editor, the response generator and the metrics panel. */
module Scenario {
  import opened Common
  import opened JsString
  import opened AuthContext
  import opened Dashboard
  import opened PromptEditor
  import opened SimpleMetrics

  /** The demo researcher signs in on a fresh browser, then runs the prompt
      "Explain quantum computing" (25 characters): the response begins with
      the explanation heading, names the default model, and counts
      ceil(25/4) = 7 prompt and ceil(25/2) = 13 completion tokens. */
  lemma ResearcherExplainsQuantumComputing(parse: string -> Option<User>, stringify: User -> string, env: SubmitEnv)
    ensures var start := Restore(map[], parse);
      && !IsAuthenticated(start)
      && Login(start, "researcher@example.com", "password", stringify).outcome
           == Welcome(User("1", "researcher@example.com", "Alex Researcher", Researcher, Some("AI Research Lab")))
    ensures var prompt := "Explain quantum computing";
      var response := HandlePromptSubmit(InitialState, prompt, DefaultSettings, env).response.value;
      && response.model == "gpt-4o"
      && |response.text| >= |ExplanationPrefix|
      && response.text[..|ExplanationPrefix|] == ExplanationPrefix
      && response.metadata.tokenCount == TokenCount(7, 13, 20)
  {
    ResearcherSignsIn(parse, stringify);
    QuantumComputingResponse(env);
  }

  lemma ResearcherSignsIn(parse: string -> Option<User>, stringify: User -> string)
    ensures var start := Restore(map[], parse);
      && !IsAuthenticated(start)
      && Login(start, "researcher@example.com", "password", stringify).outcome
           == Welcome(User("1", "researcher@example.com", "Alex Researcher", Researcher, Some("AI Research Lab")))
  {
    SeedAccountsLogIn(Restore(map[], parse), MockUsers()[0], stringify);
  }

  lemma QuantumComputingResponse(env: SubmitEnv)
    ensures var prompt := "Explain quantum computing";
      var response := HandlePromptSubmit(InitialState, prompt, DefaultSettings, env).response.value;
      && response.model == "gpt-4o"
      && |response.text| >= |ExplanationPrefix|
      && response.text[..|ExplanationPrefix|] == ExplanationPrefix
      && response.metadata.tokenCount == TokenCount(7, 13, 20)
  {
    QuantumPromptMentionsExplain();
    PrefixOfAppend(ExplanationPrefix, ExplanationBody);
    TokensOf25();
  }

  lemma QuantumPromptMentionsExplain()
    ensures |"Explain quantum computing"| == 25
    ensures Occurs("explain", ToLower("Explain quantum computing"))
  {
    var lower := ToLower("Explain quantum computing");
    assert lower[..7] == "explain";
    assert OccursAt("explain", lower, 0);
  }

  lemma TokensOf25()
    ensures CountTokens(25) == TokenCount(7, 13, 20)
  {
    var t := CountTokens(25);
    HalfAtLeastQuarter(25, t.prompt, t.completion);
  }

  /** Asking for variations on an empty editor and running the result gives
      the explanation text, because the first variation mentions
      "explain". */
  lemma BlankVariationGetsExplanation(e: Editor, random: real, st: DashboardState, env: SubmitEnv)
    requires IsBlank(e.prompt)
    requires 0.0 <= random < 1.0
    ensures var next := e.(prompt := GenerateVariations(e.prompt, random));
      && HandleSubmit(next).Some?
      && HandlePromptSubmit(st, HandleSubmit(next).value.prompt, next.settings, env).response.value.text
           == ExplanationPrefix + ExplanationBody
  {
    var next := e.(prompt := GenerateVariations(e.prompt, random));
    VariationIsSubmittable(e, random);
    assert next.prompt == BeginnerVariation;
    assert HandleSubmit(next).value.prompt == BeginnerVariation;
    BeginnerVariationExplains();
  }

  lemma BeginnerVariationExplains()
    ensures SelectTemplate(BeginnerVariation) == Explanation
  {
    var lower := ToLower(BeginnerVariation);
    forall i | 8 <= i < 15
      ensures lower[i] == "explain"[i - 8]
    {
      assert BeginnerVariation[i] == "Can you explain this concept "[i];
    }
    assert lower[8..15] == "explain";
    assert OccursAt("explain", lower, 8);
  }

  /** The usage figures the dashboard passes to the metrics panel. */
  function MockModelUsage(): seq<Entry> {
    [Entry("GPT-4o", 532), Entry("Claude 3", 314), Entry("Gemini Pro", 243), Entry("Llama 3", 198)]
  }

  /** On the dashboard's figures the top model is "GPT-4o" with 532 of the
      1287 requests. */
  lemma MockMetricsTopModel()
    ensures TopModel(MockModelUsage()) == Entry("GPT-4o", 532)
    ensures TotalUsage(MockModelUsage()) == 1287
  {
    var u := MockModelUsage();
    assert u[1..][1..][1..][1..] == [];
  }

  /** Two models used 3 and 1 times: shares of 75 and 25 percent, ranked
      in that order. */
  lemma ThreeToOneBreakdown()
    ensures Ranked([Entry("A", 1), Entry("B", 3)])
              == [Row("B", 3, Some(75.0)), Row("A", 1, Some(25.0))]
  {
    var u := [Entry("A", 1), Entry("B", 3)];
    assert u[1..][1..] == [];
    assert Sum(u) == 4;
    var rows := Rows(u, 4);
    assert rows == [Row("A", 1, Some(25.0)), Row("B", 3, Some(75.0))];
    assert rows[1..][1..] == [];
    assert SortByCount(rows[1..]) == [Row("B", 3, Some(75.0))];
  }
}
