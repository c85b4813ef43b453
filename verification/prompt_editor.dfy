/** The prompt editor's state and its small transitions: the settings
    update, the submit guard, the disabled state of the run button, the
    "generate variations" rewrite, clearing, and the max-tokens input.

    `Math.random()` arrives as a parameter in [0, 1). Temperature and top-p
    are exact reals; the sliders' floating-point steps are not modelled. */
module PromptEditor {
  import opened Common
  import opened JsString

  datatype Settings = Settings(temperature: real, maxTokens: int, topP: real, systemPrompt: string)

  const DefaultSettings := Settings(0.7, 1000, 1.0, DefaultSystemPrompt)

  const DefaultSystemPrompt :=
      "You are a helpful AI assistant that "
    + "provides accurate and concise information."

  /** The editor's own state: the prompt text and the settings. */
  datatype Editor = Editor(prompt: string, settings: Settings)

  const InitialEditor := Editor("", DefaultSettings)

  // ---------------------------------------------------------------------------
  // Settings

  datatype Key = Temperature | MaxTokens | TopP | SystemPrompt

  /** A settings field's value, whichever its type. */
  datatype Value = Real(r: real) | Whole(n: int) | Text(s: string)

  /** The value of field `k` of `s`. */
  function Field(s: Settings, k: Key): Value {
    match k
    case Temperature => Real(s.temperature)
    case MaxTokens => Whole(s.maxTokens)
    case TopP => Real(s.topP)
    case SystemPrompt => Text(s.systemPrompt)
  }

  /** A call `handleChangeSettings(key, value)` as the editor's controls make
      it: each control passes a value of its own field's type. */
  datatype Change =
    | SetTemperature(t: real)
    | SetMaxTokens(n: int)
    | SetTopP(p: real)
    | SetSystemPrompt(text: string)
  {
    function Key(): Key {
      match this
      case SetTemperature(_) => Temperature
      case SetMaxTokens(_) => MaxTokens
      case SetTopP(_) => TopP
      case SetSystemPrompt(_) => SystemPrompt
    }

    function NewValue(): Value {
      match this
      case SetTemperature(t) => Real(t)
      case SetMaxTokens(n) => Whole(n)
      case SetTopP(p) => Real(p)
      case SetSystemPrompt(text) => Text(text)
    }
  }

  /** `handleChangeSettings`: the changed field takes the new value and
      every other field keeps its old one. */
  function ChangeSettings(s: Settings, c: Change): (r: Settings)
    ensures Field(r, c.Key()) == c.NewValue()
    ensures forall k :: k != c.Key() ==> Field(r, k) == Field(s, k)
  {
    match c
    case SetTemperature(t) => s.(temperature := t)
    case SetMaxTokens(n) => s.(maxTokens := n)
    case SetTopP(p) => s.(topP := p)
    case SetSystemPrompt(text) => s.(systemPrompt := text)
  }

  /** The value the max-tokens input passes on: `parseInt(raw) || 1000`,
      which falls back to 1000 when parsing gives `NaN` or zero. */
  function MaxTokensInput(raw: string): (n: int)
    ensures n != 0
    ensures ParseInt(raw).NaN? || ParseInt(raw) == Int(0) ==> n == 1000
    ensures ParseInt(raw).Int? && ParseInt(raw).value != 0 ==> n == ParseInt(raw).value
  {
    match ParseInt(raw)
    case NaN => 1000
    case Int(v) => if v == 0 then 1000 else v
  }

  /** Typing a number into the max-tokens input stores that number, except
      that zero falls back to 1000. */
  lemma MaxTokensInputOfNumeral(n: nat)
    ensures MaxTokensInput(Decimal(n)) == if n == 0 then 1000 else n
  {
    ParseDecimal(n);
  }

  // ---------------------------------------------------------------------------
  // Submitting

  /** What the editor hands to the dashboard's handler. */
  datatype Submission = Submission(prompt: string, settings: Settings)

  /** `handleSubmit`: a blank prompt is dropped; any other prompt is handed
      on as it is, untrimmed, with the current settings. */
  function HandleSubmit(e: Editor): (call: Option<Submission>)
    ensures call.None? <==> IsBlank(e.prompt)
    ensures call.Some? ==> call.value == Submission(e.prompt, e.settings)
  {
    if |Trim(e.prompt)| == 0 then None else Some(Submission(e.prompt, e.settings))
  }

  /** The run button's `disabled` attribute: the prompt is blank or a
      response is being generated. */
  function SubmitDisabled(prompt: string, isLoading: bool): (disabled: bool)
    ensures disabled <==> IsBlank(prompt) || isLoading
  {
    |Trim(prompt)| == 0 || isLoading
  }

  /** An enabled run button always leads to a call of the handler. */
  lemma EnabledButtonSubmits(e: Editor, isLoading: bool)
    requires !SubmitDisabled(e.prompt, isLoading)
    ensures HandleSubmit(e) == Some(Submission(e.prompt, e.settings))
  {
  }

  // ---------------------------------------------------------------------------
  // Variations and clearing

  const Variations := [BeginnerVariation, TechnicalVariation, ContrastVariation]

  // Longer texts are written in short pieces, which the verifier handles
  // more cheaply than one long literal.
  const BeginnerVariation := "Can you explain this concept " + "as if I'm a beginner?"
  const TechnicalVariation :=
      "Analyze the following scenario "
    + "with technical depth."
  const ContrastVariation := "Compare and contrast these approaches."

  const VariationSeparator := "\n\nVariation idea: "

  /** `Math.floor(random * variations.length)`. */
  function VariationIndex(random: real): (i: nat)
    requires 0.0 <= random < 1.0
    ensures i < |Variations|
  {
    (random * 3.0).Floor
  }

  /** `generatePromptVariations`: a blank prompt becomes the first
      variation; any other prompt keeps its text and gains a separator and
      one of the variations. */
  function GenerateVariations(prev: string, random: real): (next: string)
    requires 0.0 <= random < 1.0
    ensures IsBlank(prev) ==> next == Variations[0]
    ensures !IsBlank(prev) ==> exists v :: v in Variations && next == prev + VariationSeparator + v
  {
    if |Trim(prev)| == 0 then Variations[0]
    else
      var v := Variations[VariationIndex(random)];
      assert v in Variations;
      prev + VariationSeparator + v
  }

  /** A variation never loses what was typed: a non-blank prompt survives
      as a proper prefix of the new one. */
  lemma VariationExtendsPrompt(prev: string, random: real)
    requires 0.0 <= random < 1.0
    requires !IsBlank(prev)
    ensures var next := GenerateVariations(prev, random);
      |next| > |prev| && next[..|prev|] == prev
  {
    var v := Variations[VariationIndex(random)];
    assert GenerateVariations(prev, random) == prev + VariationSeparator + v;
    AppendAssociates(prev, VariationSeparator, v);
    PrefixOfAppend(prev, VariationSeparator + v);
  }

  /** The prompt after a variation is never blank, so it can always be run. */
  lemma VariationIsSubmittable(e: Editor, random: real)
    requires 0.0 <= random < 1.0
    ensures HandleSubmit(e.(prompt := GenerateVariations(e.prompt, random))).Some?
  {
    var next := GenerateVariations(e.prompt, random);
    if IsBlank(e.prompt) {
      assert next == BeginnerVariation;
      assert BeginnerVariation[0] == 'C';
      NotBlankAt(next, 0);
    } else {
      var i :| 0 <= i < |e.prompt| && !IsWhitespace(e.prompt[i]);
      VariationExtendsPrompt(e.prompt, random);
      assert next[..|e.prompt|][i] == e.prompt[i];
      NotBlankAt(next, i);
    }
  }

  /** The clear button: the prompt becomes empty, the settings stay. */
  function Clear(e: Editor): (r: Editor)
    ensures r.prompt == [] && r.settings == e.settings
  {
    e.(prompt := "")
  }

  /** A cleared editor cannot run: the button is disabled and a submit is
      dropped. */
  lemma ClearedEditorCannotSubmit(e: Editor, isLoading: bool)
    ensures SubmitDisabled(Clear(e).prompt, isLoading)
    ensures HandleSubmit(Clear(e)) == None
  {
  }
}
