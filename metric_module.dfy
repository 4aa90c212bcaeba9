/**
 * `MetricModule`: a language model turned into a scoring function. The
 * module keeps the model, its demonstrations and its prompt template; a call
 * builds the prompt, asks the model once, and parses the reply as a score.
 */
module Metric {
  import opened Wrappers
  import opened Text
  import opened Prompt
  import opened ScoreParser

  /** The `KeyError` of the prompt build, or the `ValueError` of the score parser. */
  datatype ForwardError = BadPrompt(cause: PromptError) | BadResponse(reason: ParseError)

  /**
   * What `forward(input, prediction, gold)` returns or raises for a module
   * with the given model, demonstrations and template.
   */
  function Score(lm: string -> string, demos: seq<Demo>, template: Template,
                 input: string, prediction: string, gold: Option<string>): (r: Result<real, ForwardError>)
    ensures r.Success? ==> 0.0 <= r.value <= 1.0
    ensures r.Failure? && r.error.BadResponse? && r.error.reason.OutOfRange? ==>
              r.error.reason.score < 0.0 || r.error.reason.score > 1.0
  {
    match BuiltPrompt(demos, template, input, prediction, gold)
    case Failure(e) => Failure(BadPrompt(e))
    case Success(prompt) =>
      match ParseScore(lm(prompt))
      case Failure(e) => Failure(BadResponse(e))
      case Success(s) => Success(s)
  }

  /**
   * The language model `lm`: it answers each prompt as `respond` does, and
   * `prompts` records every prompt it has been sent, in order.
   */
  class LanguageModel {
    const respond: string -> string
    var prompts: seq<string>

    constructor (respond: string -> string)
      ensures this.respond == respond && prompts == []
    {
      this.respond := respond;
      prompts := [];
    }

    /** `lm(prompt)`. */
    method Call(prompt: string) returns (response: string)
      modifies this
      ensures response == respond(prompt)
      ensures prompts == old(prompts) + [prompt]
    {
      prompts := prompts + [prompt];
      response := respond(prompt);
    }
  }

  class MetricModule {
    var lm: LanguageModel
    var demonstrations: seq<Demo>
    var promptTemplate: Template

    /** No demonstrations and the built-in template unless they are given. */
    constructor (lm: LanguageModel, demonstrations: Option<seq<Demo>>, promptTemplate: Option<Template>)
      ensures this.lm == lm
      ensures this.demonstrations == (if demonstrations.Some? then demonstrations.value else [])
      ensures this.promptTemplate == (if promptTemplate.Some? then promptTemplate.value else DefaultTemplate)
    {
      this.lm := lm;
      this.demonstrations := if demonstrations.Some? then demonstrations.value else [];
      this.promptTemplate := if promptTemplate.Some? then promptTemplate.value else DefaultTemplate;
    }

    /**
     * `_build_prompt`: the header, the demonstrations in list order and the
     * transition line (only when there are demonstrations), then the
     * filled-in template, the gold sentence for a non-empty gold answer, and
     * the closing instruction, appended one by one to an empty accumulator.
     */
    method BuildPrompt(input: string, prediction: string, gold: Option<string>)
      returns (r: Result<string, PromptError>)
      ensures r == BuiltPrompt(demonstrations, promptTemplate, input, prediction, gold)
    {
      var demos := demonstrations;
      var prompt := "";
      if |demos| > 0 {
        prompt := prompt + Header;
        var i := 0;
        while i < |demos|
          invariant 0 <= i <= |demos|
          invariant DemoEntries(demos[..i]).Success?
          invariant prompt == Header + DemoEntries(demos[..i]).value
        {
          var entry := DemoEntry(demos[i]);
          if entry.Failure? {
            FirstBadDemo(demos, i);
            r := Failure(entry.error);
            return;
          }
          AccumulateEntry(demos, i, Header, prompt);
          prompt := prompt + entry.value;
          i := i + 1;
        }
        assert demos[..i] == demos;
        prompt := prompt + Transition;
      }
      ghost var examples := prompt;
      assert ExamplesSection(demos) == Success(examples);
      var body := Format(promptTemplate, input, prediction);
      if body.Failure? {
        r := Failure(body.error);
        return;
      }
      prompt := prompt + body.value;
      if HasText(gold) {
        prompt := prompt + " The correct answer is '" + gold.value + "'.";
      }
      assert prompt == examples + body.value + GoldSentence(gold);
      prompt := prompt + Trailer;
      r := Success(prompt);
    }

    /**
     * `forward`: builds the prompt, sends it to the model once, and parses
     * the reply; a prompt that cannot be built is never sent.
     */
    method Forward(input: string, prediction: string, gold: Option<string>)
      returns (r: Result<real, ForwardError>)
      modifies lm
      ensures r == Score(lm.respond, demonstrations, promptTemplate, input, prediction, gold)
      ensures var p := BuiltPrompt(demonstrations, promptTemplate, input, prediction, gold);
              lm.prompts == old(lm.prompts) + if p.Success? then [p.value] else []
    {
      var prompt := BuildPrompt(input, prediction, gold);
      if prompt.Failure? {
        r := Failure(BadPrompt(prompt.error));
        return;
      }
      var response := lm.Call(prompt.value);
      var score := ParseScore(response);
      if score.Failure? {
        r := Failure(BadResponse(score.error));
        return;
      }
      r := Success(score.value);
    }
  }

  /**
   * A score is never made up: the call fails exactly when the prompt cannot
   * be built or the model's reply does not parse to a value in [0, 1], and a
   * successful call returns the parsed reply.
   */
  lemma ScoreIsParsedReply(lm: string -> string, demos: seq<Demo>, template: Template,
                           input: string, prediction: string, gold: Option<string>)
    ensures var p := BuiltPrompt(demos, template, input, prediction, gold);
            Score(lm, demos, template, input, prediction, gold).Success? <==>
              p.Success? && ParseScore(lm(p.value)).Success?
    ensures var p := BuiltPrompt(demos, template, input, prediction, gold);
            Score(lm, demos, template, input, prediction, gold).Success? ==>
              Score(lm, demos, template, input, prediction, gold).value == ParseScore(lm(p.value)).value
  {
  }

  /** A reply without any digit is rejected with "no number found", never defaulted. */
  lemma NoDigitNoScore(lm: string -> string, demos: seq<Demo>, template: Template,
                       input: string, prediction: string, gold: Option<string>)
    requires BuiltPrompt(demos, template, input, prediction, gold).Success?
    requires var reply := lm(BuiltPrompt(demos, template, input, prediction, gold).value);
             forall k :: 0 <= k < |reply| ==> !IsDigit(reply[k])
    ensures Score(lm, demos, template, input, prediction, gold) == Failure(BadResponse(NoNumber))
  {
    NoNumberIffNoDigit(lm(BuiltPrompt(demos, template, input, prediction, gold).value));
  }

  /**
   * The model's reply decides the score only through the prompt: two models
   * that answer this prompt alike give the same result.
   */
  lemma ScoreDependsOnReply(lm1: string -> string, lm2: string -> string, demos: seq<Demo>,
                            template: Template, input: string, prediction: string, gold: Option<string>)
    requires var p := BuiltPrompt(demos, template, input, prediction, gold);
             p.Success? ==> lm1(p.value) == lm2(p.value)
    ensures Score(lm1, demos, template, input, prediction, gold) ==
            Score(lm2, demos, template, input, prediction, gold)
  {
  }
}
