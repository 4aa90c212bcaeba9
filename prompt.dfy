/**
 * The text `MetricModule._build_prompt` sends to the language model: an
 * optional block of demonstrations, the prompt template with `{input}` and
 * `{prediction}` filled in, an optional sentence naming the gold answer, and a
 * fixed closing instruction.
 *
 * A template is a list of literal pieces and `{name}` fields, as
 * `str.format` sees it once the braces are parsed; only `input` and
 * `prediction` are supplied, so any other field raises `KeyError`.
 * A demonstration is the dictionary the optimiser hands over. Its `input`,
 * `prediction` and `user_score` entries are given as the text an f-string
 * renders for them, or None when the key is absent. Its `gold` entry is
 * tested for truth before it is rendered, so it is None when the key is
 * absent or its value is falsy (`None`, `""`, `0`, `False`, an empty
 * container), and Some of the rendered text only for a truthy value.
 */
module Prompt {
  import opened Wrappers
  import opened Text

  datatype Segment = Lit(text: string) | Field(name: string)

  type Template = seq<Segment>

  /** Both ways the build can fail raise `KeyError` with the missing name. */
  datatype PromptError = KeyError(key: string)

  datatype Demo = Demo(input: Option<string>, prediction: Option<string>, gold: Option<string>, userScore: Option<string>)

  /** The built-in template of `MetricModule.__init__`. */
  const DefaultTemplate: Template := [
    Lit("Rate the quality of the answer '"), Field("prediction"),
    Lit("' for the question '"), Field("input"),
    Lit("' on a scale from 0 to 1, where 0 is completely incorrect and 1 is perfect.")
  ]

  const Header: string := "Here are some examples of how to rate answers:\n\n"
  const Transition: string := "Now, rate the following answer:\n\n"
  const Trailer: string := "\n\nProvide only a number between 0 and 1 as your response."

  /** Python truthiness of an optional string: present and not empty. */
  predicate HasText(s: Option<string>) {
    s.Some? && s.value != ""
  }

  // ---------------------------------------------------------------------------
  // template.format(input=..., prediction=...)

  predicate Supplied(seg: Segment) {
    seg.Lit? || seg.name == "input" || seg.name == "prediction"
  }

  function FormatSegment(seg: Segment, input: string, prediction: string): (r: Result<string, PromptError>)
    ensures r.Failure? <==> !Supplied(seg)
  {
    match seg
    case Lit(s) => Success(s)
    case Field(n) =>
      if n == "input" then Success(input)
      else if n == "prediction" then Success(prediction)
      else Failure(KeyError(n))
  }

  /**
   * `template.format(input=input, prediction=prediction)`: fails exactly when
   * the template names a field other than the two supplied, and then with
   * the leftmost such name.
   */
  function Format(t: Template, input: string, prediction: string): (r: Result<string, PromptError>)
    ensures r.Failure? <==> exists k :: 0 <= k < |t| && !Supplied(t[k])
    ensures r.Failure? ==> exists k :: 0 <= k < |t| && !Supplied(t[k]) && r.error == KeyError(t[k].name)
                                        && forall m :: 0 <= m < k ==> Supplied(t[m])
  {
    if t == [] then Success("")
    else
      var head :- FormatSegment(t[0], input, prediction);
      var rest :- Format(t[1..], input, prediction);
      Success(head + rest)
  }

  /** Formatting distributes over joining two templates. */
  lemma {:induction false} FormatAppend(t1: Template, t2: Template, input: string, prediction: string)
    ensures Format(t1 + t2, input, prediction) ==
            (match Format(t1, input, prediction)
             case Failure(e) => Failure(e)
             case Success(s1) =>
               match Format(t2, input, prediction)
               case Failure(e) => Failure(e)
               case Success(s2) => Success(s1 + s2))
  {
    if t1 == [] {
      assert t1 + t2 == t2;
      assert Format(t1, input, prediction) == Success("");
      match Format(t2, input, prediction)
      case Failure(e) =>
      case Success(s2) => assert "" + s2 == s2;
    } else {
      assert (t1 + t2)[1..] == t1[1..] + t2;
      FormatAppend(t1[1..], t2, input, prediction);
      match Format(t1[1..], input, prediction)
      case Failure(e) =>
      case Success(s1) =>
        match Format(t2, input, prediction)
        case Failure(e) =>
        case Success(s2) =>
          var h := FormatSegment(t1[0], input, prediction);
          if h.Success? {
            assert h.value + (s1 + s2) == (h.value + s1) + s2;
          }
    }
  }

  /** The built-in template, filled in. */
  lemma FormatDefault(input: string, prediction: string)
    ensures Format(DefaultTemplate, input, prediction) ==
            Success("Rate the quality of the answer '" + prediction + "' for the question '" + input
                    + "' on a scale from 0 to 1, where 0 is completely incorrect and 1 is perfect.")
  {
    var t := DefaultTemplate;
    var l0, l2, l4 := t[0].text, t[2].text, t[4].text;
    assert t[5..] == [] && t[4..][1..] == t[5..];
    assert Format(t[4..], input, prediction) == Success(l4 + "");
    assert l4 + "" == l4;
    assert t[3..][1..] == t[4..];
    assert Format(t[3..], input, prediction) == Success(input + l4);
    assert t[2..][1..] == t[3..];
    assert Format(t[2..], input, prediction) == Success(l2 + (input + l4));
    assert t[1..][1..] == t[2..];
    assert Format(t[1..], input, prediction) == Success(prediction + (l2 + (input + l4)));
    assert t[0..][1..] == t[1..] && t[0..] == t;
    assert Format(t, input, prediction) == Success(l0 + (prediction + (l2 + (input + l4))));
    assert l0 + (prediction + (l2 + (input + l4))) == l0 + prediction + l2 + input + l4;
  }

  // ---------------------------------------------------------------------------
  // The demonstrations block

  /**
   * One demonstration, as the loop body renders it: `demo['input']`,
   * `demo['prediction']` and `demo['user_score']` must exist (`KeyError`
   * otherwise, in that order); the gold line appears only for a truthy gold,
   * which is the only kind `Demo.gold` holds text for.
   */
  function DemoEntry(d: Demo): (r: Result<string, PromptError>)
    ensures r.Failure? <==> d.input.None? || d.prediction.None? || d.userScore.None?
  {
    if d.input.None? then Failure(KeyError("input"))
    else if d.prediction.None? then Failure(KeyError("prediction"))
    else if d.userScore.None? then Failure(KeyError("user_score"))
    else
      Success("Question: " + d.input.value + "\n"
              + "Answer: " + d.prediction.value + "\n"
              + (if HasText(d.gold) then "Correct answer: " + d.gold.value + "\n" else "")
              + "Rating: " + d.userScore.value + "\n\n")
  }

  /**
   * The demonstrations rendered one after the other, in list order; the
   * first one that cannot be rendered decides the error.
   */
  function DemoEntries(ds: seq<Demo>): Result<string, PromptError> {
    if ds == [] then Success("")
    else
      var init :- DemoEntries(ds[..|ds| - 1]);
      var last :- DemoEntry(ds[|ds| - 1]);
      Success(init + last)
  }

  /** Rendering fails exactly when some entry fails, and then with the first failing entry's error. */
  lemma {:induction false} DemoEntriesFailure(ds: seq<Demo>)
    ensures DemoEntries(ds).Failure? <==> exists k :: 0 <= k < |ds| && DemoEntry(ds[k]).Failure?
    ensures DemoEntries(ds).Failure? ==>
              exists k :: 0 <= k < |ds| && DemoEntries(ds) == DemoEntry(ds[k])
                          && forall m :: 0 <= m < k ==> DemoEntry(ds[m]).Success?
  {
    if ds != [] {
      var init := ds[..|ds| - 1];
      DemoEntriesFailure(init);
      assert forall k :: 0 <= k < |init| ==> init[k] == ds[k];
      if DemoEntries(init).Success? && DemoEntry(ds[|ds| - 1]).Failure? {
        assert forall m :: 0 <= m < |ds| - 1 ==> DemoEntry(ds[m]).Success?;
      }
    }
  }

  /** Rendering one more demonstration: its entry is appended, or its error is the result. */
  lemma DemoEntriesStep(ds: seq<Demo>, i: nat)
    requires i < |ds| && DemoEntries(ds[..i]).Success?
    ensures DemoEntries(ds[..i + 1]) ==
            (match DemoEntry(ds[i])
             case Failure(e) => Failure(e)
             case Success(entry) => Success(DemoEntries(ds[..i]).value + entry))
  {
    assert ds[..i + 1][..i] == ds[..i];
    assert ds[..i + 1][i] == ds[i];
  }

  /** An accumulator holding `prefix` and the first `i` entries, extended by entry `i`. */
  lemma AccumulateEntry(ds: seq<Demo>, i: nat, prefix: string, acc: string)
    requires i < |ds| && DemoEntries(ds[..i]).Success? && DemoEntry(ds[i]).Success?
    requires acc == prefix + DemoEntries(ds[..i]).value
    ensures DemoEntries(ds[..i + 1]).Success?
    ensures acc + DemoEntry(ds[i]).value == prefix + DemoEntries(ds[..i + 1]).value
  {
    DemoEntriesStep(ds, i);
  }

  /** The first demonstration that cannot be rendered decides how the whole section fails. */
  lemma FirstBadDemo(ds: seq<Demo>, i: nat)
    requires i < |ds| && DemoEntries(ds[..i]).Success? && DemoEntry(ds[i]).Failure?
    ensures ExamplesSection(ds) == DemoEntry(ds[i])
  {
    DemoEntriesStep(ds, i);
    DemoEntriesFailurePersists(ds, i + 1);
  }

  /** Once a prefix of the demonstrations fails, the whole list fails the same way. */
  lemma {:induction false} DemoEntriesFailurePersists(ds: seq<Demo>, n: nat)
    requires n <= |ds| && DemoEntries(ds[..n]).Failure?
    ensures DemoEntries(ds) == DemoEntries(ds[..n])
    decreases |ds| - n
  {
    if n < |ds| {
      assert ds[..n + 1][..n] == ds[..n];
      DemoEntriesFailurePersists(ds, n + 1);
    } else {
      assert ds[..n] == ds;
    }
  }

  /** Rendering a longer list renders its two parts one after the other. */
  lemma {:induction false} DemoEntriesAppend(ds1: seq<Demo>, ds2: seq<Demo>)
    requires DemoEntries(ds1).Success? && DemoEntries(ds2).Success?
    ensures DemoEntries(ds1 + ds2) == Success(DemoEntries(ds1).value + DemoEntries(ds2).value)
  {
    if ds2 == [] {
      assert ds1 + ds2 == ds1;
      assert DemoEntries(ds2) == Success("");
      assert DemoEntries(ds1).value + "" == DemoEntries(ds1).value;
    } else {
      var init := ds2[..|ds2| - 1];
      var last := ds2[|ds2| - 1];
      assert (ds1 + ds2)[..|ds1 + ds2| - 1] == ds1 + init;
      assert (ds1 + ds2)[|ds1 + ds2| - 1] == last;
      assert DemoEntries(init).Success? && DemoEntry(last).Success?;
      DemoEntriesAppend(ds1, init);
      var a, b, c := DemoEntries(ds1).value, DemoEntries(init).value, DemoEntry(last).value;
      assert DemoEntries(ds1 + ds2) == Success((a + b) + c);
      assert (a + b) + c == a + (b + c);
    }
  }

  /** The header, the demonstrations, and the transition line; nothing without demonstrations. */
  function ExamplesSection(demos: seq<Demo>): (r: Result<string, PromptError>)
    ensures demos == [] ==> r == Success("")
  {
    if demos == [] then Success("")
    else
      var entries :- DemoEntries(demos);
      Success(Header + entries + Transition)
  }

  /** ` The correct answer is '<gold>'.` for a truthy gold answer, and nothing otherwise. */
  function GoldSentence(gold: Option<string>): (r: string)
    ensures r == "" <==> !HasText(gold)
  {
    if HasText(gold) then " The correct answer is '" + gold.value + "'." else ""
  }

  /** What `_build_prompt(input, prediction, gold)` returns or raises. */
  function BuiltPrompt(demos: seq<Demo>, template: Template, input: string, prediction: string,
                       gold: Option<string>): Result<string, PromptError>
  {
    var examples :- ExamplesSection(demos);
    var body :- Format(template, input, prediction);
    Success(examples + body + GoldSentence(gold) + Trailer)
  }

  // ---------------------------------------------------------------------------
  // Properties of the built prompt

  /** Every prompt ends with the instruction to answer with a number. */
  lemma PromptEndsWithTrailer(demos: seq<Demo>, template: Template, input: string, prediction: string,
                              gold: Option<string>)
    requires BuiltPrompt(demos, template, input, prediction, gold).Success?
    ensures EndsWith(BuiltPrompt(demos, template, input, prediction, gold).value, Trailer)
  {
    var front := ExamplesSection(demos).value + Format(template, input, prediction).value + GoldSentence(gold);
    EndsWithConcat(front, Trailer);
  }

  /**
   * The build fails exactly when a demonstration lacks `input`, `prediction`
   * or `user_score`, or the template names a field other than `input` and
   * `prediction`.
   */
  lemma PromptFailsIff(demos: seq<Demo>, template: Template, input: string, prediction: string,
                       gold: Option<string>)
    ensures BuiltPrompt(demos, template, input, prediction, gold).Failure? <==>
            (exists k :: 0 <= k < |demos| &&
                          (demos[k].input.None? || demos[k].prediction.None? || demos[k].userScore.None?))
            || (exists k :: 0 <= k < |template| && !Supplied(template[k]))
  {
    DemoEntriesFailure(demos);
    if exists k :: 0 <= k < |demos| &&
                   (demos[k].input.None? || demos[k].prediction.None? || demos[k].userScore.None?) {
      var k :| 0 <= k < |demos| &&
               (demos[k].input.None? || demos[k].prediction.None? || demos[k].userScore.None?);
      assert DemoEntry(demos[k]).Failure?;
    }
  }

  /**
   * Without demonstrations the prompt is the filled-in template, the gold
   * sentence when the gold answer is non-empty, and the trailer.
   */
  lemma PromptWithoutDemos(template: Template, input: string, prediction: string, gold: Option<string>)
    requires Format(template, input, prediction).Success?
    ensures BuiltPrompt([], template, input, prediction, gold) ==
            Success(Format(template, input, prediction).value
                    + (if HasText(gold) then " The correct answer is '" + gold.value + "'." else "")
                    + Trailer)
  {
    assert "" + Format(template, input, prediction).value == Format(template, input, prediction).value;
  }

  /**
   * With demonstrations the prompt starts with the header, then every
   * demonstration in list order, then the transition line.
   */
  lemma PromptWithDemos(demos: seq<Demo>, template: Template, input: string, prediction: string,
                        gold: Option<string>)
    requires demos != [] && BuiltPrompt(demos, template, input, prediction, gold).Success?
    ensures StartsWith(BuiltPrompt(demos, template, input, prediction, gold).value,
                       Header + DemoEntries(demos).value + Transition)
  {
    var examples := ExamplesSection(demos).value;
    var body := Format(template, input, prediction).value;
    assert examples == Header + DemoEntries(demos).value + Transition;
    StartsWithConcat(examples, body);
    StartsWithExtend(examples + body, GoldSentence(gold), examples);
    StartsWithExtend(examples + body + GoldSentence(gold), Trailer, examples);
  }

  /** The default module, with no demonstrations and no gold answer, sends exactly this. */
  lemma DefaultPrompt(input: string, prediction: string)
    ensures BuiltPrompt([], DefaultTemplate, input, prediction, None) ==
            Success("Rate the quality of the answer '" + prediction + "' for the question '" + input
                    + "' on a scale from 0 to 1, where 0 is completely incorrect and 1 is perfect."
                    + "\n\nProvide only a number between 0 and 1 as your response.")
  {
    FormatDefault(input, prediction);
    PromptWithoutDemos(DefaultTemplate, input, prediction, None);
    var body := Format(DefaultTemplate, input, prediction).value;
    assert body + "" == body;
  }

  /** A template naming `{gold}` cannot be used: the build raises `KeyError('gold')`. */
  lemma GoldFieldFails(demos: seq<Demo>, input: string, prediction: string, gold: Option<string>)
    requires DemoEntries(demos).Success?
    ensures BuiltPrompt(demos, [Field("gold")], input, prediction, gold) == Failure(KeyError("gold"))
  {
  }
}
