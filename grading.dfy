/**
 * The grading engine shared by the module-attempt handlers and the older
 * quiz handlers: sanitising elements for the client, per-type credit, the
 * score / max-score pass over a module's elements, and the percentage.
 * The two handler families differ only in the `Rules` they grade by.
 */
module Grading {
  import opened Common
  import opened Models

  /** The two attempt handlers, module and quiz, score answers slightly differently. */
  datatype Rules = ModuleRules | QuizRules

  predicate IsChoiceType(t: string) { t == "single" || t == "multiple" }

  predicate IsContentType(t: string) { t == "content" || t == "" }

  /** The module-elements of module `moduleID`, in store order (the repository's query). */
  function ElementsOfModule(store: seq<ModuleElement>, moduleID: int): (r: seq<ModuleElement>)
    ensures |r| <= |store|
    ensures forall i :: 0 <= i < |r| ==> r[i].moduleID == moduleID
    decreases |store|
  {
    if store == [] then []
    else
      var rest := ElementsOfModule(store[..|store| - 1], moduleID);
      if store[|store| - 1].moduleID == moduleID then rest + [store[|store| - 1]] else rest
  }

  /**
   * The repository's elements-of-a-module query: every element loads, with its
   * id copied into `keyID`, or the whole query fails.
   */
  function LoadAll(mes: seq<ModuleElement>, elements: map<int, Element>): (r: Option<seq<Element>>)
    ensures r.Some? <==> forall i :: 0 <= i < |mes| ==> mes[i].elementID in elements
    ensures r.Some? ==> |r.value| == |mes|
    ensures r.Some? ==> forall i :: 0 <= i < |mes| ==> r.value[i] == elements[mes[i].elementID].(keyID := mes[i].elementID)
    decreases |mes|
  {
    if mes == [] then Some([])
    else
      var rest := LoadAll(mes[..|mes| - 1], elements);
      var id := mes[|mes| - 1].elementID;
      if rest.Some? && id in elements then Some(rest.value + [elements[id].(keyID := id)]) else None
  }

  /** The element as sent to the client: every choice's `correct` cleared. */
  function Stripped(e: Element): (r: Element)
    ensures |r.choices| == |e.choices|
    ensures forall k :: 0 <= k < |e.choices| ==> r.choices[k] == e.choices[k].(correct := false)
    ensures r == e.(choices := r.choices)
  {
    e.(choices := seq(|e.choices|, k requires 0 <= k < |e.choices| => e.choices[k].(correct := false)))
  }

  /** No choice of `e` is marked correct. */
  predicate Sanitized(e: Element) {
    forall k :: 0 <= k < |e.choices| ==> !e.choices[k].correct
  }

  /** Clears `Correct` on every choice, one choice at a time. */
  method StripCorrect(e: Element) returns (r: Element)
    ensures r == Stripped(e)
    ensures Sanitized(r)
  {
    var cs := e.choices;
    var i := 0;
    while i < |cs|
      invariant 0 <= i <= |cs| == |e.choices|
      invariant forall k :: 0 <= k < i ==> cs[k] == e.choices[k].(correct := false)
      invariant forall k :: i <= k < |cs| ==> cs[k] == e.choices[k]
    {
      cs := cs[i := cs[i].(correct := false)];
      i := i + 1;
    }
    r := e.(choices := cs);
  }

  /**
   * The elements sent to the client for the module-elements `mes`, in that
   * order: each one that loads, stripped; the ones that do not load dropped.
   */
  function Resolved(mes: seq<ModuleElement>, elements: map<int, Element>): (r: seq<Element>)
    ensures |r| <= |mes|
    ensures forall i :: 0 <= i < |r| ==> Sanitized(r[i])
    ensures forall i :: 0 <= i < |r| ==> r[i].keyID in elements && r[i] == Stripped(ElementByID(elements, r[i].keyID))
    decreases |mes|
  {
    if mes == [] then []
    else
      var rest := Resolved(mes[..|mes| - 1], elements);
      var id := mes[|mes| - 1].elementID;
      if id in elements then rest + [Stripped(ElementByID(elements, id))] else rest
  }

  /** Resolving a concatenation resolves each part, in order. */
  lemma {:induction false} ResolvedConcat(a: seq<ModuleElement>, b: seq<ModuleElement>, elements: map<int, Element>)
    ensures Resolved(a + b, elements) == Resolved(a, elements) + Resolved(b, elements)
    decreases |b|
  {
    if b == [] {
      assert a + b == a;
    } else {
      assert (a + b)[..|a + b| - 1] == a + b[..|b| - 1];
      ResolvedConcat(a, b[..|b| - 1], elements);
    }
  }

  /** Exactly the module-elements whose element loads contribute one element each. */
  lemma {:induction false} ResolvedLength(mes: seq<ModuleElement>, elements: map<int, Element>)
    ensures |Resolved(mes, elements)| == |mes| - UnloadedCount(mes, elements)
    decreases |mes|
  {
    if mes != [] {
      ResolvedLength(mes[..|mes| - 1], elements);
    }
  }

  /** Number of module-elements whose element is missing from the store. */
  function UnloadedCount(mes: seq<ModuleElement>, elements: map<int, Element>): (n: nat)
    ensures n <= |mes|
    decreases |mes|
  {
    if mes == [] then 0
    else UnloadedCount(mes[..|mes| - 1], elements) + (if mes[|mes| - 1].elementID in elements then 0 else 1)
  }

  /** Looks each module-element's element up, keeping and stripping the ones found. */
  method ResolveElements(mes: seq<ModuleElement>, elements: map<int, Element>) returns (out: seq<Element>)
    ensures out == Resolved(mes, elements)
    ensures forall i :: 0 <= i < |out| ==> Sanitized(out[i])
  {
    out := [];
    for i := 0 to |mes|
      invariant out == Resolved(mes[..i], elements)
    {
      assert mes[..i + 1][..i] == mes[..i];
      var id := mes[i].elementID;
      if id in elements {
        var element := StripCorrect(ElementByID(elements, id));
        out := out + [element];
      }
    }
    assert mes[..|mes|] == mes;
  }

  /** The positional rule for choice questions, over the shorter of the two lists. */
  predicate ChoicesAgree(answer: seq<bool>, choices: seq<Choice>) {
    forall i :: 0 <= i < |choices| && i < |answer| ==> answer[i] == choices[i].correct
  }

  /** Walks the choices and stops at the first answered one that disagrees. */
  method ChoicesMatch(answer: seq<bool>, choices: seq<Choice>) returns (correct: bool)
    ensures correct <==> ChoicesAgree(answer, choices)
  {
    correct := true;
    var i := 0;
    while i < |choices|
      invariant 0 <= i <= |choices|
      invariant forall k :: 0 <= k < i && k < |answer| ==> answer[k] == choices[k].correct
    {
      if i < |answer| && answer[i] != choices[i].correct {
        correct := false;
        break;
      }
      i := i + 1;
    }
  }

  /** Whether answer `a` earns the point of question `e` under `rules`. */
  predicate Credit(rules: Rules, e: Element, a: Answer) {
    var t := e.elementType;
    match rules
    case ModuleRules =>
      if IsChoiceType(t) then ChoicesAgree(a.answer, e.choices)
      else if t == "text" then e.textRegex != "" && a.answerText != ""
      else if t == "essay" then a.answerEssay != ""
      else if t == "project" then a.projectID > 0
      else false
    case QuizRules =>
      if IsChoiceType(t) then ChoicesAgree(a.answer, e.choices)
      else if t == "text" then e.textRegex != ""
      else false
  }

  /** The grading state: points so far, the running maximum, the answer map being annotated. */
  datatype Grading = Grading(score: int, maxScore: int, answers: map<string, Answer>)

  /** The module-element's element loads and is content, which module rules do not count. */
  predicate SkippedContent(rules: Rules, me: ModuleElement, elements: map<int, Element>) {
    rules == ModuleRules && me.elementID in elements && IsContentType(elements[me.elementID].elementType)
  }

  /** One iteration of the grading loop for module-element `me`. */
  function Step(rules: Rules, me: ModuleElement, elements: map<int, Element>, g: Grading): Grading {
    if me.elementID !in elements then g
    else if SkippedContent(rules, me, elements) then g.(maxScore := g.maxScore - 1)
    else
      var key := FormatInt(me.elementID);
      if key in g.answers && Credit(rules, elements[me.elementID], g.answers[key]) then
        Grading(g.score + 1, g.maxScore, g.answers[key := g.answers[key].(correct := true)])
      else g
  }

  /** The grading loop run over `mes` in order, starting from `g`. */
  function GradeSteps(rules: Rules, mes: seq<ModuleElement>, elements: map<int, Element>, g: Grading): Grading
    decreases |mes|
  {
    if mes == [] then g
    else Step(rules, mes[|mes| - 1], elements, GradeSteps(rules, mes[..|mes| - 1], elements, g))
  }

  /** Grading a whole submission: score 0, max score the number of module-elements. */
  function Graded(rules: Rules, mes: seq<ModuleElement>, elements: map<int, Element>, answers: map<string, Answer>): Grading {
    GradeSteps(rules, mes, elements, Grading(0, |mes|, answers))
  }

  /** The grading loop of SubmitModule / SubmitQuiz. */
  method Grade(rules: Rules, mes: seq<ModuleElement>, elements: map<int, Element>, answers: map<string, Answer>)
    returns (score: int, maxScore: int, graded: map<string, Answer>)
    ensures Grading(score, maxScore, graded) == Graded(rules, mes, elements, answers)
  {
    score, maxScore := 0, |mes|;
    graded := answers;
    for i := 0 to |mes|
      invariant Grading(score, maxScore, graded) == GradeSteps(rules, mes[..i], elements, Grading(0, |mes|, answers))
    {
      assert mes[..i + 1][..i] == mes[..i];
      var me := mes[i];
      if me.elementID !in elements {
        continue;
      }
      var element := elements[me.elementID];
      if rules == ModuleRules && (element.elementType == "content" || element.elementType == "") {
        maxScore := maxScore - 1;
        continue;
      }
      var key := FormatInt(me.elementID);
      if key !in graded {
        continue;
      }
      var userAnswer := graded[key];
      var correct := false;
      if element.elementType == "single" || element.elementType == "multiple" {
        correct := ChoicesMatch(userAnswer.answer, element.choices);
      } else if element.elementType == "text" {
        correct := element.textRegex != "" && (rules == QuizRules || userAnswer.answerText != "");
      } else if rules == ModuleRules && element.elementType == "essay" {
        correct := userAnswer.answerEssay != "";
      } else if rules == ModuleRules && element.elementType == "project" {
        correct := userAnswer.projectID > 0;
      }
      if correct {
        score := score + 1;
        graded := graded[key := userAnswer.(correct := true)];
      }
    }
    assert mes[..|mes|] == mes;
  }

  /** Module-elements skipped as content under `rules`. */
  function ContentCount(rules: Rules, mes: seq<ModuleElement>, elements: map<int, Element>): (n: nat)
    ensures n <= |mes|
    ensures rules == QuizRules ==> n == 0
    decreases |mes|
  {
    if mes == [] then 0
    else ContentCount(rules, mes[..|mes| - 1], elements) + (if SkippedContent(rules, mes[|mes| - 1], elements) then 1 else 0)
  }

  /** The module-element's question loads, is graded, has an answer, and the answer earns the point. */
  predicate Earns(rules: Rules, me: ModuleElement, elements: map<int, Element>, answers: map<string, Answer>) {
    && me.elementID in elements
    && !SkippedContent(rules, me, elements)
    && FormatInt(me.elementID) in answers
    && Credit(rules, elements[me.elementID], answers[FormatInt(me.elementID)])
  }

  /** Module-elements that earn their point against the submitted answers. */
  function CreditCount(rules: Rules, mes: seq<ModuleElement>, elements: map<int, Element>, answers: map<string, Answer>): (n: nat)
    decreases |mes|
  {
    if mes == [] then 0
    else CreditCount(rules, mes[..|mes| - 1], elements, answers) + (if Earns(rules, mes[|mes| - 1], elements, answers) then 1 else 0)
  }

  /** `after` has the keys of `before`, and each answer is unchanged or has only gained `correct`. */
  predicate OnlyRaisesCorrect(before: map<string, Answer>, after: map<string, Answer>) {
    && after.Keys == before.Keys
    && forall k :: k in before ==> after[k] == before[k] || after[k] == before[k].(correct := true)
  }

  /**
   * What the grading pass computes: the score counts the module-elements that
   * earn their point, the max score drops by one per skipped content element,
   * and the answer map only ever has `correct` raised to true.
   */
  lemma {:induction false} GradeStepsMeaning(rules: Rules, mes: seq<ModuleElement>, elements: map<int, Element>, g: Grading)
    ensures var r := GradeSteps(rules, mes, elements, g);
      && r.score == g.score + CreditCount(rules, mes, elements, g.answers)
      && r.maxScore == g.maxScore - ContentCount(rules, mes, elements)
      && OnlyRaisesCorrect(g.answers, r.answers)
    decreases |mes|
  {
    if mes != [] {
      var init := mes[..|mes| - 1];
      GradeStepsMeaning(rules, init, elements, g);
      var prev := GradeSteps(rules, init, elements, g);
      var me := mes[|mes| - 1];
      var key := FormatInt(me.elementID);
      if me.elementID in elements && key in g.answers {
        assert Credit(rules, elements[me.elementID], prev.answers[key]) == Credit(rules, elements[me.elementID], g.answers[key])
          by { assert prev.answers[key].(correct := false) == g.answers[key].(correct := false); }
      }
    }
  }

  /** The credit and content counts never exceed the number of module-elements together. */
  lemma {:induction false} CountsFit(rules: Rules, mes: seq<ModuleElement>, elements: map<int, Element>, answers: map<string, Answer>)
    ensures CreditCount(rules, mes, elements, answers) + ContentCount(rules, mes, elements) <= |mes|
    decreases |mes|
  {
    if mes != [] {
      CountsFit(rules, mes[..|mes| - 1], elements, answers);
    }
  }

  /**
   * A submission's score lies between 0 and its max score; the max score is the
   * number of module-elements less the content ones (module rules) or all of
   * them (quiz rules); grading only sets `correct` to true.
   */
  lemma GradedBounds(rules: Rules, mes: seq<ModuleElement>, elements: map<int, Element>, answers: map<string, Answer>)
    ensures var r := Graded(rules, mes, elements, answers);
      && 0 <= r.score <= r.maxScore <= |mes|
      && r.score == CreditCount(rules, mes, elements, answers)
      && (rules == ModuleRules ==> r.maxScore == |mes| - ContentCount(rules, mes, elements))
      && (rules == QuizRules ==> r.maxScore == |mes|)
      && OnlyRaisesCorrect(answers, r.answers)
  {
    GradeStepsMeaning(rules, mes, elements, Grading(0, |mes|, answers));
    CountsFit(rules, mes, elements, answers);
  }

  /** Integer percentage of the score, 0 when there is nothing to score. */
  function Percentage(score: int, maxScore: int): (p: int)
    ensures maxScore <= 0 ==> p == 0
    ensures maxScore > 0 && score >= 0 ==> p * maxScore <= score * 100 < (p + 1) * maxScore
    ensures 0 <= score <= maxScore ==> 0 <= p <= 100
  {
    if maxScore > 0 then
      var p := GoDiv(score * 100, maxScore);
      PercentageBounded(score, maxScore, p);
      p
    else 0
  }

  /** A floor quotient of `score * 100` by `maxScore` lies in 0..100 when the score is. */
  lemma PercentageBounded(score: int, maxScore: int, p: int)
    requires maxScore > 0
    requires Abs(p) * maxScore <= Abs(score * 100) < (Abs(p) + 1) * maxScore
    requires score * 100 >= 0 ==> p >= 0
    ensures score >= 0 ==> p * maxScore <= score * 100 < (p + 1) * maxScore
    ensures 0 <= score <= maxScore ==> 0 <= p <= 100
  {
  }

  /** The worked example of a one-question module: a matching answer scores 1 of 1, 100 percent. */
  lemma SingleChoiceExample()
    ensures
      var e := Element(1, "q", "single", [Choice("a", true), Choice("b", false)], "", "", 0, 0);
      var mes := [ModuleElement(7, 3, 1, 0)];
      var right := Graded(ModuleRules, mes, map[1 := e], map["1" := Answer([true, false], "", "", 0, false)]);
      var wrong := Graded(ModuleRules, mes, map[1 := e], map["1" := Answer([false, true], "", "", 0, false)]);
      && right.score == 1 && right.maxScore == 1 && Percentage(right.score, right.maxScore) == 100
      && right.answers["1"].correct
      && wrong.score == 0 && Percentage(wrong.score, wrong.maxScore) == 0
  {
    assert FormatInt(1) == "1" by {
      assert NatToString(1) == [DigitChar(1)];
    }
    var e := Element(1, "q", "single", [Choice("a", true), Choice("b", false)], "", "", 0, 0);
    var mes := [ModuleElement(7, 3, 1, 0)];
    assert mes[..0] == [];
    assert ChoicesAgree([true, false], e.choices);
    assert !ChoicesAgree([false, true], e.choices) by {
      assert [false, true][0] != e.choices[0].correct;
    }
  }

  /** What a start handler sends: the module and its elements as shown to the learner. */
  datatype Session = Session(moduleInfo: Module, elements: seq<Element>)

  /** A decoded submission body. */
  datatype Submission = Submission(answers: map<string, Answer>, timeSpent: int)

  /** What a submit handler sends back: the raw score, not the percentage. */
  datatype AttemptResult = AttemptResult(score: int, maxScore: int, passingScore: int, passed: bool)
}
