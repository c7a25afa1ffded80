/**
 * The voice quiz: how a spoken answer is judged against a question's
 * expected answers, and how the quiz moves from question to question.
 *
 * The validation API is a parameter: either it fails (a non-OK response or
 * any thrown error) or it replies with an optional `cleanedText`.
 */
module Quiz {
  import opened Common
  import opened Text

  // ---------------------------------------------------------------------------
  // Questions
  // ---------------------------------------------------------------------------

  datatype QuestionKind = MultipleChoice | Cloze

  datatype Question = Question(kind: QuestionKind, text: string, expectedAnswers: seq<string>)

  /** The two questions the component is created with. */
  const DemoQuestions: seq<Question> := [
    Question(MultipleChoice, "Quel est le résultat de deux plus deux ?", ["quatre", "4"]),
    Question(Cloze, "La capitale de la France est ___ .", ["paris"])
  ]

  // ---------------------------------------------------------------------------
  // Judging an answer
  // ---------------------------------------------------------------------------

  /** What `onresult` keeps of the recognised text: trimmed, then lowercased. */
  function Normalize(raw: string): string {
    Lower(Trim(raw))
  }

  /**
   * `expectedAnswers.some(expected => lowerAnswer.includes(expected.toLowerCase()))`,
   * scanning the expected answers in order.
   */
  function IncludesSome(lowerAnswer: string, expected: seq<string>): (found: bool)
    ensures found <==> exists k :: 0 <= k < |expected| && Contains(lowerAnswer, Lower(expected[k]))
  {
    if expected == [] then false
    else if Contains(lowerAnswer, Lower(expected[0])) then true
    else
      var rest := IncludesSome(lowerAnswer, expected[1..]);
      assert forall k :: 1 <= k < |expected| ==> expected[k] == expected[1..][k - 1];
      rest
  }

  /** The fallback rule: some expected answer, lowercased, occurs in the lowercased, trimmed answer. */
  function FallbackMatch(expected: seq<string>, userAnswer: string): bool {
    IncludesSome(Trim(Lower(userAnswer)), expected)
  }

  /** The reply of the validation endpoint, when there is one. */
  datatype ApiOutcome = Failed | Replied(cleanedText: Option<string>)

  /** The API approves when its lowercased `cleanedText` contains "oui"; a missing text is "". */
  predicate ApiApproves(api: ApiOutcome) {
    api.Replied? && api.cleanedText.Some? && Contains(Lower(api.cleanedText.value), "oui")
  }

  /**
   * `validateWithChatGPT`: true when the API's text contains "oui";
   * otherwise, and whenever the API fails, the fallback rule decides. It
   * never fails itself.
   */
  function Validate(expected: seq<string>, userAnswer: string, api: ApiOutcome): (isCorrect: bool)
    ensures isCorrect <==> ApiApproves(api) || FallbackMatch(expected, userAnswer)
  {
    match api
    case Failed => FallbackMatch(expected, userAnswer)
    case Replied(cleanedText) =>
      var cleanedResponse := if cleanedText.Some? then Lower(cleanedText.value) else "";
      if Contains(cleanedResponse, "oui") then true
      else FallbackMatch(expected, userAnswer)
  }

  /** When the API fails, the answer is judged by the fallback rule alone. */
  lemma FailedApiFallsBack(expected: seq<string>, userAnswer: string)
    ensures Validate(expected, userAnswer, Failed) == FallbackMatch(expected, userAnswer)
  {
  }

  /** The API can only add acceptances: an answer the fallback accepts is accepted whatever the API says. */
  lemma FallbackCannotBeOverruled(expected: seq<string>, userAnswer: string, api: ApiOutcome)
    requires FallbackMatch(expected, userAnswer)
    ensures Validate(expected, userAnswer, api)
  {
  }

  /** A reply with no `cleanedText`, or one without "oui", leaves the decision to the fallback rule. */
  lemma SilentApiFallsBack(expected: seq<string>, userAnswer: string, cleanedText: Option<string>)
    requires cleanedText.None? || !Contains(Lower(cleanedText.value), "oui")
    ensures Validate(expected, userAnswer, Replied(cleanedText)) == FallbackMatch(expected, userAnswer)
  {
  }

  /**
   * The validator lowercases and trims an answer that `onresult` has
   * already trimmed and lowercased; doing it twice changes nothing.
   */
  lemma NormalizeStable(raw: string)
    ensures Trim(Lower(Normalize(raw))) == Normalize(raw)
  {
    LowerIdempotent(Trim(raw));
    TrimLowerCommute(Trim(raw));
    TrimIdempotent(raw);
  }

  /**
   * Saying an expected answer, in any letter case and with any words around
   * it, is accepted, whatever the API replies: the fallback rule is a
   * substring test.
   */
  lemma ExpectedAnswerAccepted(q: Question, k: nat, before: string, said: string, after: string, api: ApiOutcome)
    requires k < |q.expectedAnswers|
    requires said != [] && IsTrimmed(said) && Lower(said) == Lower(q.expectedAnswers[k])
    ensures Validate(q.expectedAnswers, Normalize(before + said + after), api)
  {
    var raw := before + said + after;
    NormalizeStable(raw);
    TrimLowerCommute(raw);
    LowerAppend(before, said);
    LowerAppend(before + said, after);
    LowerTrimmed(said);
    TrimKeepsCore(Lower(before), Lower(said), Lower(after));
    assert Trim(Lower(Normalize(raw))) == Trim(Lower(before) + Lower(said) + Lower(after));
  }

  /**
   * An empty expected answer is found in every answer, so a question that
   * lists one accepts anything.
   */
  lemma EmptyExpectedAcceptsAll(q: Question, k: nat, userAnswer: string, api: ApiOutcome)
    requires k < |q.expectedAnswers| && q.expectedAnswers[k] == ""
    ensures Validate(q.expectedAnswers, userAnswer, api)
  {
    assert OccursAt(Trim(Lower(userAnswer)), Lower(q.expectedAnswers[k]), 0);
  }

  /**
   * The API receives the answer to correct it, and its reply is checked for
   * "oui" anywhere: an answer whose corrected text contains "oui" (such as
   * "Louis") is accepted for every question.
   */
  lemma OuiInTextAccepted(expected: seq<string>, userAnswer: string, before: string, after: string)
    ensures Validate(expected, userAnswer, Replied(Some(before + "oui" + after)))
  {
    LowerAppend(before, "oui");
    LowerAppend(before + "oui", after);
    assert Lower("oui") == "oui";
    ContainsInside(Lower(before), "oui", Lower(after));
  }

  /** "Louis" contains "oui": a reply that echoes it accepts any answer. */
  lemma LouisAccepted(expected: seq<string>, userAnswer: string)
    ensures Validate(expected, userAnswer, Replied(Some("Louis")))
  {
    assert "Louis" == "L" + "oui" + "s";
    OuiInTextAccepted(expected, userAnswer, "L", "s");
  }

  lemma DemoAnswer(q: Question, k: nat, said: string, api: ApiOutcome)
    requires k < |q.expectedAnswers|
    requires said != [] && IsTrimmed(said) && Lower(said) == Lower(q.expectedAnswers[k])
    ensures Validate(q.expectedAnswers, Normalize(said), api)
  {
    assert [] + said + [] == said;
    ExpectedAnswerAccepted(q, k, [], said, [], api);
  }

  /** "Quatre" answers the first demo question. */
  lemma QuatreAccepted(api: ApiOutcome)
    ensures Validate(DemoQuestions[0].expectedAnswers, Normalize("Quatre"), api)
  {
    DemoAnswer(DemoQuestions[0], 0, "Quatre", api);
  }

  /** "4" answers the first demo question. */
  lemma FourAccepted(api: ApiOutcome)
    ensures Validate(DemoQuestions[0].expectedAnswers, Normalize("4"), api)
  {
    DemoAnswer(DemoQuestions[0], 1, "4", api);
  }

  /** "Paris" answers the second demo question. */
  lemma ParisAccepted(api: ApiOutcome)
    ensures Validate(DemoQuestions[1].expectedAnswers, Normalize("Paris"), api)
  {
    DemoAnswer(DemoQuestions[1], 0, "Paris", api);
  }

  // ---------------------------------------------------------------------------
  // The component's state
  // ---------------------------------------------------------------------------

  const Placeholder: string := "Texte reconnu : ..."
  const RecognisedPrefix: string := "Texte reconnu : "
  const Listening: string := "Écoute en cours..."
  const Checking: string := "Vérification..."
  const CorrectMessage: string := "✅ Bonne réponse !"
  const WrongMessage: string := "❌ Mauvaise réponse."
  const EndMessage: string := "🎉 Fin du quiz !"
  const ErrorPrefix: string := "Erreur : "

  class VoiceQuiz {
    const questions: seq<Question>
    var currentQuestionIndex: nat
    var transcription: string
    var result: string
    var isListening: bool

    ghost predicate Valid()
      reads this
    {
      0 <= currentQuestionIndex < |questions|
    }

    /** The component as it first renders: the demo questions, on the first one. */
    constructor()
      ensures Valid()
      ensures questions == DemoQuestions && currentQuestionIndex == 0
      ensures transcription == Placeholder && result == "" && !isListening
    {
      questions := DemoQuestions;
      currentQuestionIndex := 0;
      transcription := Placeholder;
      result := "";
      isListening := false;
    }

    /** `startRecognition`: without speech recognition in the browser nothing changes. */
    method StartRecognition(recognitionAvailable: bool)
      modifies this`isListening
      ensures isListening == (recognitionAvailable || old(isListening))
    {
      if recognitionAvailable {
        isListening := true;
      }
    }

    /** The recognition's `start` event. */
    method OnRecognitionStart()
      modifies this`transcription
      ensures transcription == Listening
    {
      transcription := Listening;
    }

    /**
     * The first, synchronous part of `onresult`: the recognised text is
     * shown trimmed and lowercased; a final result stops listening, shows
     * that the answer is being checked and is returned for validation.
     */
    method OnResult(raw: string, isFinal: bool) returns (toValidate: Option<string>)
      modifies this`transcription, this`isListening, this`result
      ensures transcription == RecognisedPrefix + Normalize(raw)
      ensures isFinal ==> !isListening && result == Checking && toValidate == Some(Normalize(raw))
      ensures !isFinal ==> isListening == old(isListening) && result == old(result) && toValidate == None
    {
      var transcript := Normalize(raw);
      transcription := RecognisedPrefix + transcript;
      toValidate := None;
      if isFinal {
        isListening := false;
        result := Checking;
        toValidate := Some(transcript);
      }
    }

    /**
     * The rest of `onresult`, once validation is done for the question that
     * was current when recognition started. A correct answer shows the
     * success message and asks for the 1500 ms timer; a wrong one shows the
     * failure message. The question index does not change here.
     */
    method OnValidated(answeredIndex: nat, transcript: string, api: ApiOutcome) returns (scheduleAdvance: bool)
      requires answeredIndex < |questions|
      modifies this`result
      ensures var isCorrect := Validate(questions[answeredIndex].expectedAnswers, transcript, api);
        && scheduleAdvance == isCorrect
        && result == (if isCorrect then CorrectMessage else WrongMessage)
    {
      var isCorrect := Validate(questions[answeredIndex].expectedAnswers, transcript, api);
      if isCorrect {
        result := CorrectMessage;
      } else {
        result := WrongMessage;
      }
      scheduleAdvance := isCorrect;
    }

    /**
     * The timer set after a correct answer to question `answeredIndex`:
     * before the last question, the next one is shown (and, when the index
     * really changes, the result and recognised text are cleared for it);
     * on the last question the index stays and the end message is shown.
     */
    method AdvanceAfterCorrect(answeredIndex: nat)
      requires Valid() && answeredIndex < |questions|
      modifies this`currentQuestionIndex, this`result, this`transcription
      ensures Valid()
      ensures answeredIndex < |questions| - 1 ==> currentQuestionIndex == answeredIndex + 1
      ensures answeredIndex < |questions| - 1 && old(currentQuestionIndex) != answeredIndex + 1 ==>
        result == "" && transcription == Placeholder
      ensures answeredIndex < |questions| - 1 && old(currentQuestionIndex) == answeredIndex + 1 ==>
        result == old(result) && transcription == old(transcription)
      ensures answeredIndex == |questions| - 1 ==>
        currentQuestionIndex == old(currentQuestionIndex) && result == EndMessage && transcription == old(transcription)
    {
      if answeredIndex < |questions| - 1 {
        if currentQuestionIndex != answeredIndex + 1 {
          currentQuestionIndex := answeredIndex + 1;
          result := "";
          transcription := Placeholder;
        }
      } else {
        result := EndMessage;
      }
    }

    /** The recognition's `error` event. */
    method OnRecognitionError(error: string)
      modifies this`isListening, this`result
      ensures !isListening && result == ErrorPrefix + error
    {
      isListening := false;
      result := ErrorPrefix + error;
    }

    /** The recognition's `end` event. */
    method OnRecognitionEnd()
      modifies this`isListening
      ensures !isListening
    {
      isListening := false;
    }

    /** `resetQuiz`: back to the first question with nothing shown. */
    method ResetQuiz()
      requires Valid()
      modifies this`currentQuestionIndex, this`result, this`transcription
      ensures Valid()
      ensures currentQuestionIndex == 0 && result == "" && transcription == Placeholder
    {
      currentQuestionIndex := 0;
      result := "";
      transcription := Placeholder;
    }
  }
}
