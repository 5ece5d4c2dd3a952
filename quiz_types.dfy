/** The quiz records of `src/types/quiz.ts`: full questions for the server, safe ones for the client. */
module QuizTypes {
  import opened Wrappers

  datatype Difficulty = Easy | Medium | Hard

  /** An answer option; `isCorrect` and `explanation` never leave the server. */
  datatype Answer = Answer(id: string, text: string, isCorrect: bool, explanation: Option<string>)

  datatype Question = Question(
    id: string,
    text: string,
    answers: seq<Answer>,
    category: string,
    difficulty: Difficulty,
    protocol: Option<string>,
    explanation: Option<string>)

  /** An answer as the client may see it. */
  datatype SafeAnswer = SafeAnswer(id: string, text: string)

  /** A question as the client may see it. */
  datatype SafeQuestion = SafeQuestion(
    id: string,
    text: string,
    answers: seq<SafeAnswer>,
    category: string,
    difficulty: Difficulty,
    protocol: Option<string>)
}
