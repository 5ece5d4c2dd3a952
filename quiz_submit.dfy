/**
 * `POST /api/quiz/submit` (`src/app/api/quiz/submit/route.ts`): validate the
 * submission, recompute the score from the server's own answer key, refuse
 * submissions that were too fast, then issue a token that the results endpoint
 * redeems. The random token (`crypto.randomBytes`) and the clock are inputs.
 */
module QuizSubmit {
  import opened Wrappers
  import Js
  import Seqs
  import opened QuizTypes
  import QuestionBank
  import ProtocolBank
  import opened QuizTokens
  import opened Requests

  /** A score of at least this many correct answers passes. */
  const PassMark := 3
  /** The minimum plausible time per question, in milliseconds (5 seconds). */
  const MinMillisPerQuestion := 5000
  /** Lifetime of an issued token, in milliseconds (10 minutes). */
  const TokenTtlMillis := 10 * 60 * 1000

  datatype QuestionResult = QuestionResult(questionId: string, isCorrect: bool)

  /** The response; a successful one carries the token and score but never the secret word. */
  datatype SubmitResponse =
    | Rejected(status: int, error: string)
    | Issued(token: string, score: nat, total: nat, passed: bool, expiresAt: int)

  /** The value submitted for question `q` names one of its answers that is flagged correct. */
  predicate AnsweredCorrectly(q: Question, given: Js.Value) {
    Js.Truthy(given) &&
    (match Seqs.Find(q.answers, (a: Answer) => Js.Str(a.id) == given)
     case Some(a) => a.isCorrect
     case None => false)
  }

  /** The question was answered correctly in `answers` (a missing or unknown id is wrong). */
  predicate Correct(answers: Js.Value, q: Question) {
    AnsweredCorrectly(q, Js.Get(answers, q.id))
  }

  /** The number of questions answered correctly. */
  function Score(questions: seq<Question>, answers: Js.Value): (n: nat)
    ensures n <= |questions|
  {
    if questions == [] then 0
    else
      var last := questions[|questions| - 1];
      Score(questions[..|questions| - 1], answers) + (if Correct(answers, last) then 1 else 0)
  }

  /** The score is the number of bank questions whose submitted answer is correct. */
  lemma {:induction false} ScoreCountsCorrect(questions: seq<Question>, answers: Js.Value)
    ensures Score(questions, answers) == |Seqs.Filter(questions, (q: Question) => Correct(answers, q))|
  {
    if questions != [] {
      var init, last := questions[..|questions| - 1], questions[|questions| - 1];
      ScoreCountsCorrect(init, answers);
      assert questions == init + [last];
      Seqs.FilterSnoc(init, last, (q: Question) => Correct(answers, q));
    }
  }

  /** Full marks exactly when every question was answered correctly. */
  lemma FullMarksIff(questions: seq<Question>, answers: Js.Value)
    ensures Score(questions, answers) == |questions| <==> forall i :: 0 <= i < |questions| ==> Correct(answers, questions[i])
  {
    var correct := (q: Question) => Correct(answers, q);
    ScoreCountsCorrect(questions, answers);
    Seqs.FilterKeepsAllIff(questions, correct);
    assert forall i :: 0 <= i < |questions| ==> correct(questions[i]) == Correct(answers, questions[i]);
  }

  /**
   * Only the submitted values at the bank's question ids matter: extra keys,
   * and anything a client might claim about correctness, cannot change the score.
   */
  lemma {:induction false} ScoreDependsOnlyOnBankIds(questions: seq<Question>, a1: Js.Value, a2: Js.Value)
    requires forall q :: q in questions ==> Js.Get(a1, q.id) == Js.Get(a2, q.id)
    ensures Score(questions, a1) == Score(questions, a2)
  {
    if questions != [] {
      var init := questions[..|questions| - 1];
      assert forall q :: q in init ==> q in questions;
      assert questions[|questions| - 1] in questions;
      ScoreDependsOnlyOnBankIds(init, a1, a2);
    }
  }

  /** The body of the `forEach` callback: a falsy submitted id is wrong, else the answer it names decides. */
  method Grade(question: Question, answers: Js.Value) returns (isCorrect: bool)
    ensures isCorrect == Correct(answers, question)
  {
    var userAnswerId := Js.Get(answers, question.id);
    if !Js.Truthy(userAnswerId) {
      return false;
    }
    var userAnswer := Seqs.Find(question.answers, (a: Answer) => Js.Str(a.id) == userAnswerId);
    isCorrect := if userAnswer.Some? then userAnswer.value.isCorrect else false;
  }

  /** Extending the graded prefix by one question adds that question's verdict to the score. */
  lemma ScorePrefix(questions: seq<Question>, answers: Js.Value, i: nat)
    requires i < |questions|
    ensures Score(questions[..i + 1], answers) == Score(questions[..i], answers) + (if Correct(answers, questions[i]) then 1 else 0)
  {
    assert questions[..i + 1][..i] == questions[..i];
  }

  /** The `forEach` loop: count correct answers and record a result per question. */
  method ScoreAnswers(questions: seq<Question>, answers: Js.Value) returns (correct: nat, results: seq<QuestionResult>)
    ensures correct == Score(questions, answers)
    ensures |results| == |questions|
    ensures forall i :: 0 <= i < |questions| ==> results[i] == QuestionResult(questions[i].id, Correct(answers, questions[i]))
  {
    correct, results := 0, [];
    var i := 0;
    while i < |questions|
      invariant 0 <= i <= |questions|
      invariant correct == Score(questions[..i], answers)
      invariant |results| == i
      invariant forall j :: 0 <= j < i ==> results[j] == QuestionResult(questions[j].id, Correct(answers, questions[j]))
    {
      var question := questions[i];
      var isCorrect := Grade(question, answers);
      ScorePrefix(questions, answers, i);
      if isCorrect {
        correct := correct + 1;
      }
      results := results + [QuestionResult(question.id, isCorrect)];
      i := i + 1;
    }
    assert questions[..i] == questions;
  }

  // ---------------------------------------------------------------------------
  // The validation chain

  /** `!protocolId || !answers || typeof answers !== 'object'` */
  predicate InvalidRequest(b: Body)
    requires Readable(b)
  {
    !Js.Truthy(Field(b, "protocolId")) || !Js.Truthy(Field(b, "answers")) || !Js.IsObjectType(Field(b, "answers"))
  }

  /** `getProtocolById(protocolId)`: a non-string id matches no protocol (strict equality). */
  function ProtocolOf(protocols: seq<ProtocolBank.Protocol>, id: Js.Value): (r: Option<ProtocolBank.Protocol>)
    ensures r.Some? <==> id.Str? && exists i :: 0 <= i < |protocols| && protocols[i].id == id.s
    ensures r.Some? ==> r.value in protocols && r.value.id == id.s
  {
    if id.Str? then ProtocolBank.ById(protocols, id.s) else None
  }

  /**
   * Both timestamps are set and the time taken is under five seconds a question:
   * `(endTime - startTime) / 1000 < questions.length * 5`, which is
   * `endTime - startTime < 5000 * questions.length` in milliseconds. A NaN
   * difference compares false, so the check lets it through.
   */
  predicate TooFast(startTime: Js.Value, endTime: Js.Value, count: nat) {
    Js.Truthy(startTime) && Js.Truthy(endTime)
    && Js.ToNumber(startTime).Some? && Js.ToNumber(endTime).Some?
    && Js.ToNumber(endTime).value - Js.ToNumber(startTime).value < MinMillisPerQuestion * count
  }

  /**
   * Timestamps sent as one-element arrays are coerced like their element, so
   * `startTime: [1], endTime: [2]` is still refused as too fast.
   */
  lemma ArrayTimestampsChecked(start: int, end: int, count: nat)
    requires end - start < MinMillisPerQuestion * count
    ensures TooFast(Js.Arr([Js.Num(start)]), Js.Arr([Js.Num(end)]), count)
  {
    Js.ArrayNumber(start);
    Js.ArrayNumber(end);
  }

  /** The handler's response, as a function of the banks, the body, the fresh token and the clock. */
  function Outcome(protocols: seq<ProtocolBank.Protocol>, bank: seq<Question>, body: Body, token: string, now: int): (r: SubmitResponse)
    ensures !Readable(body) <==> r == Rejected(500, "Internal server error")
    ensures r.Rejected? ==> r.status in {400, 404, 500}
    ensures r.Issued? ==> r.token == token && r.score <= r.total && r.expiresAt == now + TokenTtlMillis
  {
    if !Readable(body) then Rejected(500, "Internal server error")
    else if InvalidRequest(body) then Rejected(400, "Invalid request data")
    else if ProtocolOf(protocols, Field(body, "protocolId")).None? then Rejected(404, "Protocol not found")
    else
      var questions := QuestionBank.ByProtocol(bank, Field(body, "protocolId").s);
      var answers := Field(body, "answers");
      if |questions| == 0 then Rejected(404, "No questions found")
      else if Js.KeyCount(answers) != |questions| then Rejected(400, "Not all questions were answered")
      else if TooFast(Field(body, "startTime"), Field(body, "endTime"), |questions|) then
        Rejected(400, "Quiz completed too quickly. Please try again.")
      else
        var score := Score(questions, answers);
        Issued(token, score, |questions|, score >= PassMark, now + TokenTtlMillis)
  }

  /** The record a successful submission stores under its token. */
  function StoredRecord(r: SubmitResponse, body: Body): TokenData
    requires r.Issued? && Readable(body) && Field(body, "protocolId").Str?
  {
    TokenData(r.score, r.total, Field(body, "protocolId").s, r.expiresAt)
  }

  /** The route handler: on success exactly one store entry is written; on every rejection none is. */
  method Submit(store: TokenStore, protocols: seq<ProtocolBank.Protocol>, bank: seq<Question>, body: Body, token: string, now: int)
    returns (r: SubmitResponse)
    modifies store
    ensures r == Outcome(protocols, bank, body, token, now)
    ensures r.Issued? ==> Readable(body) && Field(body, "protocolId").Str?
                          && store.tokens == old(store.tokens)[token := StoredRecord(r, body)]
    ensures !r.Issued? ==> store.tokens == old(store.tokens)
  {
    if !Readable(body) {
      return Rejected(500, "Internal server error");
    }
    var protocolId, answers := Field(body, "protocolId"), Field(body, "answers");
    var startTime, endTime := Field(body, "startTime"), Field(body, "endTime");
    if !Js.Truthy(protocolId) || !Js.Truthy(answers) || !Js.IsObjectType(answers) {
      return Rejected(400, "Invalid request data");
    }
    var protocol := ProtocolOf(protocols, protocolId);
    if protocol.None? {
      return Rejected(404, "Protocol not found");
    }
    var questions := QuestionBank.ByProtocol(bank, protocolId.s);
    if |questions| == 0 {
      return Rejected(404, "No questions found");
    }
    if Js.KeyCount(answers) != |questions| {
      return Rejected(400, "Not all questions were answered");
    }
    var correctAnswers, questionResults := ScoreAnswers(questions, answers);
    if TooFast(startTime, endTime, |questions|) {
      return Rejected(400, "Quiz completed too quickly. Please try again.");
    }
    var expiresAt := now + TokenTtlMillis;
    store.Set(token, TokenData(correctAnswers, |questions|, protocolId.s, expiresAt));
    r := Issued(token, correctAnswers, |questions|, correctAnswers >= PassMark, expiresAt);
  }

  // ---------------------------------------------------------------------------
  // Properties of the outcome

  /** What an issued response guarantees about the submission it accepted. */
  lemma IssuedFacts(protocols: seq<ProtocolBank.Protocol>, bank: seq<Question>, body: Body, token: string, now: int)
    requires Outcome(protocols, bank, body, token, now).Issued?
    ensures var r := Outcome(protocols, bank, body, token, now);
      && Readable(body) && Field(body, "protocolId").Str?
      && var questions := QuestionBank.ByProtocol(bank, Field(body, "protocolId").s);
      && ProtocolBank.ById(protocols, Field(body, "protocolId").s).Some?
      && 0 < r.total == |questions| == Js.KeyCount(Field(body, "answers"))
      && r.score == |Seqs.Filter(questions, (q: Question) => Correct(Field(body, "answers"), q))|
      && r.score <= r.total
      && (r.passed <==> r.score >= 3)
      && r.token == token && r.expiresAt == now + 600000
      && !TooFast(Field(body, "startTime"), Field(body, "endTime"), |questions|)
  {
    var questions := QuestionBank.ByProtocol(bank, Field(body, "protocolId").s);
    ScoreCountsCorrect(questions, Field(body, "answers"));
  }

  /**
   * The first checks, in order: a missing protocol id or a missing or
   * non-object `answers` is a 400; an unknown protocol, or one without
   * questions in the bank, is a 404.
   */
  lemma EarlyRejections(protocols: seq<ProtocolBank.Protocol>, bank: seq<Question>, body: Body, token: string, now: int)
    requires Readable(body)
    ensures InvalidRequest(body) ==> Outcome(protocols, bank, body, token, now) == Rejected(400, "Invalid request data")
    ensures !InvalidRequest(body) && ProtocolOf(protocols, Field(body, "protocolId")).None? ==>
              Outcome(protocols, bank, body, token, now) == Rejected(404, "Protocol not found")
    ensures !InvalidRequest(body) && ProtocolOf(protocols, Field(body, "protocolId")).Some?
            && |QuestionBank.ByProtocol(bank, Field(body, "protocolId").s)| == 0 ==>
              Outcome(protocols, bank, body, token, now) == Rejected(404, "No questions found")
  {
  }

  /** A submission that passes every check is issued a token carrying its recomputed score. */
  lemma AcceptedOutcome(protocols: seq<ProtocolBank.Protocol>, bank: seq<Question>, body: Body, token: string, now: int)
    requires Readable(body) && !InvalidRequest(body)
    requires Field(body, "protocolId").Str? && ProtocolBank.ById(protocols, Field(body, "protocolId").s).Some?
    requires var questions := QuestionBank.ByProtocol(bank, Field(body, "protocolId").s);
             |questions| > 0 && Js.KeyCount(Field(body, "answers")) == |questions|
             && !TooFast(Field(body, "startTime"), Field(body, "endTime"), |questions|)
    ensures var questions := QuestionBank.ByProtocol(bank, Field(body, "protocolId").s);
            var score := Score(questions, Field(body, "answers"));
            Outcome(protocols, bank, body, token, now) == Issued(token, score, |questions|, score >= 3, now + 600000)
  {
  }

  /** A well-formed submission for a known protocol with the wrong number of answers is refused, whatever its keys. */
  lemma CountMismatchRejected(protocols: seq<ProtocolBank.Protocol>, bank: seq<Question>, body: Body, token: string, now: int)
    requires Readable(body) && !InvalidRequest(body)
    requires Field(body, "protocolId").Str? && ProtocolBank.ById(protocols, Field(body, "protocolId").s).Some?
    requires var n := |QuestionBank.ByProtocol(bank, Field(body, "protocolId").s)|;
             n > 0 && Js.KeyCount(Field(body, "answers")) != n
    ensures Outcome(protocols, bank, body, token, now) == Rejected(400, "Not all questions were answered")
  {
  }

  /** A submission that reaches the time check and took under 5 seconds a question is refused. */
  lemma TooFastRejected(protocols: seq<ProtocolBank.Protocol>, bank: seq<Question>, body: Body, token: string, now: int, start: int, end: int)
    requires Readable(body) && !InvalidRequest(body)
    requires Field(body, "protocolId").Str? && ProtocolBank.ById(protocols, Field(body, "protocolId").s).Some?
    requires var n := |QuestionBank.ByProtocol(bank, Field(body, "protocolId").s)|;
             n > 0 && Js.KeyCount(Field(body, "answers")) == n
             && Field(body, "startTime") == Js.Num(start) && Field(body, "endTime") == Js.Num(end)
             && start != 0 && end != 0 && end - start < 5000 * n
    ensures Outcome(protocols, bank, body, token, now).Rejected?
    ensures Outcome(protocols, bank, body, token, now).status == 400
  {
  }

  // ---------------------------------------------------------------------------
  // The shipped Aave bank as a worked example

  /** The submitted answers of the example: a1-2, a2-1, a3-2, a4-1, a5-0. */
  const ExampleAnswers: Js.Value := Js.Obj([
    ("a1", Js.Str("a1-2")), ("a2", Js.Str("a2-1")), ("a3", Js.Str("a3-2")),
    ("a4", Js.Str("a4-1")), ("a5", Js.Str("a5-0"))])

  /** A question is answered correctly when the submitted id is that of its first answer flagged correct. */
  lemma CorrectByIndex(answers: Js.Value, q: Question, k: nat)
    requires k < |q.answers| && q.answers[k].isCorrect && q.answers[k].id != ""
    requires Js.Get(answers, q.id) == Js.Str(q.answers[k].id)
    requires forall j :: 0 <= j < k ==> q.answers[j].id != q.answers[k].id
    ensures Correct(answers, q)
  {
    var p := (a: Answer) => Js.Str(a.id) == Js.Get(answers, q.id);
    assert p(q.answers[k]);
    assert forall j :: 0 <= j < k ==> !p(q.answers[j]);
  }

  /** Question `i` of the shipped bank is answered correctly by the example: its answer `k` is flagged correct and submitted. */
  lemma ExampleAnswerCorrect(i: nat, k: nat)
    requires i < |QuestionBank.Questions| && i < |ExampleAnswers.entries|
    requires var q := QuestionBank.Questions[i];
             && k < |q.answers| && q.answers[k].isCorrect && q.answers[k].id != ""
             && ExampleAnswers.entries[i] == (q.id, Js.Str(q.answers[k].id))
             && (forall j :: 0 <= j < i ==> ExampleAnswers.entries[j].0 != q.id)
             && (forall j :: 0 <= j < k ==> q.answers[j].id != q.answers[k].id)
    ensures Correct(ExampleAnswers, QuestionBank.Questions[i])
  {
    var q := QuestionBank.Questions[i];
    Js.LookupAt(ExampleAnswers.entries, i, q.id);
    CorrectByIndex(ExampleAnswers, q, k);
  }

  /** Against the shipped answer key all five example answers are correct, a5-0 included. */
  lemma ExampleScore()
    ensures Score(QuestionBank.Questions, ExampleAnswers) == 5
  {
    var qs := QuestionBank.Questions;
    assert |qs| == 5;
    forall i | 0 <= i < |qs| ensures Correct(ExampleAnswers, qs[i]) {
      if i == 0 {
        ExampleAnswerCorrect(0, 2);
      } else if i == 1 {
        ExampleAnswerCorrect(1, 1);
      } else if i == 2 {
        ExampleAnswerCorrect(2, 2);
      } else if i == 3 {
        ExampleAnswerCorrect(3, 1);
      } else {
        ExampleAnswerCorrect(4, 0);
      }
    }
    FullMarksIff(qs, ExampleAnswers);
  }

  /** Every question of the shipped bank belongs to the Aave protocol. */
  lemma ShippedBankIsAave()
    ensures QuestionBank.ByProtocol(QuestionBank.Questions, "aave") == QuestionBank.Questions
  {
    var qs := QuestionBank.Questions;
    assert forall i :: 0 <= i < |qs| ==> qs[i].protocol == Some("aave");
    Seqs.FilterAll(qs, (q: Question) => q.protocol == Some("aave"));
  }

  /**
   * The worked example: any body that submits a1-2, a2-1, a3-2, a4-1, a5-0 for
   * the Aave quiz and took at least 25 seconds scores 5 of 5, passes, and is
   * issued a token valid for ten minutes.
   */
  lemma ExampleSubmission(protocols: seq<ProtocolBank.Protocol>, body: Body, token: string, now: int, start: int, end: int)
    requires ProtocolBank.ById(protocols, "aave").Some?
    requires Readable(body) && Field(body, "protocolId") == Js.Str("aave") && Field(body, "answers") == ExampleAnswers
    requires Field(body, "startTime") == Js.Num(start) && Field(body, "endTime") == Js.Num(end) && end - start >= 25000
    ensures Outcome(protocols, QuestionBank.Questions, body, token, now) == Issued(token, 5, 5, true, now + 600000)
  {
    assert !TooFast(Js.Num(start), Js.Num(end), 5);
    assert !InvalidRequest(body);
    var bank := QuestionBank.Questions;
    assert QuestionBank.ByProtocol(bank, "aave") == bank && |bank| == 5 by {
      ShippedBankIsAave();
    }
    assert Score(bank, ExampleAnswers) == 5 by {
      ExampleScore();
    }
    AcceptedOutcome(protocols, bank, body, token, now);
  }
}
