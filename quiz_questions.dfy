/**
 * `GET /api/quiz/questions?protocolId=` (`src/app/api/quiz/questions/route.ts`):
 * the questions of one protocol with every answer stripped of `isCorrect` and
 * `explanation`, so that the answer key never reaches the client.
 */
module QuizQuestions {
  import opened Wrappers
  import opened QuizTypes
  import QuestionBank
  import ProtocolBank

  /** The `protocol` block of a successful response. */
  datatype ProtocolSummary = ProtocolSummary(id: string, name: string, title: Option<string>)

  datatype QuestionsResponse =
    | QuestionsError(status: int, error: string)
    | QuestionsOk(protocol: ProtocolSummary, questions: seq<SafeQuestion>, total: int)

  /** The answer projection `{ id, text }`. */
  function ToSafeAnswer(a: Answer): (r: SafeAnswer)
    ensures r.id == a.id && r.text == a.text
  {
    SafeAnswer(a.id, a.text)
  }

  /** The question projection: every visible field kept, every answer projected in order. */
  function ToSafeQuestion(q: Question): (r: SafeQuestion)
    ensures r.id == q.id && r.text == q.text && r.category == q.category
            && r.difficulty == q.difficulty && r.protocol == q.protocol
    ensures |r.answers| == |q.answers|
    ensures forall k :: 0 <= k < |q.answers| ==> r.answers[k].id == q.answers[k].id && r.answers[k].text == q.answers[k].text
  {
    SafeQuestion(q.id, q.text,
                 seq(|q.answers|, k requires 0 <= k < |q.answers| => ToSafeAnswer(q.answers[k])),
                 q.category, q.difficulty, q.protocol)
  }

  /** `questions.map(...)`: one safe question per question, in the same order. */
  function ToSafeQuestions(qs: seq<Question>): (r: seq<SafeQuestion>)
    ensures |r| == |qs|
    ensures forall i :: 0 <= i < |qs| ==> r[i] == ToSafeQuestion(qs[i])
  {
    seq(|qs|, i requires 0 <= i < |qs| => ToSafeQuestion(qs[i]))
  }

  /** The handler: 400 without a protocol id, 404 for an unknown protocol or one without questions. */
  function GetQuestions(protocols: seq<ProtocolBank.Protocol>, bank: seq<Question>, protocolId: Option<string>): (r: QuestionsResponse)
    ensures (protocolId.None? || protocolId.value == "") <==> r == QuestionsError(400, "protocolId required")
    ensures r.QuestionsOk? ==>
              && protocolId.Some? && protocolId.value != ""
              && ProtocolBank.ById(protocols, protocolId.value).Some?
              && r.protocol.id == protocolId.value
              && r.total == |r.questions| > 0
              && r.questions == ToSafeQuestions(QuestionBank.ByProtocol(bank, protocolId.value))
              && var p := ProtocolBank.ById(protocols, protocolId.value).value;
                 r.protocol == ProtocolSummary(p.id, p.name, p.title)
    ensures (protocolId.Some? && protocolId.value != "" && ProtocolBank.ById(protocols, protocolId.value).None?)
            <==> r == QuestionsError(404, "Protocol not found")
    ensures (protocolId.Some? && protocolId.value != "" && ProtocolBank.ById(protocols, protocolId.value).Some?
             && QuestionBank.ByProtocol(bank, protocolId.value) == [])
            <==> r == QuestionsError(404, "No questions found")
    ensures r.QuestionsError? ==> r.status in {400, 404}
  {
    if protocolId.None? || protocolId.value == "" then QuestionsError(400, "protocolId required")
    else
      match ProtocolBank.ById(protocols, protocolId.value)
      case None => QuestionsError(404, "Protocol not found")
      case Some(p) =>
        var questions := QuestionBank.ByProtocol(bank, protocolId.value);
        if |questions| == 0 then QuestionsError(404, "No questions found")
        else
          var safe := ToSafeQuestions(questions);
          QuestionsOk(ProtocolSummary(p.id, p.name, p.title), safe, |safe|)
  }

  /** A known protocol id is answered with 200 exactly when the bank holds a question of that protocol. */
  lemma OkIffQuestionsExist(protocols: seq<ProtocolBank.Protocol>, bank: seq<Question>, id: string)
    requires id != "" && ProtocolBank.ById(protocols, id).Some?
    ensures GetQuestions(protocols, bank, Some(id)).QuestionsOk?
            <==> exists q :: q in bank && q.protocol == Some(id)
  {
    var qs := QuestionBank.ByProtocol(bank, id);
    if exists q :: q in bank && q.protocol == Some(id) {
      var q :| q in bank && q.protocol == Some(id);
      assert q in qs;
    }
    assert |qs| > 0 ==> qs[0] in qs;
  }

  /** Two questions the client cannot tell apart: they differ at most in the answer key and explanations. */
  predicate SameVisible(a: Question, b: Question) {
    && a.id == b.id && a.text == b.text && a.category == b.category
    && a.difficulty == b.difficulty && a.protocol == b.protocol
    && |a.answers| == |b.answers|
    && forall k :: 0 <= k < |a.answers| ==> a.answers[k].id == b.answers[k].id && a.answers[k].text == b.answers[k].text
  }

  predicate SameVisibleBanks(a: seq<Question>, b: seq<Question>) {
    |a| == |b| && forall i :: 0 <= i < |a| ==> SameVisible(a[i], b[i])
  }

  lemma {:induction false} SafeQuestionHidesKey(a: Question, b: Question)
    requires SameVisible(a, b)
    ensures ToSafeQuestion(a) == ToSafeQuestion(b)
  {
    var ra, rb := ToSafeQuestion(a), ToSafeQuestion(b);
    assert ra.answers == rb.answers;
  }

  /** Filtering by protocol treats visibly equal banks alike. */
  lemma {:induction false} ByProtocolSameVisible(a: seq<Question>, b: seq<Question>, id: string)
    requires SameVisibleBanks(a, b)
    ensures SameVisibleBanks(QuestionBank.ByProtocol(a, id), QuestionBank.ByProtocol(b, id))
  {
    var pa := (q: Question) => q.protocol == Some(id);
    if a != [] {
      assert SameVisibleBanks(a[1..], b[1..]) by {
        forall i | 0 <= i < |a[1..]| ensures SameVisible(a[1..][i], b[1..][i]) {
          assert SameVisible(a[i + 1], b[i + 1]);
        }
      }
      ByProtocolSameVisible(a[1..], b[1..], id);
      assert SameVisible(a[0], b[0]);
      assert QuestionBank.ByProtocol(a, id) == (if pa(a[0]) then [a[0]] else []) + QuestionBank.ByProtocol(a[1..], id);
      assert QuestionBank.ByProtocol(b, id) == (if pa(b[0]) then [b[0]] else []) + QuestionBank.ByProtocol(b[1..], id);
    }
  }

  /**
   * The response does not depend on the answer key: two banks that differ only
   * in `isCorrect` and in explanations produce byte-for-byte the same response.
   */
  lemma ResponseHidesAnswerKey(protocols: seq<ProtocolBank.Protocol>, a: seq<Question>, b: seq<Question>, protocolId: Option<string>)
    requires SameVisibleBanks(a, b)
    ensures GetQuestions(protocols, a, protocolId) == GetQuestions(protocols, b, protocolId)
  {
    if protocolId.Some? && protocolId.value != "" {
      var qa, qb := QuestionBank.ByProtocol(a, protocolId.value), QuestionBank.ByProtocol(b, protocolId.value);
      ByProtocolSameVisible(a, b, protocolId.value);
      forall i | 0 <= i < |qa| ensures ToSafeQuestion(qa[i]) == ToSafeQuestion(qb[i]) {
        SafeQuestionHidesKey(qa[i], qb[i]);
      }
      assert ToSafeQuestions(qa) == ToSafeQuestions(qb);
    }
  }
}
