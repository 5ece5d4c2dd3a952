/**
 * The question bank of `src/data/questions/index.ts` and its lookups. The bank
 * is a constant array in the source; here the lookups take it as a parameter so
 * that their properties are proved for any bank, and `Questions` is the bank the
 * source ships (the Aave questions only).
 */
module QuestionBank {
  import opened Wrappers
  import opened QuizTypes
  import Seqs

  /** `getQuestionsByProtocol`: the bank questions whose `protocol` is `protocol`, in bank order. */
  function ByProtocol(bank: seq<Question>, protocol: string): (r: seq<Question>)
    ensures forall q :: q in r <==> q in bank && q.protocol == Some(protocol)
  {
    var p := (q: Question) => q.protocol == Some(protocol);
    Seqs.FilterMembership(bank, p);
    Seqs.Filter(bank, p)
  }

  /** `getQuestionsByCategory` */
  function ByCategory(bank: seq<Question>, category: string): (r: seq<Question>)
    ensures forall q :: q in r <==> q in bank && q.category == category
  {
    var p := (q: Question) => q.category == category;
    Seqs.FilterMembership(bank, p);
    Seqs.Filter(bank, p)
  }

  /** `getQuestionsByDifficulty` */
  function ByDifficulty(bank: seq<Question>, difficulty: Difficulty): (r: seq<Question>)
    ensures forall q :: q in r <==> q in bank && q.difficulty == difficulty
  {
    var p := (q: Question) => q.difficulty == difficulty;
    Seqs.FilterMembership(bank, p);
    Seqs.Filter(bank, p)
  }

  /** `getQuestionById`: the first question with that id, or None when no question has it. */
  function ById(bank: seq<Question>, id: string): (r: Option<Question>)
    ensures r.Some? ==> exists i :: 0 <= i < |bank| && bank[i] == r.value && r.value.id == id
                          && forall j :: 0 <= j < i ==> bank[j].id != id
    ensures r.None? <==> forall i :: 0 <= i < |bank| ==> bank[i].id != id
  {
    Seqs.Find(bank, (q: Question) => q.id == id)
  }

  /**
   * Each filter keeps the order of the bank and each matching question's
   * multiplicity, and drops every other question.
   */
  lemma ByProtocolExact(bank: seq<Question>, protocol: string)
    ensures Seqs.IsSubsequence(ByProtocol(bank, protocol), bank)
    ensures forall q :: multiset(ByProtocol(bank, protocol))[q]
                          == if q.protocol == Some(protocol) then multiset(bank)[q] else 0
  {
    var p := (q: Question) => q.protocol == Some(protocol);
    Seqs.FilterIsSubsequence(bank, p);
    forall q ensures multiset(ByProtocol(bank, protocol))[q] == if p(q) then multiset(bank)[q] else 0 {
      Seqs.FilterCounts(bank, p, q);
    }
  }

  lemma ByCategoryExact(bank: seq<Question>, category: string)
    ensures Seqs.IsSubsequence(ByCategory(bank, category), bank)
    ensures forall q :: multiset(ByCategory(bank, category))[q]
                          == if q.category == category then multiset(bank)[q] else 0
  {
    var p := (q: Question) => q.category == category;
    Seqs.FilterIsSubsequence(bank, p);
    forall q ensures multiset(ByCategory(bank, category))[q] == if p(q) then multiset(bank)[q] else 0 {
      Seqs.FilterCounts(bank, p, q);
    }
  }

  lemma ByDifficultyExact(bank: seq<Question>, difficulty: Difficulty)
    ensures Seqs.IsSubsequence(ByDifficulty(bank, difficulty), bank)
    ensures forall q :: multiset(ByDifficulty(bank, difficulty))[q]
                          == if q.difficulty == difficulty then multiset(bank)[q] else 0
  {
    var p := (q: Question) => q.difficulty == difficulty;
    Seqs.FilterIsSubsequence(bank, p);
    forall q ensures multiset(ByDifficulty(bank, difficulty))[q] == if p(q) then multiset(bank)[q] else 0 {
      Seqs.FilterCounts(bank, p, q);
    }
  }

  // ---------------------------------------------------------------------------
  // The shipped bank: the five Aave questions (explanations left out).

  function Opt(id: string, text: string, correct: bool): Answer {
    Answer(id, text, correct, None)
  }

  function AaveQuestion(id: string, text: string, difficulty: Difficulty, answers: seq<Answer>): Question {
    Question(id, text, answers, "lending", difficulty, Some("aave"), None)
  }

  const Questions: seq<Question> := [
    AaveQuestion("a1", "What is the primary characteristic of an Aave Flash Loan?", Medium, [
      Opt("a1-0", "It must be repaid within 24 hours", false),
      Opt("a1-1", "It requires 200% collateral", false),
      Opt("a1-2", "It must be borrowed and repaid within the same blockchain transaction", true),
      Opt("a1-3", "It is only available to institutional investors", false)]),
    AaveQuestion("a2", "What is 'E-Mode' in Aave V3?", Medium, [
      Opt("a2-0", "Emergency Mode for protocol pauses", false),
      Opt("a2-1", "Efficiency Mode for high LTV between correlated assets", true),
      Opt("a2-2", "Easy Mode for new users", false),
      Opt("a2-3", "Ethereum-only Mode", false)]),
    AaveQuestion("a3", "Which token is the native decentralized stablecoin of the Aave ecosystem?", Easy, [
      Opt("a3-0", "USDT", false),
      Opt("a3-1", "DAI", false),
      Opt("a3-2", "GHO", true),
      Opt("a3-3", "PYUSD", false)]),
    AaveQuestion("a4", "What are 'aTokens'?", Easy, [
      Opt("a4-0", "Governance tokens used for voting only", false),
      Opt("a4-1", "Interest-bearing tokens that increase in value/amount as interest accrues", true),
      Opt("a4-2", "Voucher tokens for Aave merchandise", false),
      Opt("a4-3", "Tokens used to pay gas fees on Aave", false)]),
    AaveQuestion("a5", "What is the 'Safety Module' in Aave used for?", Medium, [
      Opt("a5-0", "Staking AAVE to act as a backstop in case of a shortfall event", true),
      Opt("a5-1", "Storing private keys for users", false),
      Opt("a5-2", "Automated trading", false),
      Opt("a5-3", "Protecting the UI from hackers", false)])
  ]
}
