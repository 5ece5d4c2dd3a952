/**
 * `GET /api/quiz/results?token=` (`src/app/api/quiz/results/route.ts`): redeem
 * a token issued by the submit endpoint. The secret word is revealed only to a
 * passing score; the token is not deleted on a successful read.
 */
module QuizResults {
  import opened Wrappers
  import ProtocolBank
  import opened QuizTokens
  import QuizSubmit

  datatype ResultsResponse =
    | ResultsError(status: int, error: string)
    | ResultsOk(score: int, total: int, passed: bool, secretWord: Option<string>, protocolName: string)

  /** The response once `getQuizToken` has returned `lookup`. */
  function Respond(protocols: seq<ProtocolBank.Protocol>, lookup: Option<TokenData>): (r: ResultsResponse)
    ensures lookup.None? <==> r == ResultsError(401, "Invalid or expired token")
    ensures (lookup.Some? && ProtocolBank.ById(protocols, lookup.value.protocolId).None?)
            <==> r == ResultsError(404, "Protocol not found")
    ensures r.ResultsOk? ==>
              && lookup.Some? && ProtocolBank.ById(protocols, lookup.value.protocolId).Some?
              && var d, p := lookup.value, ProtocolBank.ById(protocols, lookup.value.protocolId).value;
              && r.score == d.score && r.total == d.total
              && (r.passed <==> d.score >= 3)
              && (r.secretWord.Some? <==> d.score >= 3)
              && (r.secretWord.Some? ==> r.secretWord.value == p.secretWord)
              && r.protocolName == ProtocolBank.DisplayName(p)
    ensures !r.ResultsOk? ==> r.status in {401, 404}
  {
    match lookup
    case None => ResultsError(401, "Invalid or expired token")
    case Some(d) =>
      match ProtocolBank.ById(protocols, d.protocolId)
      case None => ResultsError(404, "Protocol not found")
      case Some(p) =>
        ResultsOk(d.score, d.total, d.score >= QuizSubmit.PassMark,
                  if d.score >= QuizSubmit.PassMark then Some(p.secretWord) else None,
                  ProtocolBank.DisplayName(p))
  }

  /** The whole handler against a store holding `m`: a missing or empty `token` parameter is a 400. */
  function Outcome(protocols: seq<ProtocolBank.Protocol>, m: map<string, TokenData>, token: Option<string>, now: int): (r: ResultsResponse)
    ensures (token.None? || token.value == "") <==> r == ResultsError(400, "Token required")
    ensures r.ResultsError? ==> r.status in {400, 401, 404}
  {
    if token.None? || token.value == "" then ResultsError(400, "Token required")
    else Respond(protocols, Fetch(m, token.value, now))
  }

  /** The route handler; the only change to the store is the removal of this token's entry if it has expired. */
  method GetResults(store: TokenStore, protocols: seq<ProtocolBank.Protocol>, token: Option<string>, now: int)
    returns (r: ResultsResponse)
    modifies store
    ensures r == Outcome(protocols, old(store.tokens), token, now)
    ensures token.None? || token.value == "" ==> store.tokens == old(store.tokens)
    ensures token.Some? && token.value != "" ==> store.tokens == AfterFetch(old(store.tokens), token.value, now)
  {
    if token.None? || token.value == "" {
      return ResultsError(400, "Token required");
    }
    var tokenData := store.Get(token.value, now);
    r := Respond(protocols, tokenData);
  }

  /** An expired or unknown token is refused with 401, so it never yields a score or secret word. */
  lemma ExpiredOrUnknownRefused(protocols: seq<ProtocolBank.Protocol>, m: map<string, TokenData>, token: string, now: int)
    requires token != ""
    requires token !in m || m[token].expiresAt < now
    ensures Outcome(protocols, m, Some(token), now) == ResultsError(401, "Invalid or expired token")
  {
  }

  /** The secret word is present in a response exactly when the score passes. */
  lemma SecretIffPassed(protocols: seq<ProtocolBank.Protocol>, m: map<string, TokenData>, token: Option<string>, now: int)
    requires Outcome(protocols, m, token, now).ResultsOk?
    ensures var r := Outcome(protocols, m, token, now);
            (r.secretWord.Some? <==> r.score >= 3) && (r.passed <==> r.score >= 3)
  {
  }

  /**
   * A successful read leaves the token in place, so reading it again at any
   * later time up to its expiry gives the same response.
   */
  lemma RepeatedReadsAgree(protocols: seq<ProtocolBank.Protocol>, m: map<string, TokenData>, token: string, now: int, later: int)
    requires token != "" && Outcome(protocols, m, Some(token), now).ResultsOk?
    requires now <= later <= m[token].expiresAt
    ensures AfterFetch(m, token, now) == m
    ensures Outcome(protocols, AfterFetch(m, token, now), Some(token), later) == Outcome(protocols, m, Some(token), now)
  {
    RepeatedFetchStable(m, token, now, later);
  }

  /**
   * Submit, then read: a token issued at `issuedAt` and read back at any time
   * up to ten minutes later reports the issued score and total, and carries
   * the protocol's secret word exactly when the submission passed.
   */
  lemma SubmitThenRead(protocols: seq<ProtocolBank.Protocol>, bank: seq<QuizSubmit.QuizTypes.Question>,
                       body: QuizSubmit.Requests.Body, m: map<string, TokenData>, token: string, issuedAt: int, now: int)
    requires token != ""
    requires QuizSubmit.Outcome(protocols, bank, body, token, issuedAt).Issued?
    requires issuedAt <= now <= issuedAt + 600000
    ensures var s := QuizSubmit.Outcome(protocols, bank, body, token, issuedAt);
            var m' := m[token := QuizSubmit.StoredRecord(s, body)];
            var r := Outcome(protocols, m', Some(token), now);
            && r.ResultsOk? && r.score == s.score && r.total == s.total && r.passed == s.passed
            && (r.secretWord.Some? <==> s.passed)
  {
    QuizSubmit.IssuedFacts(protocols, bank, body, token, issuedAt);
  }
}
