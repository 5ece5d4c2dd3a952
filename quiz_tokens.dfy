/**
 * The in-memory store of quiz result tokens (`src/lib/quiz-tokens.ts`): a map
 * from token to score record, expired on read and by a periodic sweep. An entry
 * is expired only once `expiresAt < now`; at `expiresAt == now` it is still valid.
 */
module QuizTokens {
  import opened Wrappers

  datatype TokenData = TokenData(score: int, total: int, protocolId: string, expiresAt: int)

  predicate Expired(d: TokenData, now: int) {
    d.expiresAt < now
  }

  /** What `getQuizToken(token)` returns when the store holds `m` and the clock reads `now`. */
  function Fetch(m: map<string, TokenData>, token: string, now: int): (r: Option<TokenData>)
    ensures r.Some? <==> token in m && m[token].expiresAt >= now
    ensures r.Some? ==> r.value == m[token]
  {
    if token in m && !Expired(m[token], now) then Some(m[token]) else None
  }

  /** The store after `getQuizToken(token)`: only an expired entry for that token is removed. */
  function AfterFetch(m: map<string, TokenData>, token: string, now: int): (r: map<string, TokenData>)
    ensures r.Keys <= m.Keys && forall t :: t in r ==> r[t] == m[t]
    ensures forall t :: t in m && t !in r ==> t == token && Expired(m[token], now)
  {
    if token in m && Expired(m[token], now) then m - {token} else m
  }

  /** The store after a sweep at `now`. */
  function Unexpired(m: map<string, TokenData>, now: int): (r: map<string, TokenData>)
    ensures forall t :: t in r ==> t in m && r[t] == m[t] && !Expired(m[t], now)
    ensures forall t :: t in m && !Expired(m[t], now) ==> t in r
  {
    map t | t in m && !Expired(m[t], now) :: m[t]
  }

  /** Expire-on-read and the sweep agree: reading before or after a sweep at the same time gives the same answer. */
  lemma FetchAgreesWithSweep(m: map<string, TokenData>, token: string, now: int)
    ensures Fetch(Unexpired(m, now), token, now) == Fetch(m, token, now)
    ensures Unexpired(AfterFetch(m, token, now), now) == Unexpired(m, now)
  {
  }

  /** Sweeping at `later` after sweeping at `now <= later` is the same as sweeping once at `later`. */
  lemma SweepMonotone(m: map<string, TokenData>, now: int, later: int)
    requires now <= later
    ensures Unexpired(Unexpired(m, now), later) == Unexpired(m, later)
  {
    assert Unexpired(Unexpired(m, now), later).Keys == Unexpired(m, later).Keys;
  }

  /**
   * A successful read leaves the store unchanged, so a second read of the same
   * token at any time up to its expiry returns the same record.
   */
  lemma RepeatedFetchStable(m: map<string, TokenData>, token: string, now: int, later: int)
    requires Fetch(m, token, now).Some?
    requires later <= Fetch(m, token, now).value.expiresAt
    ensures AfterFetch(m, token, now) == m
    ensures Fetch(AfterFetch(m, token, now), token, later) == Fetch(m, token, now)
  {
  }

  /** After `setQuizToken(token, d)` the token reads back as `d` until `d.expiresAt`, and no other token changes. */
  lemma FetchAfterSet(m: map<string, TokenData>, token: string, d: TokenData, other: string, now: int)
    requires other != token
    ensures Fetch(m[token := d], token, now) == if now <= d.expiresAt then Some(d) else None
    ensures Fetch(m[token := d], other, now) == Fetch(m, other, now)
  {
  }

  /** The module-level `quizTokens` Map. */
  class TokenStore {
    var tokens: map<string, TokenData>

    constructor ()
      ensures tokens == map[]
    {
      tokens := map[];
    }

    /** `setQuizToken`: insert or overwrite one entry. */
    method Set(token: string, data: TokenData)
      modifies this
      ensures tokens == old(tokens)[token := data]
    {
      tokens := tokens[token := data];
    }

    /** `getQuizToken`: an expired entry is deleted and reads as absent. */
    method Get(token: string, now: int) returns (r: Option<TokenData>)
      modifies this
      ensures r == Fetch(old(tokens), token, now)
      ensures tokens == AfterFetch(old(tokens), token, now)
    {
      if token in tokens && tokens[token].expiresAt < now {
        tokens := tokens - {token};
        return None;
      }
      r := if token in tokens then Some(tokens[token]) else None;
    }

    /** `deleteQuizToken`: remove that key only. */
    method Delete(token: string)
      modifies this
      ensures tokens == old(tokens) - {token}
    {
      tokens := tokens - {token};
    }

    /** The body of the five-minute cleanup interval: delete every entry with `expiresAt < now`. */
    method Sweep(now: int)
      modifies this
      ensures tokens == Unexpired(old(tokens), now)
    {
      var pending := tokens.Keys;
      while pending != {}
        invariant pending <= old(tokens).Keys
        invariant tokens == map t | t in old(tokens) && (t in pending || !Expired(old(tokens)[t], now)) :: old(tokens)[t]
        decreases pending
      {
        var t :| t in pending;
        if tokens[t].expiresAt < now {
          tokens := tokens - {t};
        }
        pending := pending - {t};
      }
    }
  }
}
