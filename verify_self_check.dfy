/**
 * `POST /api/verify-self/check` (`src/app/api/verify-self/check/route.ts`): the
 * polling endpoint. It looks the lower-cased `userId` up in the verification
 * cache; an entry older than one hour is deleted and reads as not verified.
 */
module VerifySelfCheck {
  import opened Wrappers
  import Js
  import opened Requests
  import opened VerifySelf

  /** How long a cached verification stays readable, in milliseconds. */
  const MaxAgeMillis := 3600000

  /**
   * What `userId.toLowerCase()` throws when `userId` is truthy but not a
   * string (a TypeError; the runtime's wording is not modelled).
   */
  const NotAStringError := "userId.toLowerCase is not a function"

  datatype CheckResponse =
    | CheckError(status: int, error: string)
    | CheckResult(verified: bool, dateOfBirth: Option<string>, name: Option<string>, nationality: Option<string>)

  /** `{ verified: false }` */
  const NotVerified := CheckResult(false, None, None, None)

  predicate Stale(e: CacheEntry, now: int) {
    e.timestamp < now - MaxAgeMillis
  }

  /** The cache key a request is looked up under, when it gets that far. */
  function Key(body: Body): (k: Option<string>)
    ensures k.Some? <==> Readable(body) && Field(body, "userId").Str? && Field(body, "userId").s != ""
    ensures k.Some? ==> k.value == Js.ToLower(Field(body, "userId").s)
  {
    if Readable(body) && Field(body, "userId").Str? && Field(body, "userId").s != ""
    then Some(Js.ToLower(Field(body, "userId").s))
    else None
  }

  /** The response when the cache holds `m` and the clock reads `now`. */
  function CheckOutcome(m: map<string, CacheEntry>, body: Body, now: int): (r: CheckResponse)
    ensures !Readable(body) ==> r == CheckError(500, Reason(ReadError(body)))
    ensures Readable(body) && !Js.Truthy(Field(body, "userId")) ==> r == CheckError(400, "User ID is required")
    ensures r.CheckError? ==> Key(body).None?
    ensures Key(body).Some? && (Key(body).value !in m || Stale(m[Key(body).value], now)) ==> r == NotVerified
    ensures Key(body).Some? && Key(body).value in m && !Stale(m[Key(body).value], now) ==>
              var e := m[Key(body).value];
              r == CheckResult(e.verified, Some(e.dateOfBirth), Some(e.name), Some(e.nationality))
  {
    if !Readable(body) then CheckError(500, Reason(ReadError(body)))
    else if !Js.Truthy(Field(body, "userId")) then CheckError(400, "User ID is required")
    else if !Field(body, "userId").Str? then CheckError(500, NotAStringError)
    else
      var key := Js.ToLower(Field(body, "userId").s);
      if key !in m then NotVerified
      else
        var e := m[key];
        if Stale(e, now) then NotVerified
        else CheckResult(e.verified, Some(e.dateOfBirth), Some(e.name), Some(e.nationality))
  }

  /** The cache after the request: only a stale entry under the looked-up key is removed. */
  function AfterCheck(m: map<string, CacheEntry>, body: Body, now: int): (r: map<string, CacheEntry>)
    ensures r.Keys <= m.Keys && forall k :: k in r ==> r[k] == m[k]
    ensures forall k :: k in m && k !in r ==> Key(body) == Some(k) && Stale(m[k], now)
    ensures Key(body).Some? && Key(body).value in m && Stale(m[Key(body).value], now) ==> Key(body).value !in r
  {
    match Key(body)
    case Some(key) => if key in m && Stale(m[key], now) then m - {key} else m
    case None => m
  }

  /** The check handler over the process-wide cache. */
  method Check(cache: VerificationCache, body: Body, now: int) returns (r: CheckResponse)
    modifies cache
    ensures r == CheckOutcome(old(cache.entries), body, now)
    ensures cache.entries == AfterCheck(old(cache.entries), body, now)
  {
    if !Readable(body) {
      return CheckError(500, Reason(ReadError(body)));
    }
    var userId := Field(body, "userId");
    if !Js.Truthy(userId) {
      return CheckError(400, "User ID is required");
    }
    if !userId.Str? {
      return CheckError(500, NotAStringError);
    }
    var normalizedUserId := Js.ToLower(userId.s);
    if normalizedUserId in cache.entries {
      var verification := cache.entries[normalizedUserId];
      if verification.timestamp < now - MaxAgeMillis {
        cache.entries := cache.entries - {normalizedUserId};
        return NotVerified;
      }
      return CheckResult(verification.verified, Some(verification.dateOfBirth), Some(verification.name), Some(verification.nationality));
    }
    return NotVerified;
  }

  /** A fresh result is returned again on the next poll: a successful read leaves the cache as it was. */
  lemma FreshReadKeepsCache(m: map<string, CacheEntry>, body: Body, now: int)
    requires CheckOutcome(m, body, now).CheckResult? && CheckOutcome(m, body, now).verified
    ensures AfterCheck(m, body, now) == m
  {
  }

  /**
   * Write, then poll: after a verification cached under the wallet of
   * `userContextData` at `writtenAt`, a poll within the hour whose `userId`
   * lower-cases to that wallet reports it verified, with the disclosed fields.
   * Case differences in the polled address do not matter.
   */
  lemma PostThenCheck(m: map<string, CacheEntry>, post: Body, verifier: VerifierOutcome, writtenAt: int,
                      poll: Body, now: int)
    requires CacheWrite(post, verifier, writtenAt).Some?
    requires Readable(poll) && Field(poll, "userId").Str? && Field(poll, "userId").s != ""
    requires Js.ToLower(Field(poll, "userId").s) == CacheWrite(post, verifier, writtenAt).value.0
    requires now <= writtenAt + MaxAgeMillis
    ensures var e := CacheWrite(post, verifier, writtenAt).value.1;
            var m' := m[CacheWrite(post, verifier, writtenAt).value.0 := e];
            CheckOutcome(m', poll, now) == CheckResult(true, Some(e.dateOfBirth), Some(e.name), Some(e.nationality))
  {
  }

  /** Polling the checksummed or lower-case spelling of a wallet finds the same entry. */
  lemma KeyIgnoresCase(a: Body, b: Body)
    requires Key(a).Some? && Key(b).Some?
    requires Js.ToLower(Field(a, "userId").s) == Js.ToLower(Field(b, "userId").s)
    ensures Key(a) == Key(b)
  {
  }

  /** A cached entry is readable for exactly one hour: past that, the poll reports not verified and deletes it. */
  lemma ExpiresAfterAnHour(m: map<string, CacheEntry>, body: Body, now: int)
    requires Key(body).Some? && Key(body).value in m
    requires m[Key(body).value].timestamp + MaxAgeMillis < now
    ensures CheckOutcome(m, body, now) == NotVerified
    ensures Key(body).value !in AfterCheck(m, body, now)
  {
  }
}
