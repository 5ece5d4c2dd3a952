/**
 * `POST /api/verify-self` (`src/app/api/verify-self/route.ts`): the callback
 * the identity verifier's relayer calls with an attestation. The attestation
 * check itself belongs to the verifier's SDK and is a parameter here (what
 * `verify` returned, or what it threw). On success the disclosed date of birth
 * is reformatted, the wallet is read out of `userContextData`, and the result
 * is cached under the wallet for the polling endpoint. Every outcome is
 * answered with HTTP 200.
 */
module VerifySelf {
  import opened Wrappers
  import Js
  import opened Requests

  /** The disclosed fields of a verification (`discloseOutput`). */
  datatype Disclosure = Disclosure(dateOfBirth: Option<string>, name: Option<string>, nationality: Option<string>)

  /** `result.isValidDetails` and `result.discloseOutput`. */
  datatype VerifierResult = VerifierResult(isValid: bool, isMinimumAgeValid: bool, disclose: Option<Disclosure>)

  /** What `selfBackendVerifier.verify(...)` did: returned a result, or threw. */
  datatype VerifierOutcome = Returned(result: VerifierResult) | Threw(error: Js.Value)

  /** A `verificationCache` entry. */
  datatype CacheEntry = CacheEntry(verified: bool, dateOfBirth: string, name: string, nationality: string, timestamp: int)

  datatype PostBody =
    | PostFailed(reason: string)
    | PostSucceeded(dateOfBirth: Option<string>, name: string, nationality: string)

  datatype PostResponse = PostResponse(httpStatus: int, body: PostBody)

  const VerificationFailed := "Verification failed - User does not meet requirements"

  // ---------------------------------------------------------------------------
  // Date of birth

  /** The century prefix for a two-character year: "19" when `parseInt(yy) >= 50`, else "20" (NaN included). */
  function Century(yy: string): (c: string)
    ensures c == "19" || c == "20"
  {
    var n := Js.ParseInt(yy);
    if n.Some? && n.value >= 50 then "19" else "20"
  }

  /** `YYMMDD` to `YYYY-MM-DD`; anything absent or not six characters long gives undefined. */
  function ReformatDob(raw: Option<string>): (r: Option<string>)
    ensures r.Some? <==> raw.Some? && |raw.value| == 6
    ensures r.Some? ==> |r.value| == 10 && r.value[4] == '-' && r.value[7] == '-'
                        && r.value[2..4] + r.value[5..7] + r.value[8..10] == raw.value
  {
    if raw.Some? && raw.value != "" && |raw.value| == 6 then
      var s := raw.value;
      var yy, mm, dd := s[0..2], s[2..4], s[4..6];
      DobLayout(Century(yy), s);
      Some(Century(yy) + yy + "-" + mm + "-" + dd)
    else None
  }

  /** Where the pieces of a six-character date land once the century and the dashes are added. */
  lemma DobLayout(c: string, s: string)
    requires |c| == 2 && |s| == 6
    ensures var r := c + s[0..2] + "-" + s[2..4] + "-" + s[4..6];
            |r| == 10 && r[4] == '-' && r[7] == '-' && r[2..4] + r[5..7] + r[8..10] == s
  {
    var r := c + s[0..2] + "-" + s[2..4] + "-" + s[4..6];
    assert r[2..4] == s[0..2] && r[5..7] == s[2..4] && r[8..10] == s[4..6];
    assert s[0..2] + s[2..4] + s[4..6] == s;
  }

  /** A two-digit year is read by `parseInt` as its decimal value. */
  lemma TwoDigitYear(yy: string)
    requires |yy| == 2 && Js.IsDigit(yy[0]) && Js.IsDigit(yy[1])
    ensures Js.ParseInt(yy) == Some(10 * Js.DigitOf(yy[0]) + Js.DigitOf(yy[1]))
  {
    assert !Js.IsSpace(yy[0]);
    assert Js.TrimStart(yy) == yy;
    assert Js.DigitPrefixLength(yy[1..]) == 1;
    assert Js.DigitPrefixLength(yy) == 2;
    assert yy[..2] == yy;
    assert Js.DigitsValue(yy[..1]) == Js.DigitOf(yy[0]);
  }

  /**
   * For a digit year the pivot is at 50: "50".."99" land in the 1900s and
   * "00".."49" in the 2000s.
   */
  lemma CenturyPivot(s: string)
    requires |s| == 6 && Js.IsDigit(s[0]) && Js.IsDigit(s[1])
    ensures ReformatDob(Some(s)).Some?
    ensures ReformatDob(Some(s)).value[..2] == if 10 * Js.DigitOf(s[0]) + Js.DigitOf(s[1]) >= 50 then "19" else "20"
  {
    TwoDigitYear(s[0..2]);
  }

  // ---------------------------------------------------------------------------
  // Wallet address

  /** `('0x' + userContextData.slice(64).slice(24, 64)).toLowerCase()` */
  function WalletOf(userContextData: string): (w: string)
    ensures 2 <= |w| <= 42 && w[..2] == "0x"
  {
    Js.ToLower("0x" + Js.Slice(Js.SliceFrom(userContextData, 64), 24, 64))
  }

  /**
   * The wallet is "0x" followed by characters 88 to 128 of the context data,
   * lowercased; on shorter data `slice` clamps, so only what is there is taken.
   */
  lemma WalletIsFixedWindow(d: string)
    ensures var lo, hi := if |d| < 88 then |d| else 88, if |d| < 128 then |d| else 128;
            WalletOf(d) == "0x" + Js.ToLower(d[lo..hi])
    ensures |d| >= 128 ==> |WalletOf(d)| == 42
  {
    var lo, hi := if |d| < 88 then |d| else 88, if |d| < 128 then |d| else 128;
    var tail := Js.SliceFrom(d, 64);
    var w := Js.Slice(tail, 24, 64);
    if |d| >= 64 {
      assert tail == d[64..];
      assert w == d[lo..hi];
    } else {
      assert w == "" && d[lo..hi] == "";
    }
    var x := "0x" + w;
    assert Js.ToLower(x) == "0x" + Js.ToLower(w);
  }

  /** The cache key is already lower case, so lower-casing a lookup key that matches it changes nothing. */
  lemma WalletIsLowerCase(d: string)
    ensures Js.ToLower(WalletOf(d)) == WalletOf(d)
  {
    Js.ToLowerIdempotent("0x" + Js.Slice(Js.SliceFrom(d, 64), 24, 64));
  }

  // ---------------------------------------------------------------------------
  // The handler

  /** `error instanceof Error ? error.message : 'Unknown error'` */
  function Reason(error: Js.Value): (r: string)
    ensures error.ErrorObj? ==> r == error.message
    ensures !error.ErrorObj? ==> r == "Unknown error"
  {
    if error.ErrorObj? then error.message else "Unknown error"
  }

  /** `x || ''` on an optional disclosed string. */
  function OrEmpty(x: Option<string>): (r: string)
    ensures x.Some? ==> r == x.value
    ensures x.None? ==> r == ""
  {
    if x.Some? && x.value != "" then x.value else ""
  }

  function DisclosedDob(r: VerifierResult): Option<string> {
    if r.disclose.Some? then r.disclose.value.dateOfBirth else None
  }

  function DisclosedName(r: VerifierResult): string {
    if r.disclose.Some? then OrEmpty(r.disclose.value.name) else ""
  }

  function DisclosedNationality(r: VerifierResult): string {
    if r.disclose.Some? then OrEmpty(r.disclose.value.nationality) else ""
  }

  /** The verification passed both of the verifier's checks. */
  predicate Accepted(body: Body, verifier: VerifierOutcome) {
    Readable(body) && verifier.Returned? && verifier.result.isValid && verifier.result.isMinimumAgeValid
  }

  /** The JSON answer of the handler. */
  function PostOutcome(body: Body, verifier: VerifierOutcome): (r: PostResponse)
    ensures r.httpStatus == 200
    ensures r.body.PostSucceeded? <==> Accepted(body, verifier)
    ensures r.body.PostSucceeded? ==> && r.body.dateOfBirth == ReformatDob(DisclosedDob(verifier.result))
                                      && r.body.name == DisclosedName(verifier.result)
                                      && r.body.nationality == DisclosedNationality(verifier.result)
    ensures !Readable(body) ==> r.body == PostFailed(Reason(ReadError(body)))
    ensures Readable(body) && verifier.Threw? ==> r.body == PostFailed(Reason(verifier.error))
    ensures Readable(body) && verifier.Returned? && !(verifier.result.isValid && verifier.result.isMinimumAgeValid) ==>
              r.body == PostFailed(VerificationFailed)
  {
    if !Readable(body) then PostResponse(200, PostFailed(Reason(ReadError(body))))
    else if verifier.Threw? then PostResponse(200, PostFailed(Reason(verifier.error)))
    else if !verifier.result.isValid || !verifier.result.isMinimumAgeValid then PostResponse(200, PostFailed(VerificationFailed))
    else
      var r := verifier.result;
      PostResponse(200, PostSucceeded(ReformatDob(DisclosedDob(r)), DisclosedName(r), DisclosedNationality(r)))
  }

  /**
   * The cache write the handler performs, if any: only an accepted
   * verification whose `userContextData` is a string (on anything else `slice`
   * throws and the wallet stays null) is cached, under the extracted wallet.
   */
  function CacheWrite(body: Body, verifier: VerifierOutcome, now: int): (w: Option<(string, CacheEntry)>)
    ensures w.Some? <==> Accepted(body, verifier) && Field(body, "userContextData").Str?
    ensures w.Some? ==> w.value.0 == WalletOf(Field(body, "userContextData").s)
                        && w.value.1 == CacheEntry(true, ReformatDob(DisclosedDob(verifier.result)).GetOr(""),
                                                   DisclosedName(verifier.result), DisclosedNationality(verifier.result), now)
  {
    if Accepted(body, verifier) && Field(body, "userContextData").Str? then
      var r := verifier.result;
      var dob := ReformatDob(DisclosedDob(r));
      Some((WalletOf(Field(body, "userContextData").s),
            CacheEntry(true, if dob.Some? then dob.value else "", DisclosedName(r), DisclosedNationality(r), now)))
    else None
  }

  /**
   * The cached entry carries what the response reports: the reformatted date
   * of birth (or '' when there is none), the name and the nationality.
   */
  lemma CachedEntryMatchesResponse(body: Body, verifier: VerifierOutcome, now: int)
    requires CacheWrite(body, verifier, now).Some?
    ensures var e, b := CacheWrite(body, verifier, now).value.1, PostOutcome(body, verifier).body;
            && b.PostSucceeded?
            && e.dateOfBirth == b.dateOfBirth.GetOr("")
            && e.name == b.name && e.nationality == b.nationality
  {
  }

  /** The process-wide `verificationCache` Map. */
  class VerificationCache {
    var entries: map<string, CacheEntry>

    constructor ()
      ensures entries == map[]
    {
      entries := map[];
    }

    /** The POST handler: a successful verification overwrites only its wallet's entry. */
    method Post(body: Body, verifier: VerifierOutcome, now: int) returns (r: PostResponse)
      modifies this
      ensures r == PostOutcome(body, verifier)
      ensures CacheWrite(body, verifier, now).None? ==> entries == old(entries)
      ensures CacheWrite(body, verifier, now).Some? ==>
                entries == old(entries)[CacheWrite(body, verifier, now).value.0 := CacheWrite(body, verifier, now).value.1]
    {
      r := PostOutcome(body, verifier);
      var w := CacheWrite(body, verifier, now);
      if w.Some? {
        entries := entries[w.value.0 := w.value.1];
      }
    }
  }
}
