/** The canonical check of a PKCE S256 challenge (section 4.2 of RFC 7636). */
module S256Challenge {
  import opened Options
  import opened Base64Url

  /** `\A[A-Za-z0-9_-]{43}\Z` */
  predicate MatchesPattern(challenge: string) {
    |challenge| == 43 && AllUrlSafe(challenge)
  }

  predicate IsValidS256CodeChallenge(challenge: string) {
    MatchesPattern(challenge) &&
    (EncodeAfterDecode(challenge);
     var digest := Decode(challenge);
     digest.Some? && |digest.value| == 32 && Encode(digest.value) == challenge)
  }

  /** `hash` is SHA-256, whose inside is not modelled; it yields 32 bytes. */
  function Sha256Base64Url(hash: string -> seq<byte>, value: string): string {
    Encode(hash(value))
  }

  /** Main result. The check accepts exactly the encodings of 32-byte strings. */
  lemma AcceptsExactlyEncodedDigests(challenge: string)
    ensures IsValidS256CodeChallenge(challenge) <==> exists d: seq<byte> :: |d| == 32 && Encode(d) == challenge
  {
    if IsValidS256CodeChallenge(challenge) {
      EncodeAfterDecode(challenge);
      var d: seq<byte> := Decode(challenge).value;
      assert |d| == 32 && Encode(d) == challenge;
    }
    if d: seq<byte> :| |d| == 32 && Encode(d) == challenge {
      EncodeShape(d);
      DecodeUndoesEncode(d);
    }
  }

  /** Main result. Among the strings of the right shape the accepted ones are those whose two
      unused bits are zero: a check of the last character alone would do. */
  lemma AcceptsExactlyZeroPadBits(challenge: string)
    requires MatchesPattern(challenge)
    ensures IsValidS256CodeChallenge(challenge) <==> Value(challenge[42]) % 4 == 0
  {
    EncodeAfterDecode(challenge);
    var v := Value(challenge[42]);
    var cleared := ClearPadBits(challenge);
    assert cleared[42] == CharOf(v / 4 * 4);
    UrlSafeRoundTrip(challenge[42]);
    assert cleared[..42] == challenge[..42];
    if v % 4 == 0 {
      assert cleared == challenge[..42] + [challenge[42]] == challenge;
    } else {
      assert Value(cleared[42]) != v;
    }
  }

  /** Every challenge the service computes passes, and two verifiers that meet one challenge
      have the same digest. */
  lemma ChallengeStandsForOneDigest(hash: string -> seq<byte>, v: string, w: string)
    requires |hash(v)| == 32
    ensures IsValidS256CodeChallenge(Sha256Base64Url(hash, v))
    ensures Sha256Base64Url(hash, w) == Sha256Base64Url(hash, v) <==> hash(w) == hash(v)
  {
    AcceptsExactlyEncodedDigests(Encode(hash(v)));
    if Encode(hash(w)) == Encode(hash(v)) {
      EncodeIsInjective(hash(w), hash(v));
    }
  }
}
