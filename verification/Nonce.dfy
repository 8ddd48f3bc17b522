/** Validation of the challenge a request carries. */
module Nonce {
  import opened Wrappers
  import opened Text
  import opened Codec

  const MAX_QUALIFYING_DATA_LEN := 64

  /** `normalize_nonce`: the canonical text and the length in bytes. */
  function NormalizeNonce(nonce: string): Result<(string, nat), Error> {
    var trimmed := Trim(nonce);
    if trimmed == [] then Err(InvalidInput)
    else if |trimmed| % 2 != 0 then Err(InvalidInput)
    else
      match FromHex(trimmed)
      case None => Err(InvalidInput)
      case Some(bytes) =>
        if bytes == [] then Err(InvalidInput)
        else if |bytes| > MAX_QUALIFYING_DATA_LEN then Err(InvalidInput)
        else Ok((ToHex(bytes), |bytes|))
  }

  /** The challenges the service takes: 1 to 64 bytes of hexadecimal, framed by white space. */
  predicate Usable(nonce: string) {
    var t := Trim(nonce);
    AllHex(t) && |t| % 2 == 0 && 2 <= |t| <= 2 * MAX_QUALIFYING_DATA_LEN
  }

  /** The texts `normalize_nonce` hands out: usable, unframed and in lower case. */
  predicate Canonical(nonce: string) {
    && AllHex(nonce) && |nonce| % 2 == 0 && 2 <= |nonce| <= 2 * MAX_QUALIFYING_DATA_LEN
    && Lower(nonce) == nonce
  }

  /** Exactly the usable challenges are accepted, and their bytes are kept. */
  lemma AcceptedExactly(nonce: string)
    ensures NormalizeNonce(nonce).Ok? <==> Usable(nonce)
    ensures NormalizeNonce(nonce).Err? ==> NormalizeNonce(nonce).error == InvalidInput
    ensures NormalizeNonce(nonce).Ok? ==>
      var (text, size) := NormalizeNonce(nonce).value;
      && FromHex(text) == FromHex(Trim(nonce)) && FromHex(text).Some? && size == |FromHex(text).value|
      && text == Lower(Trim(nonce)) && Canonical(text)
  {
    if Usable(nonce) {
      var t := Trim(nonce);
      FromHexOfToHex(FromHex(t).value);
      HexTextOf(FromHex(t).value);
      ToHexOfFromHex(t);
    }
  }

  /** The repeated validations in handler, backend and quote neither fail nor change anything. */
  lemma CanonicalIsFixed(nonce: string)
    requires Canonical(nonce)
    ensures FromHex(nonce).Some? && 1 <= |FromHex(nonce).value| <= MAX_QUALIFYING_DATA_LEN
    ensures NormalizeNonce(nonce) == Ok((nonce, |FromHex(nonce).value|)) && Lower(nonce) == nonce
  {
    var b := FromHex(nonce).value;
    ToHexOfFromHex(nonce);
    HexTextOf(b);
    TrimOfTrimmed(nonce);
    FromHexOfToHex(b);
  }

  lemma NormalizeIdempotent(nonce: string)
    requires NormalizeNonce(nonce).Ok?
    ensures NormalizeNonce(NormalizeNonce(nonce).value.0) == NormalizeNonce(nonce)
  {
    AcceptedExactly(nonce);
    CanonicalIsFixed(NormalizeNonce(nonce).value.0);
  }

  /** `QuoteTpmRequest::resolved_nonce`; `challenge` is an alias of `nonce`. */
  function ResolvedNonce(nonce: Option<string>, challenge: Option<string>): Result<string, Error> {
    if nonce.Some? && challenge.Some? && Lower(Trim(nonce.value)) != Lower(Trim(challenge.value)) then
      Err(InvalidInput)
    else if nonce.None? && challenge.None? then Err(InvalidInput)
    else
      match NormalizeNonce(if nonce.Some? then nonce.value else challenge.value)
      case Err(e) => Err(e)
      case Ok(parts) => Ok(parts.0)
  }

  lemma HexIgnoresCase(a: string, b: string)
    requires Lower(a) == Lower(b) && AllHex(a)
    ensures AllHex(b) && |a| == |b|
  {
    forall i | 0 <= i < |b| ensures HexValue(b[i]).Some? {
      assert HexValue(a[i]).Some? && Lower(a)[i] == Lower(b)[i];
    }
  }

  /** Texts that agree up to case and framing are the same challenge, or none of them is one. */
  lemma NormalizeIgnoresCase(a: string, b: string)
    requires Lower(Trim(a)) == Lower(Trim(b))
    ensures NormalizeNonce(a) == NormalizeNonce(b)
  {
    AcceptedExactly(a);
    AcceptedExactly(b);
    if AllHex(Trim(a)) {
      HexIgnoresCase(Trim(a), Trim(b));
    } else if AllHex(Trim(b)) {
      HexIgnoresCase(Trim(b), Trim(a));
    }
  }

  /**
   * A resolved challenge is usable, canonical, and the same whichever of the two fields is read;
   * a request is refused exactly when the fields disagree, are both absent, or are unusable.
   */
  lemma AliasesAgree(nonce: Option<string>, challenge: Option<string>)
    ensures ResolvedNonce(nonce, challenge).Ok? <==>
      && (nonce.Some? || challenge.Some?)
      && (nonce.Some? ==> Usable(nonce.value))
      && (challenge.Some? ==> Usable(challenge.value))
      && (nonce.Some? && challenge.Some? ==> Lower(Trim(nonce.value)) == Lower(Trim(challenge.value)))
    ensures ResolvedNonce(nonce, challenge).Ok? ==>
      var text := ResolvedNonce(nonce, challenge).value;
      && Canonical(text)
      && (nonce.Some? ==> NormalizeNonce(nonce.value) == Ok((text, |FromHex(text).value|)))
      && (challenge.Some? ==> NormalizeNonce(challenge.value) == Ok((text, |FromHex(text).value|)))
  {
    if nonce.Some? {
      AcceptedExactly(nonce.value);
    }
    if challenge.Some? {
      AcceptedExactly(challenge.value);
    }
    if nonce.Some? && challenge.Some? && Lower(Trim(nonce.value)) == Lower(Trim(challenge.value)) {
      NormalizeIgnoresCase(nonce.value, challenge.value);
    }
  }
}
