/** The `X-Pro-Key` header check that guards the private endpoints. */
module Auth {
  import opened Wrappers
  import opened Strings

  datatype HttpError = HttpError(statusCode: int, detail: string)

  const InvalidKey: HttpError := HttpError(401, "Invalid API Key")

  const KeyPrefix: string := "sk_"

  /**
   * Accepts any present, non-empty header that starts with `sk_` and returns the
   * text after its last `_` as the caller's user id. Nothing is looked up: the
   * key is never compared with a stored hash.
   */
  function VerifyKey(header: Option<string>): (r: Result<string, HttpError>)
    ensures r.Failure? <==> header.None? || header.value == [] || !StartsWith(header.value, KeyPrefix)
    ensures r.Failure? ==> r.error == InvalidKey
    ensures r.Success? ==> '_' !in r.value && EndsWith(header.value, r.value)
    ensures r.Success? ==> |r.value| < |header.value| && header.value[|header.value| - |r.value| - 1] == '_'
  {
    if header.None? || header.value == [] || !StartsWith(header.value, KeyPrefix) then Failure(InvalidKey)
    else
      assert header.value[2] == '_';
      Success(LastPiece(header.value, '_'))
  }

  predicate IsHexDigit(c: char) {
    '0' <= c <= '9' || 'a' <= c <= 'f'
  }

  /** A key in the issued format `sk_live_<24 hex digits>` resolves to its hex part. */
  lemma {:induction false} IssuedKeyResolvesToHex(hex: string)
    requires |hex| == 24 && forall i :: 0 <= i < |hex| ==> IsHexDigit(hex[i])
    ensures VerifyKey(Some("sk_live_" + hex)) == Success(hex)
  {
    var key := "sk_live_" + hex;
    assert key[..3] == KeyPrefix;
    assert '_' !in hex;
    var r := VerifyKey(Some(key)).value;
    assert key[|key| - 24 - 1] == '_';
    assert r == key[|key| - 24..] == hex;
  }

  /** The bare prefix is accepted and resolves to the empty user id. */
  lemma BarePrefixResolvesToEmpty()
    ensures VerifyKey(Some(KeyPrefix)) == Success("")
  {
    assert KeyPrefix[|KeyPrefix| - 1] == '_';
  }

  /** Every user id without `_` is reachable: `sk_` followed by the id is accepted as that user. */
  lemma {:induction false} AnyUserIdCanBeClaimed(userId: string)
    requires '_' !in userId
    ensures VerifyKey(Some(KeyPrefix + userId)) == Success(userId)
  {
    var key := KeyPrefix + userId;
    assert key[..3] == KeyPrefix;
    var r := VerifyKey(Some(key)).value;
    var n := |userId|;
    assert key[|key| - n - 1] == '_';
    assert r == key[|key| - n..] == userId;
  }
}
