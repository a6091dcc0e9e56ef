/** The credential unwrapper: the stored password is obfuscated with a
    repeating-key XOR over UTF-16 code units, and the same transform
    recovers it. */
module Credential {
  import opened Values

  /** A JavaScript string as its sequence of UTF-16 code units (`charCodeAt`). */
  type JsString = seq<bv16>

  /** The code units of a string whose characters all lie in the Basic
      Multilingual Plane. */
  function CodeUnits(s: string): (r: JsString)
    requires forall i :: 0 <= i < |s| ==> s[i] as int < 0x1_0000
    ensures |r| == |s|
  {
    seq(|s|, i requires 0 <= i < |s| => s[i] as int as bv16)
  }

  /** The key used when the system configuration carries no secret. */
  const FallbackKey: JsString := CodeUnits("Zgfr56gFe87jJOM")

  /** The key choice: the system secret when it is present and non-empty
      (an empty string is falsy), otherwise the fixed fallback key. */
  function ChooseKey(secret: Option<JsString>): (key: JsString)
    ensures |key| > 0
    ensures secret.Some? && secret.value != [] ==> key == secret.value
    ensures secret.None? || secret.value == [] ==> key == FallbackKey
  {
    if secret.Some? && secret.value != [] then secret.value else FallbackKey
  }

  /** The string `decrypt(key, value)` builds, one code unit per step. */
  function Decrypted(key: JsString, value: JsString): (r: JsString)
    requires |key| > 0
    ensures |r| == |value|
  {
    if value == [] then []
    else
      var n := |value| - 1;
      Decrypted(key, value[..n]) + [key[n % |key|] ^ value[n]]
  }

  /** Each code unit of the result is the matching value code unit XOR the
      key code unit at the same position modulo the key length. */
  lemma {:induction false} DecryptedAt(key: JsString, value: JsString)
    requires |key| > 0
    ensures forall i :: 0 <= i < |value| ==>
      Decrypted(key, value)[i] == key[i % |key|] ^ value[i]
  {
    if value != [] {
      var n := |value| - 1;
      DecryptedAt(key, value[..n]);
      forall i | 0 <= i < |value|
        ensures Decrypted(key, value)[i] == key[i % |key|] ^ value[i]
      {
        if i < n {
          assert Decrypted(key, value)[i] == Decrypted(key, value[..n])[i];
        }
      }
    }
  }

  /** Decrypting twice with the same key gives back the original string, so
      the same routine both obfuscates and recovers a password. */
  lemma {:induction false} DecryptInvolution(key: JsString, value: JsString)
    requires |key| > 0
    ensures Decrypted(key, Decrypted(key, value)) == value
  {
    var once := Decrypted(key, value);
    var twice := Decrypted(key, once);
    DecryptedAt(key, value);
    DecryptedAt(key, once);
    forall i | 0 <= i < |value| ensures twice[i] == value[i] {
      assert twice[i] == key[i % |key|] ^ (key[i % |key|] ^ value[i]);
    }
  }

  /** `decrypt(key, value)`: builds the result in an index loop. */
  method Decrypt(key: JsString, value: JsString) returns (result: JsString)
    requires |key| > 0
    ensures result == Decrypted(key, value)
    ensures |result| == |value|
    ensures forall i :: 0 <= i < |value| ==> result[i] == key[i % |key|] ^ value[i]
  {
    result := [];
    var i := 0;
    while i < |value|
      invariant 0 <= i <= |value|
      invariant result == Decrypted(key, value[..i])
    {
      assert value[..i + 1][..i] == value[..i];
      result := result + [key[i % |key|] ^ value[i]];
      i := i + 1;
    }
    assert value[..i] == value;
    DecryptedAt(key, value);
  }
}
