/**
 * app/core/security.py: building and signing an access token. The clock is an input (now, in
 * microseconds since the epoch, UTC) and JWT encoding with HMAC-SHA256 (section 3.2 of RFC 7518)
 * is an input function; the model is the payload handed to it and the key and algorithm used.
 */
module Security {

  import opened Wrappers
  import opened PyDict
  import Config

  const Algorithm := "HS256"

  /** The lifetime used when the caller passes no delta, or a zero one. */
  const DefaultLifetime := 15 * Config.MicrosPerMinute

  /** A payload entry: a value copied from the caller's data, or the expiry instant "exp"
      (section 4.1.4 of RFC 7519). */
  datatype Claim = Data(value: PyValue) | Expiry(at: int)

  /** data.copy(), as claims. */
  function CopyData(data: Dict<PyValue>): (claims: Dict<Claim>)
    ensures Keys(claims) == Keys(data)
    ensures forall i :: 0 <= i < |data| ==> claims[i] == (data[i].0, Data(data[i].1))
  {
    seq(|data|, i requires 0 <= i < |data| => (data[i].0, Data(data[i].1)))
  }

  /** A timedelta is falsy exactly when it is zero; None falls back to the default too. */
  function ExpiryTime(now: int, expiresDelta: Option<int>): (at: int)
    ensures expiresDelta.Some? && expiresDelta.value != 0 ==> at == now + expiresDelta.value
    ensures expiresDelta.None? || expiresDelta == Some(0) ==> at == now + 15 * 60 * 1000000
  {
    if expiresDelta.Some? && expiresDelta.value != 0 then now + expiresDelta.value else now + DefaultLifetime
  }

  /** to_encode after update({"exp": expire}). */
  function Payload(data: Dict<PyValue>, now: int, expiresDelta: Option<int>): Dict<Claim> {
    Put(CopyData(data), "exp", Expiry(ExpiryTime(now, expiresDelta)))
  }

  /** create_access_token(data, expires_delta). */
  function CreateAccessToken(settings: Config.Settings, data: Dict<PyValue>, expiresDelta: Option<int>, now: int,
                             encode: (Dict<Claim>, string, string) -> string): (token: string)
    ensures token == encode(Payload(data, now, expiresDelta), settings.secretKey, "HS256")
  {
    encode(Payload(data, now, expiresDelta), settings.secretKey, Algorithm)
  }

  /** The payload carries exactly one "exp", the computed expiry, overriding any "exp" in data;
      every other entry of data is copied unchanged and no other key is added. */
  lemma PayloadClaims(data: Dict<PyValue>, now: int, expiresDelta: Option<int>, key: string)
    requires UniqueKeys(data)
    ensures var payload := Payload(data, now, expiresDelta);
      && UniqueKeys(payload)
      && Get(payload, "exp") == Some(Expiry(ExpiryTime(now, expiresDelta)))
      && (key != "exp" ==> Get(payload, key) == if key in Keys(data) then Some(Data(Get(data, key).value)) else None)
      && Keys(payload) == if "exp" in Keys(data) then Keys(data) else Keys(data) + ["exp"]
  {
    var copy := CopyData(data);
    assert UniqueKeys(copy) by { assert Keys(copy) == Keys(data); }
    PutKeys(copy, "exp", Expiry(ExpiryTime(now, expiresDelta)));
    GetPut(copy, "exp", Expiry(ExpiryTime(now, expiresDelta)), "exp");
    GetPut(copy, "exp", Expiry(ExpiryTime(now, expiresDelta)), key);
    if key in Keys(data) {
      var i :| 0 <= i < |data| && data[i].0 == key;
      GetUnique(data, i);
      GetUnique(copy, i);
    }
  }
}
