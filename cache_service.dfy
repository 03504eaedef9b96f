/**
 * The answer cache of app/services/cache_service.py: a Redis store keyed by
 * "rag_cache:" + the MD5 hex digest (RFC 1321) of the question's UTF-8 bytes, holding the JSON
 * object {"answer": ..., "sources": [...]} with a time to live.
 *
 * MD5 itself is a parameter (any function from bytes to a 16-byte digest). Redis is modelled as a
 * map from key to entry with an expiry instant; the clock is an integer number of seconds.
 */
module CacheService {

  import opened Wrappers
  import opened Text
  import Utf8
  import opened PyDict

  type Byte = Utf8.Byte

  /** An MD5 digest: 128 bits as 16 bytes. */
  type Digest = d: seq<Byte> | |d| == 16 witness seq(16, i => 0)

  const KeyPrefix := "rag_cache:"

  const HexDigits := "0123456789abcdef"

  function HexByte(b: Byte): string {
    [HexDigits[b / 16], HexDigits[b % 16]]
  }

  /** hexdigest(): two lower-case hex characters per byte, high nibble first. */
  function HexDigest(d: seq<Byte>): (h: string)
    ensures |h| == 2 * |d|
  {
    if d == [] then "" else HexByte(d[0]) + HexDigest(d[1..])
  }

  function HexValue(c: char): nat {
    if '0' <= c <= '9' then (c as int) - ('0' as int)
    else if 'a' <= c <= 'f' then (c as int) - ('a' as int) + 10
    else 0
  }

  /** Reads a hex digest back into bytes. */
  function Unhex(h: string): seq<Byte>
    decreases |h|
  {
    if |h| < 2 then [] else [(16 * HexValue(h[0]) + HexValue(h[1])) % 256] + Unhex(h[2..])
  }

  /** The hex digest determines the digest: Unhex undoes HexDigest. */
  lemma {:induction false} UnhexHexDigest(d: seq<Byte>)
    ensures Unhex(HexDigest(d)) == d
  {
    if d != [] {
      var h := HexDigest(d);
      assert h[2..] == HexDigest(d[1..]);
      HexValueOfDigit(d[0] / 16);
      HexValueOfDigit(d[0] % 16);
      UnhexHexDigest(d[1..]);
    }
  }

  lemma HexValueOfDigit(v: nat)
    requires v < 16
    ensures HexValue(HexDigits[v]) == v
  {
  }

  lemma {:induction false} HexDigestIsHex(d: seq<Byte>)
    ensures forall i :: 0 <= i < |HexDigest(d)| ==> HexDigest(d)[i] in HexDigits
  {
    if d != [] {
      HexDigestIsHex(d[1..]);
      var h := HexDigest(d);
      assert h == HexByte(d[0]) + HexDigest(d[1..]);
      forall i | 0 <= i < |h| ensures h[i] in HexDigits {
        if i >= 2 {
          assert h[i] == HexDigest(d[1..])[i - 2];
        }
      }
    }
  }

  /** generate_cache_key: the exact question, UTF-8 encoded, hashed, hex-encoded and prefixed. */
  function CacheKey(md5: seq<Byte> -> Digest, question: string): string {
    KeyPrefix + HexDigest(md5(Utf8.Encode(question)))
  }

  /** Every key is the prefix followed by 32 lower-case hex characters: 42 characters in all. */
  lemma CacheKeyShape(md5: seq<Byte> -> Digest, question: string)
    ensures var key := CacheKey(md5, question);
      |key| == 42 && StartsWith(key, KeyPrefix) &&
      forall i :: |KeyPrefix| <= i < 42 ==> key[i] in HexDigits
  {
    var key := CacheKey(md5, question);
    var h := HexDigest(md5(Utf8.Encode(question)));
    HexDigestIsHex(md5(Utf8.Encode(question)));
    assert key[..|KeyPrefix|] == KeyPrefix;
    forall i | |KeyPrefix| <= i < 42 ensures key[i] in HexDigits {
      assert key[i] == h[i - |KeyPrefix|];
    }
  }

  /** Two questions share a key exactly when MD5 maps their UTF-8 bytes to the same digest. */
  lemma SameKeyIffSameDigest(md5: seq<Byte> -> Digest, q1: string, q2: string)
    ensures CacheKey(md5, q1) == CacheKey(md5, q2) <==> md5(Utf8.Encode(q1)) == md5(Utf8.Encode(q2))
  {
    var d1, d2 := md5(Utf8.Encode(q1)), md5(Utf8.Encode(q2));
    if CacheKey(md5, q1) == CacheKey(md5, q2) {
      assert HexDigest(d1) == CacheKey(md5, q1)[|KeyPrefix|..];
      assert HexDigest(d2) == CacheKey(md5, q2)[|KeyPrefix|..];
      UnhexHexDigest(d1);
      UnhexHexDigest(d2);
    }
  }

  /** No normalisation: distinct questions (for instance, differing only in letter case) get
      distinct keys unless MD5 collides on their encodings. */
  lemma DistinctQuestionsDistinctKeys(md5: seq<Byte> -> Digest, q1: string, q2: string)
    requires q1 != q2
    requires Utf8.Encode(q1) != Utf8.Encode(q2) ==> md5(Utf8.Encode(q1)) != md5(Utf8.Encode(q2))
    ensures CacheKey(md5, q1) != CacheKey(md5, q2)
  {
    Utf8.EncodeInjective(q1, q2);
    SameKeyIffSameDigest(md5, q1, q2);
  }

  // ---------------------------------------------------------------------------
  // The store.

  /** The decoded JSON value {"answer": answer, "sources": sources}. */
  datatype CachedAnswer = CachedAnswer(answer: string, sources: seq<Dict<PyValue>>)

  /** What a Redis string value can hold for this module: the empty string (falsy, never
      decoded) or the JSON text of a cached answer. */
  datatype StoredValue = EmptyValue | Json(data: CachedAnswer)

  /** A key's value and the instant (in seconds) from which it has expired. */
  datatype Entry = Entry(value: StoredValue, expiresAt: int)

  type Store = map<string, Entry>

  /** The value Redis GET returns: absent keys and expired keys read as nil. */
  function Visible(store: Store, key: string, now: int): Option<StoredValue> {
    if key in store && now < store[key].expiresAt then Some(store[key].value) else None
  }

  /** get_cache's decision on what GET returned: a nil or empty value is a miss. */
  function Lookup(store: Store, key: string, now: int): (r: Option<CachedAnswer>)
    ensures r.Some? <==> key in store && now < store[key].expiresAt && store[key].value.Json?
    ensures r.Some? ==> r.value == store[key].value.data
  {
    match Visible(store, key, now)
    case None => None
    case Some(EmptyValue) => None
    case Some(Json(data)) => Some(data)
  }

  /** SETEX key ttl value. Redis refuses a non-positive expire time (the write raises and nothing changes). */
  function SetEx(store: Store, key: string, ttl: int, value: StoredValue, now: int): Result<Store, string> {
    if ttl <= 0 then Err("invalid expire time in 'setex' command")
    else Ok(store[key := Entry(value, now + ttl)])
  }

  /** A write followed by a read of the same question before the time to live elapses returns what was written. */
  lemma SetThenGet(md5: seq<Byte> -> Digest, store: Store, ttl: int, question: string, answer: string,
                   sources: seq<Dict<PyValue>>, now: int, later: int)
    requires ttl > 0 && now <= later < now + ttl
    ensures var key := CacheKey(md5, question);
      var r := SetEx(store, key, ttl, Json(CachedAnswer(answer, sources)), now);
      r.Ok? && Lookup(r.value, key, later) == Some(CachedAnswer(answer, sources))
  {
  }

  /** ... and once it has elapsed the entry is gone, whatever it held. */
  lemma SetThenExpire(store: Store, key: string, ttl: int, value: StoredValue, now: int, later: int)
    requires ttl > 0 && later >= now + ttl
    ensures SetEx(store, key, ttl, value, now).Ok? && Lookup(SetEx(store, key, ttl, value, now).value, key, later).None?
  {
  }

  /** A write under one key leaves every other key as it was. */
  lemma SetLeavesOtherKeys(store: Store, key: string, other: string, ttl: int, value: StoredValue, now: int, t: int)
    requires other != key
    ensures match SetEx(store, key, ttl, value, now)
      case Ok(s) => Lookup(s, other, t) == Lookup(store, other, t)
      case Err(_) => true
  {
  }

  /** The Redis client, holding the store and the configured MD5 function and CACHE_TTL. */
  class RedisCache {
    var store: Store
    const md5: seq<Byte> -> Digest
    const ttl: int

    constructor (md5: seq<Byte> -> Digest, ttl: int)
      ensures store == map[] && this.md5 == md5 && this.ttl == ttl
    {
      this.store := map[];
      this.md5 := md5;
      this.ttl := ttl;
    }

    /** get_cache(question) at instant now. */
    method GetCache(question: string, now: int) returns (r: Option<CachedAnswer>)
      ensures var key := CacheKey(md5, question);
        r.Some? <==> key in store && now < store[key].expiresAt && store[key].value.Json?
      ensures r.Some? ==> r.value == store[CacheKey(md5, question)].value.data
    {
      var key := CacheKey(md5, question);
      var data := Visible(store, key, now);
      if data.Some? && data.value.Json? {
        r := Some(data.value.data);
      } else {
        r := None;
      }
    }

    /** set_cache(question, answer, sources) at instant now; ok is false when the write raised. */
    method SetCache(question: string, answer: string, sources: seq<Dict<PyValue>>, now: int) returns (ok: bool)
      modifies this`store
      ensures ok <==> ttl > 0
      ensures store == if ok then old(store)[CacheKey(md5, question) := Entry(Json(CachedAnswer(answer, sources)), now + ttl)]
                       else old(store)
    {
      var key := CacheKey(md5, question);
      var written := SetEx(store, key, ttl, Json(CachedAnswer(answer, sources)), now);
      match written {
        case Ok(s) => store := s; ok := true;
        case Err(_) => ok := false;
      }
    }
  }
}
