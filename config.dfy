/**
 * Settings of app/core/config.py: the defaults and the derived connection URLs.
 * Loading values from the environment and the .env file is not part of this model; a Settings
 * value is whatever that loading produced.
 */
module Config {

  import opened Text

  datatype Settings = Settings(
    llmBaseUrl: string,
    llmModelName: string,
    dbUser: string,
    dbPassword: string,
    dbHost: string,
    dbPort: int,
    dbName: string,
    milvusHost: string,
    milvusPort: int,
    collectionName: string,
    embeddingModelName: string,
    minioEndpoint: string,
    minioAccessKey: string,
    minioSecretKey: string,
    minioBucketName: string,
    minioSecure: bool,
    secretKey: string,
    accessTokenExpireMinutes: int,
    redisHost: string,
    redisPort: int,
    redisDb: int,
    cacheTtl: int,
    esHost: string,
    esPort: int,
    esIndex: string)

  /** The class-level defaults of Settings. */
  const Defaults := Settings(
    llmBaseUrl := "https://api.deepseek.com",
    llmModelName := "deepseek-chat",
    dbUser := "rag_user",
    dbPassword := "rag_password",
    dbHost := "rag_mysql",
    dbPort := 3306,
    dbName := "rag_db",
    milvusHost := "milvus-standalone",
    milvusPort := 19530,
    collectionName := "rag_collection",
    embeddingModelName := "/app/models/bge-base-zh-v1.5",
    minioEndpoint := "milvus-minio:9002",
    minioAccessKey := "minioadmin",
    minioSecretKey := "minioadmin",
    minioBucketName := "rag-documents",
    minioSecure := false,
    secretKey := "your-secret-key-here",
    accessTokenExpireMinutes := 60 * 24 * 7,
    redisHost := "rag_redis",
    redisPort := 6379,
    redisDb := 0,
    cacheTtl := 3600,
    esHost := "rag_elasticsearch",
    esPort := 9200,
    esIndex := "rag_documents")

  /** Microseconds, the resolution of a Python timedelta; durations elsewhere in the model use it. */
  const MicrosPerSecond := 1000000
  const MicrosPerMinute := 60 * MicrosPerSecond

  /** "scheme://host:port", the shape of MILVUS_URI and ES_URL. */
  function HostPortUrl(scheme: string, host: string, port: int): string {
    scheme + "://" + host + ":" + IntToDecimal(port)
  }

  function DatabaseUrl(s: Settings): (url: string)
    ensures StartsWith(url, "mysql+pymysql://")
  {
    "mysql+pymysql://" + s.dbUser + ":" + s.dbPassword + "@" + s.dbHost + ":" + IntToDecimal(s.dbPort) + "/" + s.dbName
  }

  function MilvusUri(s: Settings): string {
    HostPortUrl("http", s.milvusHost, s.milvusPort)
  }

  function RedisUrl(s: Settings): string {
    HostPortUrl("redis", s.redisHost, s.redisPort) + "/" + IntToDecimal(s.redisDb)
  }

  function EsUrl(s: Settings): string {
    HostPortUrl("http", s.esHost, s.esPort)
  }

  /** ACCESS_TOKEN_EXPIRE_DELTA, a timedelta of ACCESS_TOKEN_EXPIRE_MINUTES minutes, in microseconds. */
  function AccessTokenExpireDelta(s: Settings): (micros: int)
    ensures micros / MicrosPerMinute == s.accessTokenExpireMinutes && micros % MicrosPerMinute == 0
  {
    s.accessTokenExpireMinutes * MicrosPerMinute
  }

  /** Reading a host:port URL back: the text after the last ':' is the port, before it the host
      (for a host without ':'). So two settings that differ in host or port give different URLs. */
  lemma {:induction false} HostPortUrlDetermines(scheme: string, h1: string, p1: int, h2: string, p2: int)
    requires ':' !in h1 && ':' !in h2
    ensures HostPortUrl(scheme, h1, p1) == HostPortUrl(scheme, h2, p2) <==> h1 == h2 && p1 == p2
  {
    var u1, u2 := HostPortUrl(scheme, h1, p1), HostPortUrl(scheme, h2, p2);
    var pre := scheme + "://";
    var d1, d2 := IntToDecimal(p1), IntToDecimal(p2);
    if u1 == u2 {
      NoColonInDecimal(p1);
      NoColonInDecimal(p2);
      assert u1 == pre + (h1 + ":" + d1);
      assert u2 == pre + (h2 + ":" + d2);
      assert h1 + ":" + d1 == u1[|pre|..] == h2 + ":" + d2;
      SplitAtSeparator(':', h1, d1, h2, d2);
      IntToDecimalInjective(p1, p2);
    }
  }

  lemma NoColonInDecimal(i: int)
    ensures ':' !in IntToDecimal(i)
  {
    var r := NatToDecimal(if i < 0 then -i else i);
    assert forall k :: 0 <= k < |r| ==> r[k] != ':';
  }

  function FirstIndexOf(s: string, c: char): (i: nat)
    ensures i <= |s|
  {
    if s == [] || s[0] == c then 0 else 1 + FirstIndexOf(s[1..], c)
  }

  lemma {:induction false} FirstIndexOfSeparator(a: string, c: char, b: string)
    requires c !in a
    ensures FirstIndexOf(a + [c] + b, c) == |a|
  {
    if a != [] {
      assert (a + [c] + b)[1..] == a[1..] + [c] + b;
      FirstIndexOfSeparator(a[1..], c, b);
    }
  }

  /** A string split at the first occurrence of a separator absent from its first part. */
  lemma SplitAtSeparator(c: char, a1: string, b1: string, a2: string, b2: string)
    requires c !in a1 && c !in a2
    requires a1 + [c] + b1 == a2 + [c] + b2
    ensures a1 == a2 && b1 == b2
  {
    var s := a1 + [c] + b1;
    FirstIndexOfSeparator(a1, c, b1);
    FirstIndexOfSeparator(a2, c, b2);
    assert a1 == s[..|a1|];
    assert a2 == s[..|a2|];
    assert b1 == s[|a1| + 1..];
  }

  lemma NoSlashInDecimal(i: int)
    ensures '/' !in IntToDecimal(i)
  {
    var r := NatToDecimal(if i < 0 then -i else i);
    assert forall k :: 0 <= k < |r| ==> r[k] != '/';
  }

  /** DATABASE_URL after its scheme, nested from the right. */
  lemma DatabaseUrlTail(s: Settings)
    ensures DatabaseUrl(s) == "mysql+pymysql://" + (s.dbUser + [':'] + (s.dbPassword + ['@'] +
      (s.dbHost + [':'] + (IntToDecimal(s.dbPort) + ['/'] + s.dbName))))
  {
  }

  /** DATABASE_URL determines the user, password, host, port and database name, when the user
      and the host hold no ':' and the password no '@' (the characters that end each part). */
  lemma DatabaseUrlDetermines(s1: Settings, s2: Settings)
    requires ':' !in s1.dbUser && ':' !in s2.dbUser && ':' !in s1.dbHost && ':' !in s2.dbHost
    requires '@' !in s1.dbPassword && '@' !in s2.dbPassword
    ensures DatabaseUrl(s1) == DatabaseUrl(s2) <==>
      s1.dbUser == s2.dbUser && s1.dbPassword == s2.dbPassword && s1.dbHost == s2.dbHost &&
      s1.dbPort == s2.dbPort && s1.dbName == s2.dbName
  {
    if DatabaseUrl(s1) == DatabaseUrl(s2) {
      var pre := "mysql+pymysql://";
      var d1, d2 := IntToDecimal(s1.dbPort), IntToDecimal(s2.dbPort);
      var t3a, t3b := d1 + ['/'] + s1.dbName, d2 + ['/'] + s2.dbName;
      var t2a, t2b := s1.dbHost + [':'] + t3a, s2.dbHost + [':'] + t3b;
      var t1a, t1b := s1.dbPassword + ['@'] + t2a, s2.dbPassword + ['@'] + t2b;
      var ta, tb := s1.dbUser + [':'] + t1a, s2.dbUser + [':'] + t1b;
      DatabaseUrlTail(s1);
      DatabaseUrlTail(s2);
      assert ta == DatabaseUrl(s1)[|pre|..] == tb;
      SplitAtSeparator(':', s1.dbUser, t1a, s2.dbUser, t1b);
      SplitAtSeparator('@', s1.dbPassword, t2a, s2.dbPassword, t2b);
      SplitAtSeparator(':', s1.dbHost, t3a, s2.dbHost, t3b);
      NoSlashInDecimal(s1.dbPort);
      NoSlashInDecimal(s2.dbPort);
      SplitAtSeparator('/', d1, s1.dbName, d2, s2.dbName);
      IntToDecimalInjective(s1.dbPort, s2.dbPort);
    }
  }

  /** The default URLs spelled out. */
  lemma DefaultDatabaseUrl()
    ensures DatabaseUrl(Defaults) == "mysql+pymysql://" + "rag_user" + ":" + "rag_password" + "@" + "rag_mysql" + ":" + "3306" + "/" + "rag_db"
  {
    assert NatToDecimal(3) == "3";
    assert NatToDecimal(33) == "33";
    assert NatToDecimal(330) == "330";
    assert NatToDecimal(3306) == "3306";
  }

  lemma DefaultMilvusUri()
    ensures MilvusUri(Defaults) == "http" + "://" + "milvus-standalone" + ":" + "19530"
  {
    assert NatToDecimal(1) == "1";
    assert NatToDecimal(19) == "19";
    assert NatToDecimal(195) == "195";
    assert NatToDecimal(1953) == "1953";
    assert NatToDecimal(19530) == "19530";
  }

  lemma DefaultRedisUrl()
    ensures RedisUrl(Defaults) == "redis" + "://" + "rag_redis" + ":" + "6379" + "/" + "0"
  {
    assert NatToDecimal(0) == "0";
    assert NatToDecimal(6) == "6";
    assert NatToDecimal(63) == "63";
    assert NatToDecimal(637) == "637";
    assert NatToDecimal(6379) == "6379";
  }

  lemma DefaultEsUrl()
    ensures EsUrl(Defaults) == "http" + "://" + "rag_elasticsearch" + ":" + "9200"
  {
    assert NatToDecimal(9) == "9";
    assert NatToDecimal(92) == "92";
    assert NatToDecimal(920) == "920";
    assert NatToDecimal(9200) == "9200";
  }

  lemma DefaultDurations()
    ensures AccessTokenExpireDelta(Defaults) == 10080 * MicrosPerMinute
    ensures Defaults.cacheTtl == 3600
  {
  }
}
