/** The two name tables every connection starts from, checked entry by entry. */
module HeaderSeeds {

  import opened HeaderNames

  /** A name cache agrees with canonicalisation. */
  ghost predicate CanonCache(cache: map<string, string>) {
    forall k :: k in cache ==> cache[k] == Canon(k)
  }

  /** A name cache agrees with lower-casing. */
  ghost predicate LowerCache(cache: map<string, string>) {
    forall k :: k in cache ==> cache[k] == Lower(k)
  }

  lemma Titled(l: string, c: string)
    requires Token(l) && |l| == |c| && forall i: nat :: i < |l| ==> c[i] == TitleChar(l, i)
    ensures Canon(l) == c
  {
  }

  const CANON_NAMES_1: map<string, string> := map[
    "accept" := "Accept", "accept-encoding" := "Accept-Encoding", "accept-language" := "Accept-Language"]

  lemma CanonNames1()
    ensures CanonCache(CANON_NAMES_1)
  {
    Titled("accept", "Accept");
    Titled("accept-encoding", "Accept-Encoding");
    Titled("accept-language", "Accept-Language");
  }

  const CANON_NAMES_2: map<string, string> := map[
    "authorization" := "Authorization", "cache-control" := "Cache-Control",
    "content-encoding" := "Content-Encoding"]

  lemma CanonNames2()
    ensures CanonCache(CANON_NAMES_2)
  {
    Titled("authorization", "Authorization");
    Titled("cache-control", "Cache-Control");
    Titled("content-encoding", "Content-Encoding");
  }

  const CANON_NAMES_3: map<string, string> := map[
    "content-length" := "Content-Length", "content-type" := "Content-Type", "cookie" := "Cookie"]

  lemma CanonNames3()
    ensures CanonCache(CANON_NAMES_3)
  {
    Titled("content-length", "Content-Length");
    Titled("content-type", "Content-Type");
    Titled("cookie", "Cookie");
  }

  const CANON_NAMES_4: map<string, string> := map[
    "host" := "Host", "if-modified-since" := "If-Modified-Since", "if-none-match" := "If-None-Match"]

  lemma CanonNames4()
    ensures CanonCache(CANON_NAMES_4)
  {
    Titled("host", "Host");
    Titled("if-modified-since", "If-Modified-Since");
    Titled("if-none-match", "If-None-Match");
  }

  const CANON_NAMES_5: map<string, string> := map[
    "origin" := "Origin", "range" := "Range", "referer" := "Referer"]

  lemma CanonNames5()
    ensures CanonCache(CANON_NAMES_5)
  {
    Titled("origin", "Origin");
    Titled("range", "Range");
    Titled("referer", "Referer");
  }

  const CANON_NAMES_6: map<string, string> := map[
    "user-agent" := "User-Agent", "x-forwarded-for" := "X-Forwarded-For",
    "x-forwarded-proto" := "X-Forwarded-Proto"]

  lemma CanonNames6()
    ensures CanonCache(CANON_NAMES_6)
  {
    Titled("user-agent", "User-Agent");
    Titled("x-forwarded-for", "X-Forwarded-For");
    Titled("x-forwarded-proto", "X-Forwarded-Proto");
  }

  const CANON_NAMES_7: map<string, string> := map[
    "x-real-ip" := "X-Real-Ip", "x-request-id" := "X-Request-Id"]

  lemma CanonNames7()
    ensures CanonCache(CANON_NAMES_7)
  {
    Titled("x-real-ip", "X-Real-Ip");
    Titled("x-request-id", "X-Request-Id");
  }

  const LOWER_NAMES_1: map<string, string> := map[
    "Content-Type" := "content-type", "Content-Length" := "content-length",
    "Content-Encoding" := "content-encoding", "Cache-Control" := "cache-control", "Date" := "date",
    "Etag" := "etag", "Expires" := "expires"]

  lemma LowerNames1()
    ensures LowerCache(LOWER_NAMES_1)
  {
    assert Lower("Content-Type") == "content-type";
    assert Lower("Content-Length") == "content-length";
    assert Lower("Content-Encoding") == "content-encoding";
    assert Lower("Cache-Control") == "cache-control";
    assert Lower("Date") == "date";
    assert Lower("Etag") == "etag";
    assert Lower("Expires") == "expires";
  }

  const LOWER_NAMES_2: map<string, string> := map[
    "Last-Modified" := "last-modified", "Location" := "location", "Server" := "server",
    "Set-Cookie" := "set-cookie", "Vary" := "vary", "X-Request-Id" := "x-request-id",
    "X-Content-Type-Options" := "x-content-type-options"]

  lemma LowerNames2()
    ensures LowerCache(LOWER_NAMES_2)
  {
    assert Lower("Last-Modified") == "last-modified";
    assert Lower("Location") == "location";
    assert Lower("Server") == "server";
    assert Lower("Set-Cookie") == "set-cookie";
    assert Lower("Vary") == "vary";
    assert Lower("X-Request-Id") == "x-request-id";
    assert Lower("X-Content-Type-Options") == "x-content-type-options";
  }

  const COMMON_CANON_NAMES :=
    CANON_NAMES_1 + CANON_NAMES_2 + CANON_NAMES_3 + CANON_NAMES_4 + CANON_NAMES_5 + CANON_NAMES_6 +
    CANON_NAMES_7

  const COMMON_LOWER_NAMES := LOWER_NAMES_1 + LOWER_NAMES_2

  /** Every entry of the canonical-name table is what canonicalisation would have computed. */
  lemma CanonSeedsAgree()
    ensures CanonCache(COMMON_CANON_NAMES)
  {
    CanonNames1();
    CanonNames2();
    CanonNames3();
    CanonNames4();
    CanonNames5();
    CanonNames6();
    CanonNames7();
  }

  /** Every entry of the lower-case table is what lower-casing would have computed. */
  lemma LowerSeedsAgree()
    ensures LowerCache(COMMON_LOWER_NAMES)
  {
    LowerNames1();
    LowerNames2();
  }
}
