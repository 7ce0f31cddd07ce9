/** Header names in their two forms: lower case on the wire, canonical as map keys. */
module HeaderNames {

  function LowerChar(c: char): char {
    if 'A' <= c <= 'Z' then (c as int + 32) as char else c
  }

  function UpperChar(c: char): char {
    if 'a' <= c <= 'z' then (c as int - 32) as char else c
  }

  function Lower(s: string): string {
    seq(|s|, i requires 0 <= i < |s| => LowerChar(s[i]))
  }

  /** The characters allowed in a field name (a token of section 5.6.2 of RFC 9110). */
  predicate TokenChar(c: char) {
    || 'a' <= c <= 'z' || 'A' <= c <= 'Z' || '0' <= c <= '9'
    || c in {'!', '#', '$', '%', '&', '\'', '*', '+', '-', '.', '^', '_', '`', '|', '~'}
  }

  predicate Token(s: string) {
    forall i :: 0 <= i < |s| ==> TokenChar(s[i])
  }

  function TitleChar(s: string, i: nat): char
    requires i < |s|
  {
    if i == 0 || s[i-1] == '-' then UpperChar(s[i]) else LowerChar(s[i])
  }

  function Title(s: string): string {
    seq(|s|, i requires 0 <= i < |s| => TitleChar(s, i))
  }

  /** The standard library's CanonicalMIMEHeaderKey: names that are not tokens are left alone. */
  function Canon(s: string): string {
    if Token(s) then Title(s) else s
  }

  lemma LowerKeepsTokens(s: string)
    ensures Token(Lower(s)) <==> Token(s)
  {
    assert forall i :: 0 <= i < |s| ==> (TokenChar(Lower(s)[i]) <==> TokenChar(s[i]));
  }

  lemma TitleIgnoresCase(s: string)
    ensures Title(Lower(s)) == Title(s)
  {
    assert forall i :: 0 <= i < |s| ==> TitleChar(Lower(s), i) == TitleChar(s, i);
  }

  /** A key comes back from the wire unchanged exactly when it is a token in canonical form, or is no
      token and has no upper-case letter. */
  lemma KeySurvivesIff(k: string)
    ensures Canon(Lower(k)) == k <==> if Token(k) then Canon(k) == k else Lower(k) == k
  {
    LowerKeepsTokens(k);
    TitleIgnoresCase(k);
  }

  /** A token that is not canonical comes back changed. */
  lemma LowerCaseTokenChanges()
    ensures Canon(Lower("etag")) == "Etag"
  {
    assert Lower("etag") == "etag" && Token("etag");
    assert Title("etag") == "Etag";
  }

  /** Lower case and canonical form are inverse on canonical names. */
  lemma CanonicalSurvives(k: string)
    requires Token(k) && Canon(k) == k
    ensures Canon(Lower(k)) == k
  {
    KeySurvivesIff(k);
  }

  /** The fast path: a scan for the first upper-case letter, then a copy fixed up from there on. */
  method ToLower(s: string) returns (r: string)
    ensures r == Lower(s)
  {
    for i := 0 to |s|
      invariant forall k :: 0 <= k < i ==> LowerChar(s[k]) == s[k]
    {
      if 'A' <= s[i] <= 'Z' {
        var b := new char[|s|](k requires 0 <= k < |s| => s[k]);
        for j := i to b.Length
          invariant forall k :: 0 <= k < j ==> b[k] == LowerChar(s[k])
          invariant forall k :: j <= k < |s| ==> b[k] == s[k]
        {
          if 'A' <= b[j] <= 'Z' {
            b[j] := (b[j] as int + 32) as char;
          }
        }
        assert b[..] == Lower(s);
        return b[..];
      }
    }
    assert s == Lower(s);
    return s;
  }
}
