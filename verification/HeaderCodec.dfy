/** Header maps to header fields and back: the writer's encode loop with its lower-name cache, and the
    reader's emit callback with its canonical-name cache. */
module HeaderCodec {

  import opened HeaderNames
  import opened HeaderSeeds

  type Headers = map<string, seq<string>>

  datatype Field = Field(name: string, value: string)

  /** Connection-specific names (section 8.2.2 of RFC 9113). */
  predicate Forbidden(name: string) {
    || name == "connection" || name == "proxy-connection" || name == "keep-alive"
    || name == "upgrade" || name == "transfer-encoding"
  }

  predicate Pseudo(name: string) {
    name == ":method" || name == ":path" || name == ":authority" || name == ":status" || name == ":scheme"
  }

  // ---- encoding ----------------------------------------------------------------------------------

  function Fields(name: string, values: seq<string>): seq<Field> {
    seq(|values|, i requires 0 <= i < |values| => Field(name, values[i]))
  }

  /** The fields one map entry contributes. */
  function EncodeKey(h: Headers, k: string): seq<Field>
    requires k in h
  {
    if Forbidden(Lower(k)) then [] else Fields(Lower(k), h[k])
  }

  /** The fields of a header map, for one order of its keys. */
  function Encode(order: seq<string>, h: Headers): seq<Field>
    requires forall i :: 0 <= i < |order| ==> order[i] in h
  {
    if order == [] then [] else Encode(order[..|order|-1], h) + EncodeKey(h, order[|order|-1])
  }

  /** order lists the keys of h, each once: an order in which ranging over the map may visit them. */
  ghost predicate Visits(order: seq<string>, h: Headers) {
    && (forall i :: 0 <= i < |order| ==> order[i] in h)
    && (forall i, j :: 0 <= i < j < |order| ==> order[i] != order[j])
    && (forall k :: k in h ==> k in order)
  }

  function EncodeResponse(status: string, order: seq<string>, h: Headers): seq<Field>
    requires forall i :: 0 <= i < |order| ==> order[i] in h
  {
    [Field(":status", status)] + Encode(order, h)
  }

  function RequestPseudo(verb: string, scheme: string, authority: string, path: string): seq<Field> {
    [Field(":method", verb), Field(":scheme", if scheme == "" then "https" else scheme)]
    + (if authority == "" then [] else [Field(":authority", authority)])
    + [Field(":path", path)]
  }

  function EncodeRequest(
    verb: string, scheme: string, authority: string, path: string, order: seq<string>, h: Headers): seq<Field>
    requires forall i :: 0 <= i < |order| ==> order[i] in h
  {
    RequestPseudo(verb, scheme, authority, path) + Encode(order, h)
  }

  // ---- decoding ----------------------------------------------------------------------------------

  /** The per-connection scratch fields a header block is decoded into. */
  datatype Scratch = Scratch(verb: string, path: string, authority: string, status: string, header: Headers)

  const EMPTY := Scratch("", "", "", "", map[])

  function Values(h: Headers, name: string): seq<string> {
    if name in h then h[name] else []
  }

  function Emit(s: Scratch, f: Field): Scratch {
    if f.name == ":method" then s.(verb := f.value)
    else if f.name == ":path" then s.(path := f.value)
    else if f.name == ":authority" then s.(authority := f.value)
    else if f.name == ":status" then s.(status := f.value)
    else if f.name == ":scheme" then s
    else s.(header := s.header[Canon(f.name) := Values(s.header, Canon(f.name)) + [f.value]])
  }

  function EmitAll(s: Scratch, fs: seq<Field>): Scratch {
    if fs == [] then s else Emit(EmitAll(s, fs[..|fs|-1]), fs[|fs|-1])
  }

  // ---- what comes back ---------------------------------------------------------------------------

  lemma {:induction false} EmitConcat(s: Scratch, a: seq<Field>, b: seq<Field>)
    ensures EmitAll(s, a + b) == EmitAll(EmitAll(s, a), b)
  {
    if b == [] {
      assert a + b == a;
    } else {
      EmitConcat(s, a, b[..|b|-1]);
      assert (a + b)[..|a + b|-1] == a + b[..|b|-1];
    }
  }

  /** All values of a name, appended in order to what is already there. */
  function Append(s: Scratch, name: string, values: seq<string>): Scratch {
    if values == [] then s else s.(header := s.header[name := Values(s.header, name) + values])
  }

  lemma AppendTwice(s: Scratch, name: string, a: seq<string>, v: string)
    ensures Append(Append(s, name, a), name, [v]) == Append(s, name, a + [v])
  {
    assert Values(s.header, name) + (a + [v]) == (Values(s.header, name) + a) + [v];
    var h := Append(Append(s, name, a), name, [v]).header;
    assert a != [] ==> h == s.header[name := Values(s.header, name) + a + [v]];
    assert a == [] ==> a + [v] == [v];
  }

  lemma EmitIsAppend(s: Scratch, name: string, v: string)
    requires !Pseudo(name)
    ensures Emit(s, Field(name, v)) == Append(s, Canon(name), [v])
  {
  }

  lemma {:induction false} EmitFields(s: Scratch, name: string, values: seq<string>)
    requires !Pseudo(name)
    ensures EmitAll(s, Fields(name, values)) == Append(s, Canon(name), values)
  {
    if values != [] {
      var init, v := values[..|values|-1], values[|values|-1];
      EmitFields(s, name, init);
      assert Fields(name, values)[..|values|-1] == Fields(name, init);
      EmitIsAppend(EmitAll(s, Fields(name, init)), name, v);
      AppendTwice(s, Canon(name), init, v);
      assert values == init + [v];
    }
  }

  lemma {:induction false} EmitPseudo(s: Scratch, name: string, values: seq<string>)
    requires Pseudo(name)
    ensures EmitAll(s, Fields(name, values)).header == s.header
  {
    if values != [] {
      EmitPseudo(s, name, values[..|values|-1]);
      assert Fields(name, values)[..|values|-1] == Fields(name, values[..|values|-1]);
    }
  }

  /** Keys that reach the far side as regular headers. */
  predicate Passes(k: string) {
    !Forbidden(Lower(k)) && !Pseudo(Lower(k))
  }

  /** The values a map entry adds to the name c on the far side. */
  function Share(h: Headers, k: string, c: string): seq<string>
    requires k in h
  {
    if Passes(k) && Canon(Lower(k)) == c then h[k] else []
  }

  /** What the far side should hold under the name c: the values of every key that lower-cases to a
      regular, permitted name of that canonical form, in visiting order. */
  function Gather(order: seq<string>, h: Headers, c: string): seq<string>
    requires forall i :: 0 <= i < |order| ==> order[i] in h
  {
    if order == [] then [] else Gather(order[..|order|-1], h, c) + Share(h, order[|order|-1], c)
  }

  /** Name c holds its old values followed by added; it is a key only if it was one or gained some. */
  predicate Gains(before: Headers, after: Headers, c: string, added: seq<string>) {
    && Values(after, c) == Values(before, c) + added
    && (c in after <==> c in before || added != [])
  }

  lemma EmitKey(s: Scratch, h: Headers, k: string, c: string)
    requires k in h
    ensures Gains(s.header, EmitAll(s, EncodeKey(h, k)).header, c, Share(h, k, c))
  {
    if !Forbidden(Lower(k)) {
      if Pseudo(Lower(k)) {
        EmitPseudo(s, Lower(k), h[k]);
      } else {
        EmitFields(s, Lower(k), h[k]);
      }
    }
  }

  lemma GainsTwice(a: Headers, b: Headers, c: Headers, name: string, x: seq<string>, y: seq<string>)
    requires Gains(a, b, name, x) && Gains(b, c, name, y)
    ensures Gains(a, c, name, x + y)
  {
    assert Values(a, name) + x + y == Values(a, name) + (x + y);
  }

  /** For every header map, every visiting order and every name: decoding what was encoded yields
      exactly the gathered values, in order, and no other key. */
  lemma {:induction false} DecodeGathers(s: Scratch, order: seq<string>, h: Headers, c: string)
    requires forall i :: 0 <= i < |order| ==> order[i] in h
    ensures Gains(s.header, EmitAll(s, Encode(order, h)).header, c, Gather(order, h, c))
  {
    if order != [] {
      var init, k := order[..|order|-1], order[|order|-1];
      DecodeGathers(s, init, h, c);
      var mid := EmitAll(s, Encode(init, h));
      EmitConcat(s, Encode(init, h), EncodeKey(h, k));
      EmitKey(mid, h, k, c);
      GainsTwice(s.header, mid.header, EmitAll(mid, EncodeKey(h, k)).header, c,
                 Gather(init, h, c), Share(h, k, c));
    }
  }

  lemma EmitOne(s: Scratch, f: Field)
    ensures EmitAll(s, [f]) == Emit(s, f)
  {
    assert [f][..0] == [];
  }

  lemma EmitTwo(s: Scratch, f: Field, g: Field)
    ensures EmitAll(s, [f, g]) == Emit(Emit(s, f), g)
  {
    EmitOne(s, f);
    EmitOne(Emit(s, f), g);
    EmitConcat(s, [f], [g]);
    assert [f] + [g] == [f, g];
  }

  lemma DecodeRequestPseudo(verb: string, scheme: string, authority: string, path: string)
    ensures EmitAll(EMPTY, RequestPseudo(verb, scheme, authority, path)) == Scratch(verb, path, authority, "", map[])
  {
    var a := [Field(":method", verb), Field(":scheme", if scheme == "" then "https" else scheme)];
    var b := if authority == "" then [] else [Field(":authority", authority)];
    var c := [Field(":path", path)];
    EmitConcat(EMPTY, a + b, c);
    EmitConcat(EMPTY, a, b);
    EmitTwo(EMPTY, a[0], a[1]);
    EmitOne(EmitAll(EMPTY, a), Field(":authority", authority));
    EmitOne(EmitAll(EMPTY, a + b), c[0]);
  }

  // ---- pseudo-header fields ----------------------------------------------------------------------

  /** Pseudo-header names that are kept; :scheme is read and dropped. */
  predicate Kept(name: string) {
    name == ":method" || name == ":path" || name == ":authority" || name == ":status"
  }

  function Pick(s: Scratch, name: string): string {
    if name == ":method" then s.verb
    else if name == ":path" then s.path
    else if name == ":authority" then s.authority
    else s.status
  }

  /** What map keys spelt like the pseudo-header, in any case, add to it, in visiting order. */
  function Overrides(order: seq<string>, h: Headers, name: string): seq<string>
    requires forall i :: 0 <= i < |order| ==> order[i] in h
  {
    if order == [] then []
    else
      var k := order[|order|-1];
      Overrides(order[..|order|-1], h, name) + if Lower(k) == name then h[k] else []
  }

  /** The last of the values, or the one before them. */
  function LastOf(values: seq<string>, before: string): string {
    if values == [] then before else values[|values|-1]
  }

  lemma PickAfterEmit(s: Scratch, f: Field, name: string)
    requires Kept(name)
    ensures Pick(Emit(s, f), name) == if f.name == name then f.value else Pick(s, name)
  {
  }

  lemma {:induction false} PickAfterFields(s: Scratch, field: string, values: seq<string>, name: string)
    requires Kept(name)
    ensures Pick(EmitAll(s, Fields(field, values)), name) ==
            LastOf(if field == name then values else [], Pick(s, name))
  {
    if values != [] {
      var init, v := values[..|values|-1], values[|values|-1];
      PickAfterFields(s, field, init, name);
      assert Fields(field, values)[..|values|-1] == Fields(field, init);
      PickAfterEmit(EmitAll(s, Fields(field, init)), Field(field, v), name);
    }
  }

  lemma KeptIsAllowed(name: string)
    requires Kept(name)
    ensures !Forbidden(name)
  {
    assert name[0] == ':';
  }

  lemma PickAfterKey(s: Scratch, h: Headers, k: string, name: string)
    requires k in h && Kept(name)
    ensures Pick(EmitAll(s, EncodeKey(h, k)), name) == LastOf(if Lower(k) == name then h[k] else [], Pick(s, name))
  {
    KeptIsAllowed(name);
    if !Forbidden(Lower(k)) {
      PickAfterFields(s, Lower(k), h[k], name);
    }
  }

  lemma LastOfAppend(a: seq<string>, b: seq<string>, before: string)
    ensures LastOf(a + b, before) == LastOf(b, LastOf(a, before))
  {
  }

  /** For every header map, every visiting order and every pseudo-header: the far side holds the last
      value of the keys spelt like it, or, if there is none, what the pseudo-header fields said. */
  lemma {:induction false} DecodeOverrides(s: Scratch, order: seq<string>, h: Headers, name: string)
    requires Kept(name)
    requires forall i :: 0 <= i < |order| ==> order[i] in h
    ensures Pick(EmitAll(s, Encode(order, h)), name) == LastOf(Overrides(order, h, name), Pick(s, name))
  {
    if order != [] {
      var init, k := order[..|order|-1], order[|order|-1];
      DecodeOverrides(s, init, h, name);
      EmitConcat(s, Encode(init, h), EncodeKey(h, k));
      PickAfterKey(EmitAll(s, Encode(init, h)), h, k, name);
      LastOfAppend(Overrides(init, h, name), if Lower(k) == name then h[k] else [], Pick(s, name));
    }
  }

  /** Some key is spelt like the pseudo-header and has a value. */
  ghost predicate Overridden(h: Headers, name: string) {
    exists k :: k in h && Lower(k) == name && h[k] != []
  }

  lemma {:induction false} OverridesFindKeys(order: seq<string>, h: Headers, name: string)
    requires forall i :: 0 <= i < |order| ==> order[i] in h
    ensures Overrides(order, h, name) != [] <==>
            exists i :: 0 <= i < |order| && Lower(order[i]) == name && h[order[i]] != []
  {
    if order != [] {
      var n := |order| - 1;
      OverridesFindKeys(order[..n], h, name);
      assert order == order[..n] + [order[n]];
    }
  }

  /** Whatever a pseudo-header says it survives exactly if no key is spelt like it and has a value. */
  lemma OverriddenIff(order: seq<string>, h: Headers, name: string)
    requires Visits(order, h)
    ensures (forall value :: LastOf(Overrides(order, h, name), value) == value) <==> !Overridden(h, name)
  {
    var overrides := Overrides(order, h, name);
    OverridesFindKeys(order, h, name);
    if Overridden(h, name) {
      var k :| k in h && Lower(k) == name && h[k] != [];
      var i :| 0 <= i < |order| && order[i] == k;
      assert Lower(order[i]) == name;
      var other := overrides[|overrides|-1] + "x";
      assert LastOf(overrides, other) != other;
    }
  }

  /** The status a response decodes to; it is the one sent, whatever that is, exactly if no key of the map
      is spelt like :status and has a value. */
  lemma StatusSurvivesIff(status: string, order: seq<string>, h: Headers)
    requires Visits(order, h)
    ensures EmitAll(EMPTY, EncodeResponse(status, order, h)).status == LastOf(Overrides(order, h, ":status"), status)
    ensures (forall value :: LastOf(Overrides(order, h, ":status"), value) == value) <==> !Overridden(h, ":status")
  {
    var pseudo := [Field(":status", status)];
    EmitConcat(EMPTY, pseudo, Encode(order, h));
    EmitOne(EMPTY, pseudo[0]);
    DecodeOverrides(EmitAll(EMPTY, pseudo), order, h, ":status");
    OverriddenIff(order, h, ":status");
  }

  /** The same for the method, path and authority of a request; its status stays empty on that
      condition. */
  lemma RequestLineSurvivesIff(
    verb: string, scheme: string, authority: string, path: string, order: seq<string>, h: Headers, name: string)
    requires Visits(order, h) && Kept(name)
    ensures Pick(EmitAll(EMPTY, EncodeRequest(verb, scheme, authority, path, order, h)), name) ==
            LastOf(Overrides(order, h, name), Pick(Scratch(verb, path, authority, "", map[]), name))
    ensures (forall value :: LastOf(Overrides(order, h, name), value) == value) <==> !Overridden(h, name)
  {
    var pseudo := RequestPseudo(verb, scheme, authority, path);
    DecodeRequestPseudo(verb, scheme, authority, path);
    EmitConcat(EMPTY, pseudo, Encode(order, h));
    DecodeOverrides(EmitAll(EMPTY, pseudo), order, h, name);
    OverriddenIff(order, h, name);
  }

  /** It can fail: a handler that sets the key :status replaces the response's status. */
  lemma StatusCanBeReplaced()
    ensures EmitAll(EMPTY, EncodeResponse("200", [":status"], map[":status" := ["500"]])).status == "500"
  {
    var h: Headers := map[":status" := ["500"]];
    assert Lower(":status") == ":status";
    StatusSurvivesIff("200", [":status"], h);
    assert [":status"][..0] == [];
    assert Overrides([":status"], h, ":status") == ["500"];
  }

  // ---- round trip --------------------------------------------------------------------------------

  predicate CanonicalKey(k: string) {
    Token(k) && Canon(k) == k
  }

  ghost predicate CanonicalKeys(h: Headers) {
    forall k :: k in h ==> CanonicalKey(k)
  }

  /** The part of a header map that is forwarded: no connection-specific name, no empty value list. */
  function Forwarded(h: Headers): Headers {
    map k | k in h && !Forbidden(Lower(k)) && h[k] != [] :: h[k]
  }

  lemma PseudoIsNoToken(name: string)
    requires Pseudo(name)
    ensures !Token(name)
  {
    assert name[0] == ':' && !TokenChar(name[0]);
  }

  lemma CanonicalIsRegular(k: string)
    requires CanonicalKey(k)
    ensures Canon(Lower(k)) == k && !Pseudo(Lower(k))
  {
    CanonicalSurvives(k);
    LowerKeepsTokens(k);
    if Pseudo(Lower(k)) {
      PseudoIsNoToken(Lower(k));
    }
  }

  lemma ShareOne(h: Headers, k: string, c: string)
    requires k in h && CanonicalKey(k)
    ensures Share(h, k, c) == if k == c && !Forbidden(Lower(c)) then h[c] else []
  {
    CanonicalIsRegular(k);
  }

  lemma {:induction false} GatherNone(order: seq<string>, h: Headers, c: string)
    requires forall i :: 0 <= i < |order| ==> order[i] in h && CanonicalKey(order[i])
    requires c !in order || Forbidden(Lower(c))
    ensures Gather(order, h, c) == []
  {
    if order != [] {
      GatherNone(order[..|order|-1], h, c);
      ShareOne(h, order[|order|-1], c);
    }
  }

  lemma {:induction false} GatherOne(order: seq<string>, h: Headers, c: string)
    requires forall i :: 0 <= i < |order| ==> order[i] in h && CanonicalKey(order[i])
    requires forall i, j :: 0 <= i < j < |order| ==> order[i] != order[j]
    requires c in order && !Forbidden(Lower(c))
    ensures Gather(order, h, c) == h[c]
  {
    var init, k := order[..|order|-1], order[|order|-1];
    ShareOne(h, k, c);
    if k == c {
      GatherNone(init, h, c);
    } else {
      GatherOne(init, h, c);
    }
  }

  lemma GatherForwarded(order: seq<string>, h: Headers, c: string)
    requires CanonicalKeys(h) && Visits(order, h)
    ensures Gather(order, h, c) == Values(Forwarded(h), c)
  {
    if c in order && !Forbidden(Lower(c)) {
      GatherOne(order, h, c);
    } else {
      GatherNone(order, h, c);
    }
  }

  lemma EmitKeepsPseudo(s: Scratch, h: Headers, k: string)
    requires k in h && !Pseudo(Lower(k))
    ensures EmitAll(s, EncodeKey(h, k)).(header := s.header) == s
  {
    if !Forbidden(Lower(k)) {
      EmitFields(s, Lower(k), h[k]);
    }
  }

  lemma {:induction false} EncodeKeepsPseudo(s: Scratch, order: seq<string>, h: Headers)
    requires forall i :: 0 <= i < |order| ==> order[i] in h && !Pseudo(Lower(order[i]))
    ensures EmitAll(s, Encode(order, h)).(header := s.header) == s
  {
    if order != [] {
      var init, k := order[..|order|-1], order[|order|-1];
      EncodeKeepsPseudo(s, init, h);
      EmitConcat(s, Encode(init, h), EncodeKey(h, k));
      EmitKeepsPseudo(EmitAll(s, Encode(init, h)), h, k);
    }
  }

  lemma SameHeaders(a: Headers, b: Headers)
    requires forall c :: Gains(map[], a, c, Values(b, c))
    requires forall c :: c in b ==> b[c] != []
    ensures a == b
  {
    forall c
      ensures c in a <==> c in b
      ensures c in a ==> a[c] == b[c]
    {
      assert Gains(map[], a, c, Values(b, c));
    }
  }

  /** Encoding a map with canonical token keys and decoding the fields, in whatever order the map was
      visited, gives back the map without its connection-specific names and empty lists, the values of
      every name in their order; the pseudo-header scratch fields are those it started with. */
  lemma RoundTrip(s: Scratch, order: seq<string>, h: Headers)
    requires CanonicalKeys(h) && Visits(order, h) && s.header == map[]
    ensures EmitAll(s, Encode(order, h)) == s.(header := Forwarded(h))
  {
    forall i | 0 <= i < |order|
      ensures !Pseudo(Lower(order[i]))
    {
      CanonicalIsRegular(order[i]);
    }
    EncodeKeepsPseudo(s, order, h);
    forall c
      ensures Gains(map[], EmitAll(s, Encode(order, h)).header, c, Values(Forwarded(h), c))
    {
      DecodeGathers(s, order, h, c);
      GatherForwarded(order, h, c);
    }
    SameHeaders(EmitAll(s, Encode(order, h)).header, Forwarded(h));
  }

  /** A response HEADERS block decodes to its status and the forwarded headers. */
  lemma ResponseRoundTrip(status: string, order: seq<string>, h: Headers)
    requires CanonicalKeys(h) && Visits(order, h)
    ensures EmitAll(EMPTY, EncodeResponse(status, order, h)) == Scratch("", "", "", status, Forwarded(h))
  {
    var pseudo := [Field(":status", status)];
    EmitConcat(EMPTY, pseudo, Encode(order, h));
    assert pseudo[..0] == [];
    RoundTrip(EmitAll(EMPTY, pseudo), order, h);
  }

  /** A request HEADERS block decodes to its method, path, authority and the forwarded headers. */
  lemma RequestRoundTrip(
    verb: string, scheme: string, authority: string, path: string, order: seq<string>, h: Headers)
    requires CanonicalKeys(h) && Visits(order, h)
    ensures EmitAll(EMPTY, EncodeRequest(verb, scheme, authority, path, order, h))
         == Scratch(verb, path, authority, "", Forwarded(h))
  {
    var pseudo := RequestPseudo(verb, scheme, authority, path);
    DecodeRequestPseudo(verb, scheme, authority, path);
    EmitConcat(EMPTY, pseudo, Encode(order, h));
    RoundTrip(EmitAll(EMPTY, pseudo), order, h);
  }

  /** Pseudo-header fields come first, each at most once: a response starts with its status, a request with
      method, scheme (https if none is given), authority if there is one, and path. */
  lemma PseudoHeadersLead(
    status: string, verb: string, scheme: string, authority: string, path: string, order: seq<string>, h: Headers)
    requires forall i :: 0 <= i < |order| ==> order[i] in h
    ensures EncodeResponse(status, order, h)[0] == Field(":status", status)
    ensures EncodeResponse(status, order, h)[1..] == Encode(order, h)
    ensures var fs, k := EncodeRequest(verb, scheme, authority, path, order, h), if authority == "" then 3 else 4;
            && fs[0] == Field(":method", verb) && fs[k-1] == Field(":path", path) && fs[k..] == Encode(order, h)
            && fs[1] == Field(":scheme", if scheme == "" then "https" else scheme)
            && (authority != "" ==> fs[2] == Field(":authority", authority))
  {
    var pseudo := RequestPseudo(verb, scheme, authority, path);
    assert |pseudo| == if authority == "" then 3 else 4;
    assert EncodeRequest(verb, scheme, authority, path, order, h)[|pseudo|..] == Encode(order, h);
  }

  // ---- the connection's codec state --------------------------------------------------------------

  class Codec {
    var lowerNames: map<string, string>
    var canonNames: map<string, string>
    var scratch: Scratch

    /** Both caches agree with the functions they stand in for. */
    ghost predicate Valid()
      reads this
    {
      LowerCache(lowerNames) && CanonCache(canonNames)
    }

    constructor ()
      ensures Valid()
    {
      lowerNames, canonNames := COMMON_LOWER_NAMES, COMMON_CANON_NAMES;
      scratch := EMPTY;
      new;
      LowerSeedsAgree();
      CanonSeedsAgree();
    }

    method LowerName(k: string) returns (lk: string)
      requires Valid()
      modifies this`lowerNames
      ensures Valid() && lk == Lower(k)
    {
      if k in lowerNames {
        lk := lowerNames[k];
      } else {
        lk := ToLower(k);
        lowerNames := lowerNames[k := lk];
      }
    }

    static method WriteFields(name: string, values: seq<string>) returns (fields: seq<Field>)
      ensures fields == Fields(name, values)
    {
      fields := [];
      for i := 0 to |values|
        invariant fields == Fields(name, values[..i])
      {
        fields := fields + [Field(name, values[i])];
      }
      assert values[..|values|] == values;
    }

    /** The writer's loop over a header map; order is the order in which the keys were visited. */
    method EncodeRegularHeaders(header: Headers) returns (fields: seq<Field>, ghost order: seq<string>)
      requires Valid()
      modifies this`lowerNames
      ensures Valid()
      ensures Visits(order, header) && fields == Encode(order, header)
    {
      fields, order := [], [];
      var left := header.Keys;
      while left != {}
        invariant Valid() && left <= header.Keys
        invariant forall k :: k in header <==> k in left || k in order
        invariant forall k :: k in left ==> k !in order
        invariant forall i, j :: 0 <= i < j < |order| ==> order[i] != order[j]
        invariant fields == Encode(order, header)
        decreases |left|
      {
        var k :| k in left;
        left := left - {k};
        var lk := LowerName(k);
        if !Forbidden(lk) {
          var own := WriteFields(lk, header[k]);
          fields := fields + own;
        }
        assert (order + [k])[..|order|] == order;
        order := order + [k];
      }
    }

    /** The decoder's emit callback. */
    method EmitHeader(f: Field)
      requires Valid()
      modifies this`canonNames, this`scratch
      ensures Valid() && scratch == Emit(old(scratch), f)
    {
      if f.name == ":method" {
        scratch := scratch.(verb := f.value);
      } else if f.name == ":path" {
        scratch := scratch.(path := f.value);
      } else if f.name == ":authority" {
        scratch := scratch.(authority := f.value);
      } else if f.name == ":status" {
        scratch := scratch.(status := f.value);
      } else if f.name != ":scheme" {
        var canon;
        if f.name in canonNames {
          canon := canonNames[f.name];
        } else {
          canon := Canon(f.name);
          canonNames := canonNames[f.name := canon];
        }
        var values := if canon in scratch.header then scratch.header[canon] else [];
        scratch := scratch.(header := scratch.header[canon := values + [f.value]]);
      }
    }

    /** Decoding one block: the scratch fields are cleared, then every field is emitted. */
    method DecodeBlock(fields: seq<Field>) returns (decoded: Scratch)
      requires Valid()
      modifies this`canonNames, this`scratch
      ensures Valid() && decoded == EmitAll(EMPTY, fields)
    {
      scratch := EMPTY;
      for i := 0 to |fields|
        invariant Valid() && scratch == EmitAll(EMPTY, fields[..i])
      {
        assert fields[..i+1][..i] == fields[..i];
        EmitHeader(fields[i]);
      }
      assert fields[..|fields|] == fields;
      decoded := scratch;
    }
  }

  /** One connection's writer to the other's reader, whatever either cache already holds. */
  method Transfer(sender: Codec, receiver: Codec, status: string, header: Headers) returns (decoded: Scratch)
    requires sender.Valid() && receiver.Valid() && CanonicalKeys(header)
    modifies sender, receiver
    ensures sender.Valid() && receiver.Valid()
    ensures decoded == Scratch("", "", "", status, Forwarded(header))
  {
    var fields, order := sender.EncodeRegularHeaders(header);
    ResponseRoundTrip(status, order, header);
    decoded := receiver.DecodeBlock([Field(":status", status)] + fields);
  }
}
