/**
 * The Redis key of a counter bucket: `key_for` builds the hash
 * `{counter:, group:, month:, scope_type:, scope_id:}` and serialises it with `to_json`;
 * `all_keys` reads it back with `JSON.parse`. JSON here is the compact form `to_json` writes:
 * objects whose member values are null, strings or integers.
 */
module Keys {
  import opened Wrappers
  import opened Decimal
  import opened Calendar

  /**
   * A scope handle: the class name and id of the record a counter is scoped to (an
   * Organisation, a Department, ...), plus its creation time when it has one. The id is
   * None for an unsaved record such as the global `Department.new`.
   */
  datatype Scope = Scope(typeName: string, id: Option<int>, createdAt: Option<Date>)

  /** The global bucket: `Department.new` (counter.rb, scopes_with_global). */
  const Global := Scope("Department", None, None)

  /** The fields of a counter key, in the order `key_for` writes them. */
  datatype CounterKey = CounterKey(
    counter: string,
    group: Option<string>,
    month: Option<string>,
    scopeType: string,
    scopeId: Option<int>)

  /** A JSON value of the kinds a counter key holds. */
  datatype Json = JNull | JString(str: string) | JInt(num: int)

  /** JSON string escaping of the two characters that could end a string early. */
  function Escape(s: string): string
  {
    if s == [] then [] else EscapeChar(s[0]) + Escape(s[1..])
  }

  /** One character as it appears inside a JSON string. */
  function EscapeChar(c: char): string
  {
    if c == '"' || c == '\\' then ['\\', c] else [c]
  }

  function Quote(s: string): string
  {
    "\"" + Escape(s) + "\""
  }

  /** A name the encoder writes as it is: no character of it needs escaping. */
  predicate PlainName(name: string)
  {
    forall i | 0 <= i < |name| :: name[i] != '"' && name[i] != '\\'
  }

  lemma {:induction false} EscapePlain(name: string)
    requires PlainName(name)
    ensures Escape(name) == name
    decreases |name|
  {
    if name != [] {
      assert PlainName(name[1..]) by {
        forall i | 0 <= i < |name[1..]| ensures name[1..][i] != '"' && name[1..][i] != '\\' {
          assert name[1..][i] == name[i + 1];
        }
      }
      EscapePlain(name[1..]);
      assert [name[0]] + name[1..] == name;
    }
  }

  function EncodeValue(v: Json): string
  {
    match v
    case JNull => "null"
    case JString(s) => Quote(s)
    case JInt(n) => IntToString(n)
  }

  /** One member `"name":value`; the member names of a key are plain words. */
  function EncodeMember(m: (string, Json)): string
  {
    "\"" + m.0 + "\":" + EncodeValue(m.1)
  }

  /** The members of an object, separated by commas. */
  function EncodeMembers(ms: seq<(string, Json)>): string
    decreases |ms|
  {
    if ms == [] then ""
    else if |ms| == 1 then EncodeMember(ms[0])
    else EncodeMember(ms[0]) + ("," + EncodeMembers(ms[1..]))
  }

  /** Hash#to_json: the members in insertion order between braces. */
  function JsonObject(ms: seq<(string, Json)>): string
  {
    "{" + (EncodeMembers(ms) + "}")
  }

  function NullOrString(o: Option<string>): Json
  {
    match o
    case None => JNull
    case Some(s) => JString(s)
  }

  function NullOrInt(o: Option<int>): Json
  {
    match o
    case None => JNull
    case Some(n) => JInt(n)
  }

  /** The hash `key_for` builds, member by member. */
  function Fields(k: CounterKey): seq<(string, Json)>
  {
    [("counter", JString(k.counter)),
     ("group", NullOrString(k.group)),
     ("month", NullOrString(k.month)),
     ("scope_type", JString(k.scopeType)),
     ("scope_id", NullOrInt(k.scopeId))]
  }

  /** `{counter:, group:, month:, scope_type:, scope_id:}.to_json` */
  function Encode(k: CounterKey): string
  {
    JsonObject(Fields(k))
  }

  function Expect(lit: string, s: string): (r: Option<string>)
    ensures r.Some? ==> |r.value| == |s| - |lit|
  {
    if lit <= s then Some(s[|lit|..]) else None
  }

  /** Reads the characters of a JSON string up to its closing quote. */
  function ParseStringBody(t: string): (r: Option<(string, string)>)
    ensures r.Some? ==> |r.value.1| < |t|
    decreases |t|
  {
    if t == [] then None
    else if t[0] == '"' then Some(([], t[1..]))
    else if t[0] == '\\' then
      if |t| >= 2 && (t[1] == '"' || t[1] == '\\') then
        match ParseStringBody(t[2..])
        case None => None
        case Some(p) => Some(([t[1]] + p.0, p.1))
      else None
    else
      match ParseStringBody(t[1..])
      case None => None
      case Some(p) => Some(([t[0]] + p.0, p.1))
  }

  function ParseString(s: string): (r: Option<(string, string)>)
    ensures r.Some? ==> |r.value.1| < |s|
  {
    if |s| > 0 && s[0] == '"' then ParseStringBody(s[1..]) else None
  }

  /** Reads one JSON value: null, a string or an integer. */
  function ParseValue(s: string): (r: Option<(Json, string)>)
    ensures r.Some? ==> |r.value.1| < |s|
  {
    if "null" <= s then Some((JNull, s[4..]))
    else if |s| > 0 && s[0] == '"' then
      match ParseString(s)
      case None => None
      case Some(p) => Some((JString(p.0), p.1))
    else
      match ParseInt(s)
      case None => None
      case Some(p) => Some((JInt(p.0), p.1))
  }

  function ParseMember(s: string): (r: Option<((string, Json), string)>)
    ensures r.Some? ==> |r.value.1| < |s|
  {
    var name :- ParseString(s);
    var afterColon :- Expect(":", name.1);
    var value :- ParseValue(afterColon);
    Some(((name.0, value.0), value.1))
  }

  /** Reads one or more members separated by commas. */
  function ParseMembers(s: string): Option<(seq<(string, Json)>, string)>
    decreases |s|
  {
    var m :- ParseMember(s);
    if |m.1| > 0 && m.1[0] == ',' then
      var more :- ParseMembers(m.1[1..]);
      Some(([m.0] + more.0, more.1))
    else Some(([m.0], m.1))
  }

  /** `JSON.parse` of a text holding one object and nothing after it. */
  function ParseObject(s: string): Option<seq<(string, Json)>>
  {
    var body :- Expect("{", s);
    var ms :- ParseMembers(body);
    if ms.1 == "}" then Some(ms.0) else None
  }

  function StringOf(v: Json): Option<string>
  {
    match v
    case JString(s) => Some(s)
    case _ => None
  }

  function NullOrStringOf(v: Json): Option<Option<string>>
  {
    match v
    case JNull => Some(None)
    case JString(s) => Some(Some(s))
    case JInt(_) => None
  }

  function NullOrIntOf(v: Json): Option<Option<int>>
  {
    match v
    case JNull => Some(None)
    case JInt(n) => Some(Some(n))
    case JString(_) => None
  }

  /** The counter key an object denotes, when it has exactly the members `key_for` writes. */
  function FromMembers(ms: seq<(string, Json)>): Option<CounterKey>
  {
    if |ms| == 5 && ms[0].0 == "counter" && ms[1].0 == "group" && ms[2].0 == "month"
      && ms[3].0 == "scope_type" && ms[4].0 == "scope_id"
    then
      var counter :- StringOf(ms[0].1);
      var group :- NullOrStringOf(ms[1].1);
      var month :- NullOrStringOf(ms[2].1);
      var scopeType :- StringOf(ms[3].1);
      var scopeId :- NullOrIntOf(ms[4].1);
      Some(CounterKey(counter, group, month, scopeType, scopeId))
    else None
  }

  /** `JSON.parse` of a key: None for a text that is not a counter key. */
  function Decode(s: string): Option<CounterKey>
  {
    var ms :- ParseObject(s);
    FromMembers(ms)
  }

  lemma ExpectLiteral(lit: string, rest: string)
    ensures Expect(lit, lit + rest) == Some(rest)
  {
    assert (lit + rest)[|lit|..] == rest;
  }

  lemma ParseBodyStepEscaped(c: char, tail: string, p: (string, string))
    requires c == '"' || c == '\\'
    requires ParseStringBody(tail) == Some(p)
    ensures ParseStringBody(['\\', c] + tail) == Some(([c] + p.0, p.1))
  {
    var t := ['\\', c] + tail;
    assert t[0] == '\\' && t[1] == c && t[2..] == tail;
  }

  lemma ParseBodyStepPlain(c: char, tail: string, p: (string, string))
    requires c != '"' && c != '\\'
    requires ParseStringBody(tail) == Some(p)
    ensures ParseStringBody([c] + tail) == Some(([c] + p.0, p.1))
  {
    var t := [c] + tail;
    assert t[0] == c && t[1..] == tail;
  }

  /** One escaped character in front of a string body is read back as that character. */
  lemma ParseBodyStep(c: char, tail: string, p: (string, string))
    requires ParseStringBody(tail) == Some(p)
    ensures ParseStringBody(EscapeChar(c) + tail) == Some(([c] + p.0, p.1))
  {
    if c == '"' || c == '\\' {
      ParseBodyStepEscaped(c, tail, p);
    } else {
      ParseBodyStepPlain(c, tail, p);
    }
  }

  /** Escaping a non-empty string: the first character's escape, then the rest's. */
  lemma EscapeCons(s: string, q: string)
    requires s != []
    ensures Escape(s) + q == EscapeChar(s[0]) + (Escape(s[1..]) + q)
  {
    ConcatAssoc(EscapeChar(s[0]), Escape(s[1..]), q);
  }

  /** One more character in front of an escaped string is read back. */
  lemma ParseEscapedCons(s: string, q: string, rest: string)
    requires s != []
    requires ParseStringBody(Escape(s[1..]) + q) == Some((s[1..], rest))
    ensures ParseStringBody(Escape(s) + q) == Some((s, rest))
  {
    EscapeCons(s, q);
    ParseBodyStep(s[0], Escape(s[1..]) + q, (s[1..], rest));
    assert [s[0]] + s[1..] == s;
  }

  lemma {:induction false} ParseEscaped(s: string, rest: string)
    ensures ParseStringBody(Escape(s) + ("\"" + rest)) == Some((s, rest))
    decreases |s|
  {
    if s == [] {
      assert Escape(s) + ("\"" + rest) == "\"" + rest;
      assert ("\"" + rest)[1..] == rest;
    } else {
      ParseEscaped(s[1..], rest);
      ParseEscapedCons(s, "\"" + rest, rest);
    }
  }

  lemma ParseQuoted(s: string, rest: string)
    ensures ParseString(Quote(s) + rest) == Some((s, rest))
  {
    var t := Quote(s) + rest;
    assert t == "\"" + (Escape(s) + ("\"" + rest));
    assert t[1..] == Escape(s) + ("\"" + rest);
    ParseEscaped(s, rest);
  }

  /** A value reads back as itself when what follows it cannot continue a number. */
  lemma ParseEncodedValue(v: Json, rest: string)
    requires rest == [] || !IsDigit(rest[0])
    ensures ParseValue(EncodeValue(v) + rest) == Some((v, rest))
  {
    var t := EncodeValue(v) + rest;
    match v
    case JNull =>
      ExpectLiteral("null", rest);
    case JString(s) =>
      assert t[0] == '"';
      ParseQuoted(s, rest);
    case JInt(n) =>
      assert t[0] == IntToString(n)[0];
      assert t[0] == '-' || IsDigit(t[0]);
      ParseIntToString(n, rest);
  }

  /** A member's text is its quoted name, then the colon and the value. */
  lemma MemberRegroup(name: string, v: string, rest: string)
    ensures "\"" + name + "\":" + v + rest == ("\"" + name + "\"") + (":" + (v + rest))
  {
    var q := "\"" + name;
    assert "\"" + name + "\":" == q + "\":";
    assert q + "\":" == (q + "\"") + ":";
  }

  lemma ParseEncodedMember(m: (string, Json), rest: string)
    requires PlainName(m.0)
    requires rest == [] || !IsDigit(rest[0])
    ensures ParseMember(EncodeMember(m) + rest) == Some((m, rest))
  {
    EscapePlain(m.0);
    var after := ":" + (EncodeValue(m.1) + rest);
    MemberRegroup(m.0, EncodeValue(m.1), rest);
    ParseQuoted(m.0, after);
    ExpectLiteral(":", EncodeValue(m.1) + rest);
    ParseEncodedValue(m.1, rest);
  }

  lemma ParseMembersStep(s: string, m: (string, Json), t: string, more: seq<(string, Json)>, rest: string)
    requires ParseMember(s) == Some((m, "," + t))
    requires ParseMembers(t) == Some((more, rest))
    ensures ParseMembers(s) == Some(([m] + more, rest))
  {
    assert ("," + t)[1..] == t;
  }

  /** The members of an object read back as themselves, up to the text that closes them. */
  lemma {:induction false} ParseEncodedMembers(ms: seq<(string, Json)>, rest: string)
    requires |ms| >= 1
    requires forall i | 0 <= i < |ms| :: PlainName(ms[i].0)
    requires rest == [] || (rest[0] != ',' && !IsDigit(rest[0]))
    ensures ParseMembers(EncodeMembers(ms) + rest) == Some((ms, rest))
    decreases |ms|
  {
    if |ms| == 1 {
      ParseOneEncodedMember(ms[0], rest);
      assert [ms[0]] == ms;
    } else {
      PlainNamesTail(ms);
      ParseEncodedMembers(ms[1..], rest);
      ParseEncodedMembersStep(ms, rest);
    }
  }

  /** A single member reads back as a list of one, when no comma follows it. */
  lemma ParseOneEncodedMember(m: (string, Json), rest: string)
    requires PlainName(m.0)
    requires rest == [] || (rest[0] != ',' && !IsDigit(rest[0]))
    ensures ParseMembers(EncodeMembers([m]) + rest) == Some(([m], rest))
  {
    ParseEncodedMember(m, rest);
    ParseMembersLast(EncodeMember(m) + rest, m, rest);
  }

  /** A first member in front of members that read back reads back with them. */
  lemma ParseEncodedMembersStep(ms: seq<(string, Json)>, rest: string)
    requires |ms| >= 2 && PlainName(ms[0].0)
    requires ParseMembers(EncodeMembers(ms[1..]) + rest) == Some((ms[1..], rest))
    ensures ParseMembers(EncodeMembers(ms) + rest) == Some((ms, rest))
  {
    EncodeMembersCons(ms, rest);
    ParseEncodedMembersCons(ms[0], EncodeMembers(ms[1..]) + rest, ms[1..], rest);
    assert [ms[0]] + ms[1..] == ms;
  }

  /** A member the text does not follow with a comma is the last one read. */
  lemma ParseMembersLast(s: string, m: (string, Json), rest: string)
    requires ParseMember(s) == Some((m, rest))
    requires rest == [] || rest[0] != ','
    ensures ParseMembers(s) == Some(([m], rest))
  {
  }

  lemma PlainNamesTail(ms: seq<(string, Json)>)
    requires |ms| >= 1
    requires forall i | 0 <= i < |ms| :: PlainName(ms[i].0)
    ensures forall i | 0 <= i < |ms[1..]| :: PlainName(ms[1..][i].0)
  {
    forall i | 0 <= i < |ms[1..]| ensures PlainName(ms[1..][i].0) {
      assert ms[1..][i] == ms[i + 1];
    }
  }

  lemma EncodeMembersCons(ms: seq<(string, Json)>, rest: string)
    requires |ms| >= 2
    ensures EncodeMembers(ms) + rest == EncodeMember(ms[0]) + ("," + (EncodeMembers(ms[1..]) + rest))
  {
  }

  /** A member, a comma and members that read back read back as one more member. */
  lemma ParseEncodedMembersCons(m: (string, Json), tail: string, more: seq<(string, Json)>, rest: string)
    requires PlainName(m.0)
    requires ParseMembers(tail) == Some((more, rest))
    ensures ParseMembers(EncodeMember(m) + ("," + tail)) == Some(([m] + more, rest))
  {
    var after := "," + tail;
    assert after[0] == ',';
    ParseEncodedMember(m, after);
    ParseMembersStep(EncodeMember(m) + after, m, tail, more, rest);
  }

  /** An object whose member names are plain words reads back as its members. */
  lemma ParseJsonObject(ms: seq<(string, Json)>)
    requires |ms| >= 1
    requires forall i | 0 <= i < |ms| :: PlainName(ms[i].0)
    ensures ParseObject(JsonObject(ms)) == Some(ms)
  {
    ExpectLiteral("{", EncodeMembers(ms) + "}");
    ParseEncodedMembers(ms, "}");
  }

  /** Every key that `key_for` writes reads back as the fields it was built from. */
  lemma DecodeEncode(k: CounterKey)
    ensures Decode(Encode(k)) == Some(k)
  {
    FieldNamesPlain(k);
    ParseJsonObject(Fields(k));
    FromFields(k);
  }

  lemma FieldNamesPlain(k: CounterKey)
    ensures forall i | 0 <= i < |Fields(k)| :: PlainName(Fields(k)[i].0)
  {
    assert PlainName("counter") && PlainName("group") && PlainName("month");
    assert PlainName("scope_type") && PlainName("scope_id");
  }

  /** The members `key_for` writes denote the key they were built from. */
  lemma FromFields(k: CounterKey)
    ensures FromMembers(Fields(k)) == Some(k)
  {
  }

  /** `key_for` is injective: two buckets never share a Redis key. */
  lemma EncodeInjective(k: CounterKey, l: CounterKey)
    ensures Encode(k) == Encode(l) ==> k == l
  {
    DecodeEncode(k);
    DecodeEncode(l);
  }

  /** An object's text starts with its brace and its first member. */
  lemma JsonObjectStarts(ms: seq<(string, Json)>)
    requires |ms| >= 1
    ensures JsonObject(ms)[0] == '{'
    ensures EncodeMember(ms[0]) <= JsonObject(ms)[1..]
  {
    var head := EncodeMember(ms[0]);
    var tail := if |ms| == 1 then "" else "," + EncodeMembers(ms[1..]);
    assert EncodeMembers(ms) == head + tail;
    assert JsonObject(ms)[1..] == head + (tail + "}");
  }
}
