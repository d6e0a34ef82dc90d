/** `JSON.parse` on the part of JSON that config values use: `null`,
    booleans, integers, strings without escape sequences, arrays and objects,
    with whitespace between tokens. Fractions, exponents and escape sequences
    are rejected. Each parser reads a prefix of its input and returns the
    value with the input that remains. */
module JsonParse {
  import opened Wrappers
  import opened Text
  import opened JsonValues

  /** JSON whitespace: space, tab, line feed, carriage return. */
  predicate IsWs(c: char) {
    c == ' ' || c == '\t' || c == '\n' || c == '\r'
  }

  /** A character a string may hold unescaped: not a quote, not a backslash,
      not a control character. */
  predicate IsPlainChar(c: char) {
    c != '"' && c != '\\' && c >= ' '
  }

  /** The input after its leading whitespace. */
  function SkipWs(s: string): (t: string)
    ensures |t| <= |s|
    ensures t == [] || !IsWs(t[0])
    decreases |s|
  {
    if s != [] && IsWs(s[0]) then SkipWs(s[1..]) else s
  }

  /** `word` at the start of the input stands for `v`. */
  function ParseLiteral(s: string, word: string, v: Json): (r: Option<(Json, string)>)
    requires |word| > 0
    ensures r.Some? ==> |r.value.1| < |s|
  {
    if |word| <= |s| && s[..|word|] == word then Some((v, s[|word|..])) else None
  }

  /** The length of the run of digits that starts the input. */
  function DigitRun(s: string): (n: nat)
    ensures n <= |s| && AllDigits(s[..n])
    ensures n == |s| || !IsDigit(s[n])
    decreases |s|
  {
    if s != [] && IsDigit(s[0]) then
      var n := 1 + DigitRun(s[1..]);
      assert s[..n] == [s[0]] + s[1..][..n - 1];
      n
    else 0
  }

  /** An integer: an optional minus sign, then `0` or digits without a leading
      zero. A `.`, `e` or `E` right after the digits starts a fraction or an
      exponent, which this model rejects. */
  function ParseNumber(s: string): (r: Option<(Json, string)>)
    ensures r.Some? ==> |r.value.1| < |s|
  {
    var negative := s != [] && s[0] == '-';
    var body := if negative then s[1..] else s;
    var n := DigitRun(body);
    if n == 0 || (body[0] == '0' && n > 1) then None
    else
      var rest := body[n..];
      if rest != [] && (rest[0] == '.' || rest[0] == 'e' || rest[0] == 'E') then None
      else
        var magnitude: int := DecimalValue(body[..n]);
        Some((JNum(if negative then -magnitude else magnitude), rest))
  }

  /** The length of the run of plain characters that starts the input. */
  function PlainRun(s: string): (n: nat)
    ensures n <= |s|
    ensures forall i :: 0 <= i < n ==> IsPlainChar(s[i])
    ensures n == |s| || !IsPlainChar(s[n])
    decreases |s|
  {
    if s != [] && IsPlainChar(s[0]) then 1 + PlainRun(s[1..]) else 0
  }

  /** The characters of a string literal up to its closing quote; the input
      starts just after the opening quote. */
  function ParseString(s: string): (r: Option<(string, string)>)
    ensures r.Some? ==> |r.value.1| < |s|
  {
    var n := PlainRun(s);
    if n < |s| && s[n] == '"' then Some((s[..n], s[n + 1..])) else None
  }

  /** One value, starting at the first character of the input. */
  function ParseValue(s: string): (r: Option<(Json, string)>)
    ensures r.Some? ==> |r.value.1| < |s|
    decreases |s|, 0
  {
    if s == [] then None
    else if s[0] == 'n' then ParseLiteral(s, "null", JNull)
    else if s[0] == 't' then ParseLiteral(s, "true", JBool(true))
    else if s[0] == 'f' then ParseLiteral(s, "false", JBool(false))
    else if s[0] == '"' then
      match ParseString(s[1..])
      case None => None
      case Some((text, rest)) => Some((JStr(text), rest))
    else if s[0] == '[' then ParseArray(s[1..])
    else if s[0] == '{' then ParseObject(s[1..])
    else ParseNumber(s)
  }

  /** An array after its `[`. */
  function ParseArray(s: string): (r: Option<(Json, string)>)
    ensures r.Some? ==> |r.value.1| < |s|
    decreases |s|, 2
  {
    var t := SkipWs(s);
    if t != [] && t[0] == ']' then Some((JArr([]), t[1..]))
    else
      match ParseElements(t)
      case None => None
      case Some((items, rest)) => Some((JArr(items), rest))
  }

  /** The elements of a non-empty array and its closing `]`. */
  function ParseElements(s: string): (r: Option<(seq<Json>, string)>)
    ensures r.Some? ==> |r.value.1| < |s|
    decreases |s|, 1
  {
    match ParseValue(s)
    case None => None
    case Some((v, rest)) =>
      var t := SkipWs(rest);
      if t != [] && t[0] == ',' then
        match ParseElements(SkipWs(t[1..]))
        case None => None
        case Some((more, rest')) => Some(([v] + more, rest'))
      else if t != [] && t[0] == ']' then Some(([v], t[1..]))
      else None
  }

  /** An object after its `{`. */
  function ParseObject(s: string): (r: Option<(Json, string)>)
    ensures r.Some? ==> |r.value.1| < |s|
    decreases |s|, 2
  {
    var t := SkipWs(s);
    if t != [] && t[0] == '}' then Some((JObj(map[]), t[1..]))
    else
      match ParseMembers(t)
      case None => None
      case Some((fields, rest)) => Some((JObj(fields), rest))
  }

  /** The members of a non-empty object and its closing `}`. When a key
      repeats, the later member wins, as in `JSON.parse`. */
  function ParseMembers(s: string): (r: Option<(map<string, Json>, string)>)
    ensures r.Some? ==> |r.value.1| < |s|
    decreases |s|, 1
  {
    if s == [] || s[0] != '"' then None
    else
      match ParseString(s[1..])
      case None => None
      case Some((key, rest)) =>
        var t := SkipWs(rest);
        if t == [] || t[0] != ':' then None
        else
          match ParseValue(SkipWs(t[1..]))
          case None => None
          case Some((v, rest')) =>
            var u := SkipWs(rest');
            if u != [] && u[0] == ',' then
              match ParseMembers(SkipWs(u[1..]))
              case None => None
              case Some((more, rest'')) => Some((map[key := v] + more, rest''))
            else if u != [] && u[0] == '}' then Some((map[key := v], u[1..]))
            else None
  }

  /** `JSON.parse(text)`: one value with optional whitespace around it;
      `None` where `JSON.parse` throws. */
  function Parse(text: string): Option<Json> {
    match ParseValue(SkipWs(text))
    case None => None
    case Some((v, rest)) => if SkipWs(rest) == [] then Some(v) else None
  }

  // ---------------------------------------------------------------------
  // `JSON.stringify` without indentation, and the round trip through `Parse`.

  /** A string `JSON.stringify` writes without escape sequences. */
  predicate PlainText(s: string) {
    forall i :: 0 <= i < |s| ==> IsPlainChar(s[i])
  }

  /** A value all of whose strings and keys are plain text. */
  predicate Plain(v: Json)
    decreases v
  {
    match v
    case JStr(s) => PlainText(s)
    case JArr(items) => forall i :: 0 <= i < |items| ==> Plain(items[i])
    case JObj(fields) => forall k :: k in fields ==> PlainText(k) && Plain(fields[k])
    case _ => true
  }

  /** `JSON.stringify(v)`. `JSON.stringify` writes an object's members in
      insertion order; a map has no order, so one is picked. */
  ghost function Serialize(v: Json): (s: string)
    decreases v, 1
  {
    match v
    case JNull => "null"
    case JBool(b) => if b then "true" else "false"
    case JNum(n) => IntToDecimal(n)
    case JStr(text) => "\"" + text + "\""
    case JArr(items) => "[" + SerializeItems(items) + "]"
    case JObj(fields) =>
      if fields == map[] then "{}" else "{" + SerializeMembers(v, fields.Keys) + "}"
  }

  /** The elements of an array, separated by commas. */
  ghost function SerializeItems(items: seq<Json>): string
    decreases items, 0
  {
    if items == [] then ""
    else if |items| == 1 then Serialize(items[0])
    else Serialize(items[0]) + "," + SerializeItems(items[1..])
  }

  /** Some key of a non-empty set: the member an object's serialization writes first. */
  ghost function PickKey(keys: set<string>): (k: string)
    requires keys != {}
    ensures k in keys
  {
    var k :| k in keys; k
  }

  /** The members of object `v` named by `keys`, separated by commas. */
  ghost function SerializeMembers(v: Json, keys: set<string>): string
    requires v.JObj? && keys != {} && keys <= v.fields.Keys
    decreases v, 0, keys
  {
    var k := PickKey(keys);
    var member := "\"" + k + "\":" + Serialize(v.fields[k]);
    if keys == {k} then member else member + "," + SerializeMembers(v, keys - {k})
  }

  /** What may follow a value inside a document: its end, a comma, or a closing bracket. */
  predicate Delimited(rest: string) {
    rest == [] || rest[0] == ',' || rest[0] == ']' || rest[0] == '}'
  }

  /** A serialized value starts with the character that selects its parser. */
  lemma SerializeStart(v: Json)
    ensures Serialize(v) != []
    ensures v.JNull? ==> Serialize(v)[0] == 'n'
    ensures v.JBool? ==> Serialize(v)[0] == (if v.b then 't' else 'f')
    ensures v.JNum? ==> Serialize(v)[0] == '-' || IsDigit(Serialize(v)[0])
    ensures v.JStr? ==> Serialize(v)[0] == '"'
    ensures v.JArr? ==> Serialize(v)[0] == '['
    ensures v.JObj? ==> Serialize(v)[0] == '{'
  {
  }

  /** A run of digits ended by a non-digit is measured exactly. */
  lemma {:induction false} DigitRunOfDigits(d: string, rest: string)
    requires AllDigits(d)
    requires rest == [] || !IsDigit(rest[0])
    ensures DigitRun(d + rest) == |d|
    decreases |d|
  {
    var s := d + rest;
    if d != [] {
      assert s[0] == d[0] && IsDigit(s[0]);
      assert s[1..] == d[1..] + rest;
      assert AllDigits(d[1..]) by {
        forall i | 0 <= i < |d[1..]| ensures IsDigit(d[1..][i]) {
          assert d[1..][i] == d[i + 1];
        }
      }
      DigitRunOfDigits(d[1..], rest);
      assert DigitRun(s) == 1 + DigitRun(s[1..]);
    } else {
      assert s == rest;
    }
  }

  /** The digits of a natural number, followed by a delimiter, split back
      into that number and the delimiter. */
  lemma MagnitudeRoundTrip(m: nat, rest: string)
    requires Delimited(rest)
    ensures var body := NatToDecimal(m) + rest;
            var n := DigitRun(body);
            && n == |NatToDecimal(m)| && n > 0
            && (body[0] != '0' || n == 1)
            && body[n..] == rest
            && DecimalValue(body[..n]) == m
  {
    var digits := NatToDecimal(m);
    var body := digits + rest;
    DigitRunOfDigits(digits, rest);
    assert body[..|digits|] == digits;
    assert body[|digits|..] == rest;
    if digits[0] == '0' {
      assert |digits| == 1;
    }
    DecimalRoundTrip(m);
  }

  /** `ParseNumber` on an optional minus sign followed by a digit run that
      denotes `m` and ends before `rest`. */
  lemma ParseNumberOfBody(s: string, negative: bool, body: string, m: nat, rest: string)
    requires if negative then s == "-" + body else s == body
    requires body != [] && IsDigit(body[0])
    requires var n := DigitRun(body);
             && n > 0 && (body[0] != '0' || n == 1)
             && body[n..] == rest && DecimalValue(body[..n]) == m
    requires Delimited(rest)
    ensures ParseNumber(s) == Some((JNum(if negative then 0 - m else m), rest))
  {
    if negative {
      assert s[1..] == body;
    }
  }

  /** Integers read back as written. */
  lemma {:induction false} NumberRoundTrip(n: int, rest: string)
    requires Delimited(rest)
    ensures ParseNumber(IntToDecimal(n) + rest) == Some((JNum(n), rest))
  {
    var m: nat := if n < 0 then -n else n;
    var body := NatToDecimal(m) + rest;
    MagnitudeRoundTrip(m, rest);
    IntToDecimalSign(n);
    ParseNumberOfBody(IntToDecimal(n) + rest, n < 0, body, m, rest);
  }

  lemma PlainRunOfPlain(text: string, rest: string)
    requires PlainText(text)
    ensures PlainRun(text + "\"" + rest) == |text|
    decreases |text|
  {
    if text != [] {
      assert (text + "\"" + rest)[1..] == text[1..] + "\"" + rest;
      PlainRunOfPlain(text[1..], rest);
    } else {
      assert text + "\"" + rest == "\"" + rest;
    }
  }

  /** Plain strings read back as written. */
  lemma {:induction false} StringRoundTrip(text: string, rest: string)
    requires PlainText(text)
    ensures ParseString(text + "\"" + rest) == Some((text, rest))
  {
    var s := text + "\"" + rest;
    PlainRunOfPlain(text, rest);
    assert s[..|text|] == text;
    assert s[|text|] == '"';
    assert s[|text| + 1..] == rest;
  }

  lemma LiteralRoundTrip(word: string, v: Json, rest: string)
    requires |word| > 0 && word[0] in {'n', 't', 'f'}
    requires v == (if word[0] == 'n' then JNull else JBool(word[0] == 't'))
    requires word == (if word[0] == 'n' then "null" else if word[0] == 't' then "true" else "false")
    ensures ParseValue(word + rest) == Some((v, rest))
  {
    var s := word + rest;
    assert s[0] == word[0];
    assert s[..|word|] == word && s[|word|..] == rest;
  }

  lemma NumberValueRoundTrip(n: int, rest: string)
    requires Delimited(rest)
    ensures ParseValue(IntToDecimal(n) + rest) == Some((JNum(n), rest))
  {
    SerializeStart(JNum(n));
    var s := IntToDecimal(n) + rest;
    assert s[0] == IntToDecimal(n)[0];
    NumberRoundTrip(n, rest);
  }

  lemma StringValueRoundTrip(text: string, rest: string)
    requires PlainText(text)
    ensures ParseValue("\"" + text + "\"" + rest) == Some((JStr(text), rest))
  {
    var s := "\"" + text + "\"" + rest;
    assert s[0] == '"';
    assert s[1..] == text + "\"" + rest;
    StringRoundTrip(text, rest);
  }

  /** `[` followed by the elements, `]` and what follows. */
  lemma ArrayValue(s: string, items: seq<Json>, rest: string)
    requires s != [] && s[0] == '['
    requires items == [] ==> s[1..] == "]" + rest
    requires items != [] ==> s[1..] != [] && !IsWs(s[1]) && s[1] != ']'
    requires items != [] ==> ParseElements(s[1..]) == Some((items, rest))
    ensures ParseValue(s) == Some((JArr(items), rest))
  {
    assert ParseValue(s) == ParseArray(s[1..]);
    SkipNothing(s[1..]);
    if items == [] {
      assert ("]" + rest)[1..] == rest;
    }
  }

  /** `{` followed by the members, `}` and what follows. */
  lemma ObjectValue(s: string, fields: map<string, Json>, rest: string)
    requires s != [] && s[0] == '{'
    requires fields == map[] ==> s[1..] == "}" + rest
    requires fields != map[] ==> s[1..] != [] && s[1] == '"'
    requires fields != map[] ==> ParseMembers(s[1..]) == Some((fields, rest))
    ensures ParseValue(s) == Some((JObj(fields), rest))
  {
    assert ParseValue(s) == ParseObject(s[1..]);
    SkipNothing(s[1..]);
    if fields == map[] {
      assert ("}" + rest)[1..] == rest;
    }
  }

  /** Parsing what `Serialize` writes, followed by a delimiter, gives back the value. */
  lemma {:induction false} ValueRoundTrip(v: Json, rest: string)
    requires Plain(v) && Delimited(rest)
    ensures ParseValue(Serialize(v) + rest) == Some((v, rest))
    decreases v, 2
  {
    match v
    case JNull =>
      LiteralRoundTrip("null", v, rest);
    case JBool(b) =>
      LiteralRoundTrip(if b then "true" else "false", v, rest);
    case JNum(n) =>
      NumberValueRoundTrip(n, rest);
    case JStr(text) =>
      StringValueRoundTrip(text, rest);
    case JArr(_) =>
      ArrayRoundTrip(v, rest);
    case JObj(_) =>
      ObjectRoundTrip(v, rest);
  }

  /** A serialized array with what follows: `[`, the elements, `]`, the rest. */
  lemma ArrayText(v: Json, rest: string)
    requires v.JArr?
    ensures var s := Serialize(v) + rest;
            s != [] && s[0] == '[' && s[1..] == SerializeItems(v.items) + "]" + rest
  {
    var body := SerializeItems(v.items) + "]" + rest;
    assert Serialize(v) + rest == "[" + body;
  }

  lemma {:induction false} ArrayRoundTrip(v: Json, rest: string)
    requires v.JArr? && Plain(v) && Delimited(rest)
    ensures ParseValue(Serialize(v) + rest) == Some((v, rest))
    decreases v, 1
  {
    var items := v.items;
    ArrayText(v, rest);
    if items != [] {
      ItemsRoundTrip(items, rest);
      SerializeStart(items[0]);
    }
    ArrayValue(Serialize(v) + rest, items, rest);
  }

  lemma {:induction false} ObjectRoundTrip(v: Json, rest: string)
    requires v.JObj? && Plain(v) && Delimited(rest)
    ensures ParseValue(Serialize(v) + rest) == Some((v, rest))
    decreases v, 1
  {
    var fields := v.fields;
    var s := Serialize(v) + rest;
    if fields != map[] {
      var body := SerializeMembers(v, fields.Keys);
      assert s[1..] == body + "}" + rest;
      MembersRoundTrip(v, fields.Keys, rest);
      assert Restrict(fields, fields.Keys) == fields;
    } else {
      assert s[1..] == "}" + rest;
    }
    ObjectValue(s, fields, rest);
  }

  /** Input that starts with a character other than whitespace is left as it is by `SkipWs`. */
  lemma SkipNothing(s: string)
    requires s != [] && !IsWs(s[0])
    ensures SkipWs(s) == s
  {
  }

  /** The last element of an array: a value followed by `]`. */
  lemma ElementsLast(s: string, v: Json, rest: string)
    requires ParseValue(s) == Some((v, "]" + rest))
    ensures ParseElements(s) == Some(([v], rest))
  {
    SkipNothing("]" + rest);
    assert ("]" + rest)[1..] == rest;
  }

  /** An element followed by a comma and further elements. */
  lemma ElementsMore(s: string, v: Json, tail: string, more: seq<Json>, rest: string)
    requires tail != [] && !IsWs(tail[0])
    requires ParseValue(s) == Some((v, "," + tail))
    requires ParseElements(tail) == Some((more, rest))
    ensures ParseElements(s) == Some(([v] + more, rest))
  {
    SkipNothing("," + tail);
    assert ("," + tail)[1..] == tail;
    SkipNothing(tail);
  }

  /** A first element, a comma and the others, then `]` and what follows. */
  lemma CommaJoin(head: string, others: string, rest: string)
    requires head != []
    ensures (head + "," + others) + "]" + rest == head + ("," + (others + "]" + rest))
    ensures (head + "," + others)[0] == head[0]
  {
  }

  /** A single serialized element, then `]` and what follows. */
  lemma ItemsOne(items: seq<Json>, rest: string)
    requires |items| == 1
    ensures SerializeItems(items) + "]" + rest == Serialize(items[0]) + ("]" + rest)
    ensures SerializeItems(items) != [] && SerializeItems(items)[0] == Serialize(items[0])[0]
  {
    SerializeStart(items[0]);
    assert SerializeItems(items) == Serialize(items[0]);
  }

  /** Several serialized elements split at the first one. */
  lemma ItemsMany(items: seq<Json>, rest: string)
    requires |items| > 1
    ensures SerializeItems(items) + "]" + rest
              == Serialize(items[0]) + ("," + (SerializeItems(items[1..]) + "]" + rest))
    ensures SerializeItems(items) != [] && SerializeItems(items)[0] == Serialize(items[0])[0]
  {
    SerializeStart(items[0]);
    var head := Serialize(items[0]);
    var others := SerializeItems(items[1..]);
    assert SerializeItems(items) == head + "," + others;
    CommaJoin(head, others, rest);
  }

  /** The last element read back, then `]`: the elements end there. */
  lemma ItemsLastStep(items: seq<Json>, rest: string)
    requires |items| == 1
    requires ParseValue(Serialize(items[0]) + ("]" + rest)) == Some((items[0], "]" + rest))
    ensures ParseElements(SerializeItems(items) + "]" + rest) == Some((items, rest))
  {
    ItemsOne(items, rest);
    ElementsLast(Serialize(items[0]) + ("]" + rest), items[0], rest);
    assert [items[0]] == items;
  }

  /** The first element read back, then a comma and the other elements read
      back: the elements are all of them. */
  lemma ItemsMoreStep(items: seq<Json>, rest: string)
    requires |items| > 1
    requires var tail := SerializeItems(items[1..]) + "]" + rest;
             ParseValue(Serialize(items[0]) + ("," + tail)) == Some((items[0], "," + tail))
    requires SerializeItems(items[1..]) != [] && SerializeItems(items[1..])[0] == Serialize(items[1])[0]
    requires ParseElements(SerializeItems(items[1..]) + "]" + rest) == Some((items[1..], rest))
    ensures ParseElements(SerializeItems(items) + "]" + rest) == Some((items, rest))
  {
    var tail := SerializeItems(items[1..]) + "]" + rest;
    ItemsMany(items, rest);
    SerializeStart(items[1]);
    ElementsMore(Serialize(items[0]) + ("," + tail), items[0], tail, items[1..], rest);
    assert [items[0]] + items[1..] == items;
  }

  /** The elements of a non-empty array, then `]`, read back as written. */
  lemma {:induction false} ItemsRoundTrip(items: seq<Json>, rest: string)
    requires items != []
    requires forall i :: 0 <= i < |items| ==> Plain(items[i])
    requires Delimited(rest)
    ensures SerializeItems(items) != [] && SerializeItems(items)[0] == Serialize(items[0])[0]
    ensures ParseElements(SerializeItems(items) + "]" + rest) == Some((items, rest))
    decreases items, 0
  {
    if |items| == 1 {
      ItemsOne(items, rest);
      ValueRoundTrip(items[0], "]" + rest);
      ItemsLastStep(items, rest);
    } else {
      ItemsMany(items, rest);
      ValueRoundTrip(items[0], "," + (SerializeItems(items[1..]) + "]" + rest));
      ItemsRoundTrip(items[1..], rest);
      assert items[1..][0] == items[1];
      ItemsMoreStep(items, rest);
    }
  }

  /** The serialized members start with the quote of the first key. */
  lemma MembersStart(v: Json, keys: set<string>)
    requires v.JObj? && keys != {} && keys <= v.fields.Keys
    ensures SerializeMembers(v, keys) != [] && SerializeMembers(v, keys)[0] == '"'
  {
  }

  /** The last member of an object: a key, a colon, a value and `}`. */
  lemma MemberLast(s: string, key: string, after: string, value: Json, rest: string)
    requires s != [] && s[0] == '"'
    requires ParseString(s[1..]) == Some((key, ":" + after))
    requires after != [] && !IsWs(after[0])
    requires ParseValue(after) == Some((value, "}" + rest))
    ensures ParseMembers(s) == Some((map[key := value], rest))
  {
    SkipNothing(":" + after);
    assert (":" + after)[1..] == after;
    SkipNothing(after);
    SkipNothing("}" + rest);
    assert ("}" + rest)[1..] == rest;
  }

  /** A member followed by a comma and further members. */
  lemma MemberMore(s: string, key: string, after: string, value: Json, tail: string,
                   more: map<string, Json>, rest: string)
    requires s != [] && s[0] == '"'
    requires ParseString(s[1..]) == Some((key, ":" + after))
    requires after != [] && !IsWs(after[0])
    requires ParseValue(after) == Some((value, "," + tail))
    requires tail != [] && tail[0] == '"'
    requires ParseMembers(tail) == Some((more, rest))
    ensures ParseMembers(s) == Some((map[key := value] + more, rest))
  {
    SkipNothing(":" + after);
    assert (":" + after)[1..] == after;
    SkipNothing(after);
    SkipNothing("," + tail);
    assert ("," + tail)[1..] == tail;
    SkipNothing(tail);
  }

  /** The fields of `fields` named by `keys`. */
  ghost function Restrict(fields: map<string, Json>, keys: set<string>): map<string, Json>
    requires keys <= fields.Keys
  {
    map j | j in keys :: fields[j]
  }

  /** The fields named by `keys` are the first key's field plus the others. */
  lemma FieldsSplit(fields: map<string, Json>, keys: set<string>, k: string)
    requires k in keys && keys <= fields.Keys
    ensures keys == {k} ==> Restrict(fields, keys) == map[k := fields[k]]
    ensures keys != {k} ==> Restrict(fields, keys) == map[k := fields[k]] + Restrict(fields, keys - {k})
  {
    if keys == {k} {
      assert Restrict(fields, keys) == map[k := fields[k]];
    }
  }

  /** What follows the first member's value in the serialized `keys`. */
  ghost function MemberFollow(v: Json, keys: set<string>, rest: string): string
    requires v.JObj? && keys != {} && keys <= v.fields.Keys
  {
    var k := PickKey(keys);
    if keys == {k} then "}" + rest else "," + (SerializeMembers(v, keys - {k}) + "}" + rest)
  }

  /** A quoted key, a colon and a value, then whatever follows. */
  lemma QuotedMember(k: string, value: string, follow: string)
    ensures "\"" + k + "\":" + value + follow == "\"" + (k + "\"" + (":" + (value + follow)))
  {
  }

  /** The serialized `keys` split at the first member's key. */
  lemma MembersText(v: Json, keys: set<string>, rest: string)
    requires v.JObj? && keys != {} && keys <= v.fields.Keys
    ensures var k := PickKey(keys);
            var after := Serialize(v.fields[k]) + MemberFollow(v, keys, rest);
            SerializeMembers(v, keys) + "}" + rest == "\"" + (k + "\"" + (":" + after))
  {
    var k := PickKey(keys);
    var value := Serialize(v.fields[k]);
    var member := "\"" + k + "\":" + value;
    var follow := MemberFollow(v, keys, rest);
    MemberThenFollow(v, keys, rest);
    QuotedMember(k, value, follow);
  }

  /** The serialized `keys` and what follows: the first member, then what
      follows it. */
  lemma MemberThenFollow(v: Json, keys: set<string>, rest: string)
    requires v.JObj? && keys != {} && keys <= v.fields.Keys
    ensures var k := PickKey(keys);
            SerializeMembers(v, keys) + "}" + rest
              == "\"" + k + "\":" + Serialize(v.fields[k]) + MemberFollow(v, keys, rest)
  {
    var k := PickKey(keys);
    if keys != {k} {
      var others := SerializeMembers(v, keys - {k});
    }
  }

  /** The first member of the serialized `keys`: its key and value read back,
      and what follows the value. */
  lemma MemberHead(v: Json, keys: set<string>, rest: string) returns (after: string)
    requires v.JObj? && keys != {} && keys <= v.fields.Keys
    requires Plain(v) && Delimited(rest)
    ensures var s := SerializeMembers(v, keys) + "}" + rest;
            s != [] && s[0] == '"' && ParseString(s[1..]) == Some((PickKey(keys), ":" + after))
    ensures after != [] && !IsWs(after[0])
    ensures ParseValue(after) == Some((v.fields[PickKey(keys)], MemberFollow(v, keys, rest)))
    decreases v, 0, keys, 0
  {
    var k := PickKey(keys);
    var value := v.fields[k];
    var follow := MemberFollow(v, keys, rest);
    after := Serialize(value) + follow;
    MembersText(v, keys, rest);
    var s := "\"" + (k + "\"" + (":" + after));
    assert s[1..] == k + "\"" + (":" + after);
    assert PlainText(k);
    StringRoundTrip(k, ":" + after);
    SerializeStart(value);
    assert Delimited(follow);
    ValueRoundTrip(value, follow);
  }

  /** The members of object `v` named by `keys`, then `}`, read back as written. */
  lemma {:induction false} MembersRoundTrip(v: Json, keys: set<string>, rest: string)
    requires v.JObj? && keys != {} && keys <= v.fields.Keys
    requires Plain(v) && Delimited(rest)
    ensures ParseMembers(SerializeMembers(v, keys) + "}" + rest) == Some((Restrict(v.fields, keys), rest))
    decreases v, 0, keys, 1
  {
    var k := PickKey(keys);
    var s := SerializeMembers(v, keys) + "}" + rest;
    var after := MemberHead(v, keys, rest);
    FieldsSplit(v.fields, keys, k);
    if keys == {k} {
      MemberLast(s, k, after, v.fields[k], rest);
    } else {
      MembersRoundTrip(v, keys - {k}, rest);
      MembersStart(v, keys - {k});
      MemberMore(s, k, after, v.fields[k], SerializeMembers(v, keys - {k}) + "}" + rest,
                 Restrict(v.fields, keys - {k}), rest);
    }
  }

  /** `JSON.parse(JSON.stringify(v))` gives back `v`. */
  lemma {:induction false} ParseSerialize(v: Json)
    requires Plain(v)
    ensures Parse(Serialize(v)) == Some(v)
  {
    SerializeStart(v);
    ValueRoundTrip(v, "");
    assert Serialize(v) + "" == Serialize(v);
  }
}
