/** Values of `JsonValue` without reals, how they are printed and how text is parsed (`JsonValue.cpp`). */
module JsonText {

  datatype Json =
    | Array(items: seq<Json>)
    | Bool(b: bool)
    | Integer(i: int)
    | Nil
    | Object(members: seq<Member>)
    | String(s: string)

  datatype Member = Member(key: string, value: Json)

  const MIN_INTEGER: int := -0x8000_0000_0000_0000
  const MAX_INTEGER: int := 0x7fff_ffff_ffff_ffff

  // ---- Well-formed values ----

  /** The order of `std::string` keys. */
  predicate Less(a: string, b: string) {
    if b == "" then false
    else if a == "" then true
    else a[0] < b[0] || (a[0] == b[0] && Less(a[1..], b[1..]))
  }

  lemma {:induction false} LessAsymmetric(a: string, b: string)
    requires Less(a, b)
    ensures !Less(b, a) && a != b
  {
    if a != "" && a[0] == b[0] {
      LessAsymmetric(a[1..], b[1..]);
    }
  }

  lemma {:induction false} LessTransitive(a: string, b: string, c: string)
    requires Less(a, b) && Less(b, c)
    ensures Less(a, c)
  {
    if a != "" && a[0] == b[0] == c[0] {
      LessTransitive(a[1..], b[1..], c[1..]);
    }
  }

  /** What the C++ types guarantee: 64-bit integers, and a map's keys in ascending order. */
  predicate Formed(v: Json) {
    match v
    case Array(items) => forall i :: 0 <= i < |items| ==> Formed(items[i])
    case Integer(i) => MIN_INTEGER <= i <= MAX_INTEGER
    case Object(ms) => Ascending(ms) && forall i :: 0 <= i < |ms| ==> Formed(ms[i].value)
    case _ => true
  }

  predicate Ascending(ms: seq<Member>) {
    forall i, j :: 0 <= i < j < |ms| ==> Less(ms[i].key, ms[j].key)
  }

  /** A token that a quote ends: no bare quote, and every backslash is followed by a character. */
  predicate EscapeClosed(s: string) {
    if s == "" then true
    else if s[0] == '"' then false
    else if s[0] == '\\' then |s| >= 2 && EscapeClosed(s[2..])
    else EscapeClosed(s[1..])
  }

  predicate Closed(v: Json) {
    match v
    case Array(items) => forall i :: 0 <= i < |items| ==> Closed(items[i])
    case Object(ms) => forall i :: 0 <= i < |ms| ==> EscapeClosed(ms[i].key) && Closed(ms[i].value)
    case String(s) => EscapeClosed(s)
    case _ => true
  }

  // ---- Printing ----

  function DigitChar(d: nat): (c: char)
    requires d < 10
    ensures IsDigit(c) && c as int == 48 + d
  {
    (48 + d) as char
  }

  predicate IsDigit(c: char) {
    '0' <= c <= '9'
  }

  function Decimal(n: nat): (r: string)
    ensures |r| > 0 && forall i :: 0 <= i < |r| ==> IsDigit(r[i])
    ensures |r| > 1 ==> r[0] != '0'
  {
    if n < 10 then [DigitChar(n)] else Decimal(n / 10) + [DigitChar(n % 10)]
  }

  function PrintInteger(i: int): (r: string) {
    if i < 0 then "-" + Decimal(-i) else Decimal(i)
  }

  /** `operator<<`: strings and keys are written raw between quotes. */
  function Print(v: Json): (r: string)
    decreases v, 1
  {
    match v
    case Array(items) => "[" + PrintItems(items, true) + "]"
    case Bool(b) => if b then "true" else "false"
    case Integer(i) => PrintInteger(i)
    case Nil => "null"
    case Object(ms) => "{" + PrintMembers(ms, true) + "}"
    case String(s) => "\"" + s + "\""
  }

  function PrintItems(items: seq<Json>, first: bool): (r: string)
    decreases items, 0
  {
    if items == [] then ""
    else (if first then "" else ",") + Print(items[0]) + PrintItems(items[1..], false)
  }

  function PrintMembers(ms: seq<Member>, first: bool): (r: string)
    decreases ms, 0
  {
    if ms == [] then ""
    else (if first then "" else ",") + "\"" + ms[0].key + "\":" + Print(ms[0].value) + PrintMembers(ms[1..], false)
  }

  // ---- Parsing ----

  /** `RealNumber`: a number with a decimal point, which this model does not represent. */
  datatype Error = Malformed | RealNumber

  datatype Result<+T> = Ok(value: T, rest: string) | Failed(error: Error)

  predicate IsSpace(c: char) {
    c == ' ' || '\t' <= c <= '\r'
  }

  function SkipSpace(s: string): (r: string)
    ensures |r| <= |s|
    ensures r != "" ==> !IsSpace(r[0])
    ensures s != "" && !IsSpace(s[0]) ==> r == s
  {
    if s != "" && IsSpace(s[0]) then SkipSpace(s[1..]) else s
  }

  /** `readStringToken`: up to the first quote that no backslash precedes. */
  function Token(s: string): (r: Result<string>)
    ensures r.Ok? ==> |r.rest| < |s|
  {
    if s == "" then Failed(Malformed)
    else if s[0] == '"' then Ok("", s[1..])
    else if s[0] == '\\' then
      if |s| < 2 then Failed(Malformed) else Prefixed(s[..2], Token(s[2..]))
    else Prefixed(s[..1], Token(s[1..]))
  }

  function Prefixed(p: string, r: Result<string>): Result<string> {
    if r.Ok? then Ok(p + r.value, r.rest) else r
  }

  /** The length of the digits and points that follow. */
  function NumberLength(s: string): (n: nat)
    ensures n <= |s|
    ensures forall i :: 0 <= i < n ==> IsDigit(s[i]) || s[i] == '.'
    ensures n < |s| ==> !IsDigit(s[n]) && s[n] != '.'
  {
    if s != "" && (IsDigit(s[0]) || s[0] == '.') then 1 + NumberLength(s[1..]) else 0
  }

  function DigitsValue(s: string): (r: nat)
    requires forall i :: 0 <= i < |s| ==> IsDigit(s[i])
  {
    if s == "" then 0
    else
      assert IsDigit(s[|s| - 1]);
      10 * DigitsValue(s[..|s| - 1]) + (s[|s| - 1] as int - 48)
  }

  /** Extraction of a 64-bit integer from text: saturating, and 0 for a lone sign. */
  function TextValue(text: string): (r: int)
    requires text != "" && (text[0] == '-' || IsDigit(text[0])) && forall i :: 1 <= i < |text| ==> IsDigit(text[i])
    ensures MIN_INTEGER <= r <= MAX_INTEGER
  {
    var size: int := if text[0] == '-' then DigitsValue(text[1..]) else DigitsValue(text);
    var v := if text[0] == '-' then -size else size;
    if v < MIN_INTEGER then MIN_INTEGER else if v > MAX_INTEGER then MAX_INTEGER else v
  }

  function ParseNumber(c: char, s: string): (r: Result<Json>)
    requires c == '-' || IsDigit(c)
    ensures r.Ok? ==> |r.rest| <= |s|
  {
    var n := NumberLength(s);
    var text := [c] + s[..n];
    if '.' in text then Failed(RealNumber)
    else if |text| > 1 && (text[0] == '0' || (text[0] == '-' && text[1] == '0')) then Failed(Malformed)
    else Ok(Integer(TextValue(text)), s[n..])
  }

  function ParseWord(word: string, v: Json, s: string): (r: Result<Json>)
    ensures r.Ok? ==> |r.rest| <= |s|
  {
    if |s| >= |word| && s[..|word|] == word then Ok(v, s[|word|..]) else Failed(Malformed)
  }

  /** `operator>>`: the value at the start of the text, and the text after it. */
  function ParseValue(s: string): (r: Result<Json>)
    ensures r.Ok? ==> |r.rest| < |s|
    decreases |s|, 0
  {
    var t := SkipSpace(s);
    if t == "" then Failed(Malformed)
    else
      var c, u := t[0], t[1..];
      if c == '[' then ParseArray(u)
      else if c == 't' then ParseWord("rue", Bool(true), u)
      else if c == 'f' then ParseWord("alse", Bool(false), u)
      else if c == '-' || IsDigit(c) then ParseNumber(c, u)
      else if c == 'n' then ParseWord("ull", Nil, u)
      else if c == '{' then ParseObject(u)
      else if c == '"' then
        var r := Token(u);
        if r.Ok? then Ok(String(r.value), r.rest) else Failed(r.error)
      else Failed(Malformed)
  }

  function ParseArray(s: string): (r: Result<Json>)
    ensures r.Ok? ==> |r.rest| <= |s|
    decreases |s|, 3
  {
    var t := SkipSpace(s);
    if t == "" then Failed(Malformed)
    else if t[0] == ']' then Ok(Array([]), t[1..])
    else ParseItems(t, [])
  }

  function ParseItems(s: string, done: seq<Json>): (r: Result<Json>)
    ensures r.Ok? ==> |r.rest| <= |s|
    decreases |s|, 1
  {
    var v := ParseValue(s);
    if v.Failed? then v
    else
      var t := SkipSpace(v.rest);
      if t == "" then Failed(Malformed)
      else if t[0] == ']' then Ok(Array(done + [v.value]), t[1..])
      else if t[0] == ',' then ParseItems(t[1..], done + [v.value])
      else Failed(Malformed)
  }

  /** `value[name]` of a map: a new member in key order, or the old one overwritten. */
  function Insert(ms: seq<Member>, key: string, v: Json): (r: seq<Member>) {
    if ms == [] then [Member(key, v)]
    else if ms[0].key == key then [Member(key, v)] + ms[1..]
    else if Less(key, ms[0].key) then [Member(key, v)] + ms
    else [ms[0]] + Insert(ms[1..], key, v)
  }

  function ParseObject(s: string): (r: Result<Json>)
    ensures r.Ok? ==> |r.rest| <= |s|
    decreases |s|, 3
  {
    var t := SkipSpace(s);
    if t == "" then Failed(Malformed)
    else if t[0] == '}' then Ok(Object([]), t[1..])
    else ParseMembers(t, [])
  }

  /** A quoted name, a colon and a value. */
  function ParseMember(s: string): (r: Result<Member>)
    requires s != ""
    ensures r.Ok? ==> |r.rest| < |s|
    decreases |s|, 1
  {
    if s[0] != '"' then Failed(Malformed)
    else
      var name := Token(s[1..]);
      if name.Failed? then Failed(name.error)
      else
        var t := SkipSpace(name.rest);
        if t == "" || t[0] != ':' then Failed(Malformed)
        else
          var v := ParseValue(t[1..]);
          if v.Failed? then Failed(v.error) else Ok(Member(name.value, v.value), v.rest)
  }

  function ParseMembers(s: string, done: seq<Member>): (r: Result<Json>)
    requires s != ""
    ensures r.Ok? ==> |r.rest| <= |s|
    decreases |s|, 2
  {
    var m := ParseMember(s);
    if m.Failed? then Failed(m.error)
    else
      var all, u := Insert(done, m.value.key, m.value.value), SkipSpace(m.rest);
      if u == "" then Failed(Malformed)
      else if u[0] == '}' then Ok(Object(all), u[1..])
      else if u[0] != ',' then Failed(Malformed)
      else
        var w := SkipSpace(u[1..]);
        if w == "" then Failed(Malformed) else ParseMembers(w, all)
  }
}
