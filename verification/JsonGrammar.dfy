/** The texts that are JSON values, with spaces anywhere between tokens, and that parsing accepts exactly these. */
module JsonGrammar {
  import opened JsonText
  import opened JsonRoundTrip

  // ---- Documents ----

  /** A value with the spaces that a text puts before it. */
  datatype Doc = Doc(spaces: string, body: Body)

  datatype Body =
    | True
    | False
    | Null
    | Number(text: string)
    | Quoted(s: string)
    | NoItems(inner: string)
    | Items(items: seq<Item>)
    | NoMembers(inner: string)
    | Members(fields: seq<Field>)

  /** A value and the spaces after it, before the comma or the closing bracket. */
  datatype Item = Item(doc: Doc, after: string)

  /** Spaces, a quoted name, spaces before the colon, a value, and the spaces after it. */
  datatype Field = Field(before: string, key: string, afterKey: string, doc: Doc, after: string)

  /** The six characters that `isspace` accepts. */
  predicate Blank(s: string) {
    forall i :: 0 <= i < |s| ==> s[i] in {' ', '\t', '\n', 11 as char, 12 as char, '\r'}
  }

  /** An optional sign and digits, without a leading zero; a lone sign counts. */
  predicate NumberText(s: string) {
    && s != "" && (s[0] == '-' || IsDigit(s[0])) && (forall i :: 1 <= i < |s| ==> IsDigit(s[i]))
    && (|s| > 1 ==> s[0] != '0' && !(s[0] == '-' && s[1] == '0'))
  }

  predicate Proper(d: Doc) {
    Blank(d.spaces) && ProperBody(d.body)
  }

  predicate ProperBody(b: Body) {
    match b
    case Number(text) => NumberText(text)
    case Quoted(s) => EscapeClosed(s)
    case NoItems(inner) => Blank(inner)
    case Items(items) => items != [] && forall i :: 0 <= i < |items| ==> ProperItem(items[i])
    case NoMembers(inner) => Blank(inner)
    case Members(fields) => fields != [] && forall i :: 0 <= i < |fields| ==> ProperField(fields[i])
    case _ => true
  }

  predicate ProperItem(i: Item) {
    Proper(i.doc) && Blank(i.after)
  }

  predicate ProperField(f: Field) {
    Blank(f.before) && EscapeClosed(f.key) && Blank(f.afterKey) && Proper(f.doc) && Blank(f.after)
  }

  // ---- Texts and values ----

  function Text(d: Doc): string {
    d.spaces + BodyText(d.body)
  }

  function BodyText(b: Body): string {
    match b
    case True => "true"
    case False => "false"
    case Null => "null"
    case Number(text) => text
    case Quoted(s) => "\"" + s + "\""
    case NoItems(inner) => "[" + inner + "]"
    case Items(items) => "[" + ItemsText(items) + "]"
    case NoMembers(inner) => "{" + inner + "}"
    case Members(fields) => "{" + FieldsText(fields) + "}"
  }

  function ItemsText(items: seq<Item>): string {
    if items == [] then ""
    else Text(items[0].doc) + items[0].after + (if |items| == 1 then "" else "," + ItemsText(items[1..]))
  }

  function FieldsText(fields: seq<Field>): string {
    if fields == [] then ""
    else
      var f := fields[0];
      f.before + "\"" + f.key + "\"" + f.afterKey + ":" + Text(f.doc) + f.after
      + (if |fields| == 1 then "" else "," + FieldsText(fields[1..]))
  }

  /** The value that a number stands for, cut off at the ends of the 64-bit range; a lone sign is 0. */
  function NumberValue(text: string): int
    requires NumberText(text)
  {
    var n: int := DigitsValue(if text[0] == '-' then text[1..] else text);
    if text[0] == '-' then (if -n < MIN_INTEGER then MIN_INTEGER else -n)
    else (if n > MAX_INTEGER then MAX_INTEGER else n)
  }

  function Meaning(d: Doc): Json
    requires Proper(d)
  {
    BodyMeaning(d.body)
  }

  function BodyMeaning(b: Body): Json
    requires ProperBody(b)
  {
    match b
    case True => Bool(true)
    case False => Bool(false)
    case Null => Nil
    case Number(text) => Integer(NumberValue(text))
    case Quoted(s) => String(s)
    case NoItems(_) => Array([])
    case Items(items) => Array(ItemsMeaning(items))
    case NoMembers(_) => Object([])
    case Members(fields) => Object(FieldsMeaning(fields))
  }

  function ItemsMeaning(items: seq<Item>): (r: seq<Json>)
    requires forall i :: 0 <= i < |items| ==> ProperItem(items[i])
  {
    if items == [] then []
    else
      assert ProperItem(items[0]);
      [Meaning(items[0].doc)] + ItemsMeaning(items[1..])
  }

  /** Members in key order; of several with one name the last counts. */
  function FieldsMeaning(fields: seq<Field>): (r: seq<Member>)
    requires forall i :: 0 <= i < |fields| ==> ProperField(fields[i])
  {
    if fields == [] then []
    else
      var n := |fields| - 1;
      assert ProperField(fields[n]);
      Insert(FieldsMeaning(fields[..n]), fields[n].key, Meaning(fields[n].doc))
  }

  // ---- Spaces ----

  /** `isspace` in the C locale: the blank, and the characters from tab to carriage return. */
  lemma {:induction false} SpacesAre(c: char)
    ensures IsSpace(c) <==> c in {' ', '\t', '\n', 11 as char, 12 as char, '\r'}
  {
  }

  lemma {:induction false} SkipBlank(w: string, t: string)
    requires Blank(w)
    ensures SkipSpace(w + t) == SkipSpace(t)
  {
    if w == "" {
      assert w + t == t;
    } else {
      SpacesAre(w[0]);
      SkipBlank(w[1..], t);
      assert (w + t)[1..] == w[1..] + t;
    }
  }

  /** Spaces before a value do not matter. */
  lemma {:induction false} SpacesBefore(w: string, t: string)
    requires Blank(w)
    ensures ParseValue(w + t) == ParseValue(t)
  {
    hide SkipSpace;
    SkipBlank(w, t);
  }

  /** The spaces that are skipped. */
  lemma {:induction false} SkippedSpaces(s: string) returns (w: string)
    ensures Blank(w) && s == w + SkipSpace(s)
  {
    if s != "" && IsSpace(s[0]) {
      SpacesAre(s[0]);
      w := SkippedSpaces(s[1..]);
      w := [s[0]] + w;
    } else {
      w := "";
    }
  }

  /** Between a value and the comma or bracket after it there may be spaces. */
  lemma {:induction false} SkipTo(w: string, c: char, t: string)
    requires Blank(w) && !IsSpace(c)
    ensures SkipSpace(w + ([c] + t)) == [c] + t
    ensures !IsDigit(c) && c != '.' ==> EndsNumber(w + ([c] + t))
  {
    SkipBlank(w, [c] + t);
    if w != "" {
      SpacesAre(w[0]);
    }
  }

  // ---- Proper texts are parsed ----

  lemma {:induction false} NumberParses(text: string, rest: string)
    requires NumberText(text) && EndsNumber(rest)
    ensures ParseValue(text + rest) == Ok(Integer(NumberValue(text)), rest)
  {
    NumberLengthOf(text[1..], rest);
    var u := text[1..] + rest;
    assert (text + rest)[1..] == u && u[..|text| - 1] == text[1..] && u[|text| - 1..] == rest;
    assert [text[0]] + text[1..] == text;
    NumberStep(text + rest);
    NumberParsed(text, u, rest);
  }

  lemma {:induction false} NumberParsed(text: string, u: string, rest: string)
    requires NumberText(text) && NumberLength(u) == |text| - 1 && u[..|text| - 1] == text[1..]
    requires u[|text| - 1..] == rest
    ensures ParseNumber(text[0], u) == Ok(Integer(NumberValue(text)), rest)
  {
    assert [text[0]] + text[1..] == text;
    assert '.' !in text;
  }

  lemma {:induction false} WordParses(b: Body, rest: string)
    requires b.True? || b.False? || b.Null?
    ensures ParseValue(BodyText(b) + rest) == Ok(BodyMeaning(b), rest)
  {
    WordRoundTrip(BodyMeaning(b), rest);
  }

  ghost predicate EndsBody(b: Body, rest: string) {
    b.Number? ==> EndsNumber(rest)
  }

  lemma {:induction false} DocParses(d: Doc, rest: string)
    requires Proper(d) && EndsBody(d.body, rest)
    ensures ParseValue(Text(d) + rest) == Ok(Meaning(d), rest)
    decreases d, 1
  {
    SpacesBefore(d.spaces, BodyText(d.body) + rest);
    assert Text(d) + rest == d.spaces + (BodyText(d.body) + rest);
    hide ParseValue, SkipSpace, Blank, BodyText, BodyMeaning;
    BodyParses(d.body, rest);
  }

  lemma {:induction false} BodyParses(b: Body, rest: string)
    requires ProperBody(b) && EndsBody(b, rest)
    ensures ParseValue(BodyText(b) + rest) == Ok(BodyMeaning(b), rest)
    decreases b, 3
  {
    hide ParseValue;
    match b {
      case Number(text) => NumberParses(text, rest);
      case Quoted(s) => StringRoundTrip(s, rest);
      case NoItems(inner) => BracketsParse('[', inner, ']', rest);
      case Items(items) => ItemsBodyParses(items, rest);
      case NoMembers(inner) => BracketsParse('{', inner, '}', rest);
      case Members(fields) => FieldsBodyParses(fields, rest);
      case _ => WordParses(b, rest);
    }
  }

  lemma {:induction false} BracketsParse(open: char, inner: string, close: char, rest: string)
    requires (open == '[' && close == ']') || (open == '{' && close == '}')
    requires Blank(inner)
    ensures ParseValue([open] + inner + [close] + rest) == Ok(if open == '[' then Array([]) else Object([]), rest)
  {
    var t := [open] + inner + [close] + rest;
    assert t[1..] == inner + ([close] + rest) && SkipSpace(t) == t;
    SkipTo(inner, close, rest);
    hide SkipSpace;
  }

  lemma {:induction false} ItemsBodyParses(items: seq<Item>, rest: string)
    requires items != [] && forall i :: 0 <= i < |items| ==> ProperItem(items[i])
    ensures ParseValue("[" + ItemsText(items) + "]" + rest) == Ok(Array(ItemsMeaning(items)), rest)
    decreases items, 2
  {
    var u := ItemsText(items) + "]" + rest;
    var t := "[" + ItemsText(items) + "]" + rest;
    assert t[0] == '[' && t[1..] == u;
    ItemsParse(items, [], rest);
    assert [] + ItemsMeaning(items) == ItemsMeaning(items);
    ArrayOpens(items, t, u);
  }

  /** A value starts with neither a space nor a closing bracket. */
  lemma {:induction false} BodyStart(b: Body)
    requires ProperBody(b)
    ensures BodyText(b) != "" && var c := BodyText(b)[0]; !IsSpace(c) && c != ']' && c != '}'
  {
  }

  lemma {:induction false} ArrayOpens(items: seq<Item>, t: string, u: string)
    requires items != [] && ProperItem(items[0]) && t != "" && t[0] == '[' && t[1..] == u
    requires ItemsText(items) <= u
    ensures ParseValue(t) == ParseItems(u, [])
  {
    var w, body := items[0].doc.spaces, BodyText(items[0].doc.body);
    BodyStart(items[0].doc.body);
    var v := u[|w|..];
    assert Text(items[0].doc) == w + body && Text(items[0].doc) <= ItemsText(items);
    assert u == w + v && v[0] == body[0];
    hide BodyText, ItemsText, Text;
    SkipBlank(w, v);
    assert SkipSpace(v) == v && SkipSpace(t) == t;
    SpacesBefore(w, v);
    hide SkipSpace, ParseValue;
    OpenItems(t, u, v);
  }

  lemma {:induction false} OpenItems(t: string, u: string, v: string)
    requires t != "" && t[0] == '[' && t[1..] == u && SkipSpace(t) == t
    requires SkipSpace(u) == v && v != "" && v[0] != ']' && ParseValue(u) == ParseValue(v)
    ensures ParseValue(t) == ParseItems(u, [])
  {
    assert ParseValue(t) == ParseArray(u) by { hide ParseArray, SkipSpace; }
    assert ParseArray(u) == ParseItems(v, []) by { hide ParseItems, SkipSpace, ParseValue; }
    assert ParseItems(v, []) == ParseItems(u, []) by { hide ParseValue, SkipSpace; }
  }

  lemma {:induction false} ItemsUnfold(items: seq<Item>, rest: string) returns (next: string, tail: string)
    requires items != []
    ensures ItemsText(items) + "]" + rest == Text(items[0].doc) + next && next == items[0].after + tail
    ensures |items| == 1 ==> tail == "]" + rest
    ensures |items| > 1 ==> tail == "," + (ItemsText(items[1..]) + "]" + rest)
  {
    tail := if |items| == 1 then "]" + rest else "," + (ItemsText(items[1..]) + "]" + rest);
    next := items[0].after + tail;
    var a, b := Text(items[0].doc), items[0].after;
    if |items| == 1 {
      assert ItemsText(items) == a + b + "";
    } else {
      var more := ItemsText(items[1..]);
      assert ItemsText(items) == a + b + ("," + more);
      hide Text, ItemsText;
      assert a + b + ("," + more) + "]" + rest == a + (b + ("," + (more + "]" + rest)));
    }
  }

  lemma {:induction false} ItemsParse(items: seq<Item>, done: seq<Json>, rest: string)
    requires items != [] && forall i :: 0 <= i < |items| ==> ProperItem(items[i])
    ensures ParseItems(ItemsText(items) + "]" + rest, done) == Ok(Array(done + ItemsMeaning(items)), rest)
    decreases items, 1
  {
    hide ParseValue, ParseItems, SkipSpace, Text, ItemsText, Blank, Meaning;
    var next, tail := ItemsUnfold(items, rest);
    assert ProperItem(items[0]);
    var d, v := items[0].doc, Meaning(items[0].doc);
    var more := items[1..];
    SkipTo(items[0].after, tail[0], tail[1..]);
    assert tail == [tail[0]] + tail[1..];
    DocParses(d, next);
    NextItem(ItemsText(items) + "]" + rest, done, v, next, tail);
    assert ItemsMeaning(items) == [v] + ItemsMeaning(more);
    if more == [] {
      assert tail[1..] == rest;
      assert done + [v] == done + ItemsMeaning(items);
    } else {
      assert tail[1..] == ItemsText(more) + "]" + rest;
      ItemsParse(more, done + [v], rest);
      assert done + [v] + ItemsMeaning(more) == done + ItemsMeaning(items);
    }
  }

  lemma {:induction false} NextItem(s: string, done: seq<Json>, v: Json, next: string, tail: string)
    requires ParseValue(s) == Ok(v, next) && SkipSpace(next) == tail && tail != "" && (tail[0] == ']' || tail[0] == ',')
    ensures ParseItems(s, done)
            == if tail[0] == ']' then Ok(Array(done + [v]), tail[1..]) else ParseItems(tail[1..], done + [v])
  {
    hide ParseValue, SkipSpace;
  }

  // ---- Objects ----

  /** A member's text from its opening quote on. */
  function FieldTail(f: Field): string {
    "\"" + (f.key + "\"" + (f.afterKey + (":" + (Text(f.doc) + f.after))))
  }

  /** The text of the members from `k` on, from the opening quote of the first. */
  function FromField(fields: seq<Field>, k: nat): string
    requires k < |fields|
  {
    FieldTail(fields[k]) + (if k == |fields| - 1 then "" else "," + FieldsText(fields[k + 1..]))
  }

  lemma {:induction false} FieldsUnfold(fields: seq<Field>, k: nat)
    requires k < |fields|
    ensures FieldsText(fields[k..]) == fields[k].before + FromField(fields, k)
  {
    var f, up := fields[k], fields[k..];
    assert up[0] == f && up[1..] == fields[k + 1..];
    var a, b := Text(f.doc), if k == |fields| - 1 then "" else "," + FieldsText(fields[k + 1..]);
    assert FieldsText(up) == f.before + "\"" + f.key + "\"" + f.afterKey + ":" + a + f.after + b;
    hide Text, FieldsText;
    assert f.before + "\"" + f.key + "\"" + f.afterKey + ":" + a + f.after + b
        == f.before + ("\"" + (f.key + "\"" + (f.afterKey + (":" + (a + f.after)))) + b);
  }

  lemma {:induction false} FieldsBodyParses(fields: seq<Field>, rest: string)
    requires fields != [] && forall i :: 0 <= i < |fields| ==> ProperField(fields[i])
    ensures ParseValue("{" + FieldsText(fields) + "}" + rest) == Ok(Object(FieldsMeaning(fields)), rest)
    decreases fields, 2
  {
    hide ParseValue, ParseMembers, SkipSpace, Text, FieldsText, Blank;
    var t := "{" + FieldsText(fields) + "}" + rest;
    FieldsUnfold(fields, 0);
    assert fields[0..] == fields && fields[..0] == [];
    var from := FromField(fields, 0) + "}" + rest;
    assert ProperField(fields[0]);
    assert t[1..] == fields[0].before + from;
    assert from[0] == '"' && from == [from[0]] + from[1..];
    QuoteIsNotSpace();
    SkipTo(fields[0].before, from[0], from[1..]);
    FieldsParse(fields, 0, rest);
    OpenMembers(t, t[1..], from);
  }

  lemma {:induction false} OpenMembers(t: string, u: string, v: string)
    requires t != "" && t[0] == '{' && t[1..] == u && SkipSpace(u) == v && v != "" && v[0] != '}'
    ensures ParseValue(t) == ParseMembers(v, [])
  {
    assert SkipSpace(t) == t;
    assert ParseValue(t) == ParseObject(u) by { hide ParseObject, SkipSpace; }
    assert ParseObject(u) == ParseMembers(v, []) by { hide ParseMembers, SkipSpace, ParseValue; }
  }

  lemma {:induction false} FieldsParse(fields: seq<Field>, k: nat, rest: string)
    requires k < |fields| && forall i :: 0 <= i < |fields| ==> ProperField(fields[i])
    ensures ParseMembers(FromField(fields, k) + "}" + rest, FieldsMeaning(fields[..k]))
            == Ok(Object(FieldsMeaning(fields)), rest)
    decreases fields, 1, |fields| - k
  {
    hide ParseValue, ParseMembers, SkipSpace, Text, FieldsText, Blank, Meaning, Insert, Token, EscapeClosed;
    var f := fields[k];
    assert ProperField(f);
    var last := k == |fields| - 1;
    var tail := if last then "}" + rest else "," + (FieldsText(fields[k + 1..]) + "}" + rest);
    var next, s := f.after + tail, FromField(fields, k) + "}" + rest;
    var body := f.afterKey + (":" + (Text(f.doc) + next));
    FieldLayout(f, if last then "" else "," + FieldsText(fields[k + 1..]), rest, tail, next, body, s);
    SkipTo(f.after, tail[0], tail[1..]);
    assert tail == [tail[0]] + tail[1..];
    DocParses(f.doc, next);
    TokenRoundTrip(f.key, body);
    SkipTo(f.afterKey, ':', Text(f.doc) + next);
    assert [':'] + (Text(f.doc) + next) == ":" + (Text(f.doc) + next);
    var done := FieldsMeaning(fields[..k]);
    FieldParses(s, f, body, next);
    MeaningStep(fields, k);
    if last {
      LastField(s, done, f, next, tail);
      LastTail(fields, rest);
    } else {
      var from := NextField(fields, k + 1, rest, tail);
      MoreFields(s, done, f, next, tail, from);
      FieldsParse(fields, k + 1, rest);
    }
  }

  lemma {:induction false} LastTail(fields: seq<Field>, rest: string)
    ensures fields[..|fields|] == fields && ("}" + rest)[1..] == rest
  {
    hide *;
  }

  /** The member at `k` follows the comma, after its own spaces. */
  lemma {:induction false} NextField(fields: seq<Field>, k: nat, rest: string, tail: string) returns (from: string)
    requires k < |fields| && ProperField(fields[k]) && tail == "," + (FieldsText(fields[k..]) + "}" + rest)
    ensures from == FromField(fields, k) + "}" + rest && from != ""
    ensures tail[0] == ',' && SkipSpace(tail[1..]) == from
  {
    hide SkipSpace, Blank, Text, FieldsText;
    from := FromField(fields, k) + "}" + rest;
    var w := fields[k].before;
    FieldsUnfold(fields, k);
    assert tail[1..] == w + from;
    assert FieldTail(fields[k])[0] == '"';
    hide FromField, FieldTail;
    assert from[0] == '"' && from == [from[0]] + from[1..];
    QuoteIsNotSpace();
    SkipTo(w, from[0], from[1..]);
  }

  lemma {:induction false} FieldLayout(f: Field, more: string, rest: string, tail: string, next: string, body: string,
                                       s: string)
    requires tail == more + ("}" + rest) && next == f.after + tail
    requires body == f.afterKey + (":" + (Text(f.doc) + next)) && s == FieldTail(f) + more + "}" + rest
    ensures s != "" && s[0] == '"' && s[1..] == f.key + "\"" + body
  {
    hide Text;
    var a := Text(f.doc);
    assert s == "\"" + (f.key + "\"" + (f.afterKey + (":" + (a + (f.after + (more + ("}" + rest)))))));
  }

  lemma {:induction false} MeaningStep(fields: seq<Field>, k: nat)
    requires k < |fields| && forall i :: 0 <= i < |fields| ==> ProperField(fields[i])
    ensures ProperField(fields[k])
    ensures FieldsMeaning(fields[..k + 1]) == Insert(FieldsMeaning(fields[..k]), fields[k].key, Meaning(fields[k].doc))
  {
    hide Insert, Meaning, ProperField;
    assert fields[..k + 1][..k] == fields[..k];
  }

  lemma {:induction false} FieldParses(s: string, f: Field, body: string, next: string)
    requires ProperField(f) && s != "" && s[0] == '"' && Token(s[1..]) == Ok(f.key, body)
    requires SkipSpace(body) == ":" + (Text(f.doc) + next) && ParseValue(Text(f.doc) + next) == Ok(Meaning(f.doc), next)
    ensures ParseMember(s) == Ok(Member(f.key, Meaning(f.doc)), next)
  {
    hide Token, SkipSpace, ParseValue, Text, Meaning, ProperField;
    assert SkipSpace(body)[1..] == Text(f.doc) + next;
  }

  lemma {:induction false} LastField(s: string, done: seq<Member>, f: Field, next: string, tail: string)
    requires ProperField(f) && s != "" && ParseMember(s) == Ok(Member(f.key, Meaning(f.doc)), next)
    requires SkipSpace(next) == tail && tail != "" && tail[0] == '}'
    ensures ParseMembers(s, done) == Ok(Object(Insert(done, f.key, Meaning(f.doc))), tail[1..])
  {
    hide ParseMember, SkipSpace, Insert, Meaning, ProperField;
  }

  lemma {:induction false} MoreFields(s: string, done: seq<Member>, f: Field, next: string, tail: string, from: string)
    requires ProperField(f) && s != "" && ParseMember(s) == Ok(Member(f.key, Meaning(f.doc)), next)
    requires SkipSpace(next) == tail && tail != "" && tail[0] == ',' && SkipSpace(tail[1..]) == from && from != ""
    ensures ParseMembers(s, done) == ParseMembers(from, Insert(done, f.key, Meaning(f.doc)))
  {
    hide ParseMember, SkipSpace, Insert, Meaning, ProperField;
  }

  // ---- Whatever is parsed is a proper text ----

  /** `s` starts with the text of `d`, which stands for `v`, and `rest` follows. */
  ghost predicate Reads(s: string, d: Doc, v: Json, rest: string) {
    Proper(d) && s == Text(d) + rest && Meaning(d) == v && EndsBody(d.body, rest)
  }

  /** The same for a value without spaces before it. */
  ghost predicate ReadsBody(t: string, b: Body, v: Json, rest: string) {
    ProperBody(b) && t == BodyText(b) + rest && BodyMeaning(b) == v && EndsBody(b, rest)
  }

  /** A string token is what precedes its closing quote. */
  lemma {:induction false} TokenText(s: string)
    ensures Token(s).Ok? ==> s == Token(s).value + "\"" + Token(s).rest
  {
    if s != "" && s[0] != '"' {
      if s[0] == '\\' {
        if |s| >= 2 {
          TokenText(s[2..]);
          assert s == s[..2] + s[2..];
        }
      } else {
        TokenText(s[1..]);
        assert s == s[..1] + s[1..];
      }
    }
  }

  lemma {:induction false} ParsedString(t: string) returns (b: Body)
    requires t != "" && t[0] == '"' && Token(t[1..]).Ok?
    ensures ReadsBody(t, b, String(Token(t[1..]).value), Token(t[1..]).rest)
  {
    TokensAreClosed(t[1..]);
    TokenText(t[1..]);
    b := Quoted(Token(t[1..]).value);
    hide Token, EscapeClosed;
    assert t == "\"" + t[1..];
  }

  lemma {:induction false} ParsedNumber(t: string) returns (b: Body)
    requires t != "" && (t[0] == '-' || IsDigit(t[0])) && ParseNumber(t[0], t[1..]).Ok?
    ensures ReadsBody(t, b, ParseNumber(t[0], t[1..]).value, ParseNumber(t[0], t[1..]).rest)
  {
    var u := t[1..];
    var n := NumberLength(u);
    var text := [t[0]] + u[..n];
    b := Number(text);
    assert t == text + u[n..];
    assert NumberText(text) by {
      forall i | 1 <= i < |text| ensures IsDigit(text[i]) {
        assert text[i] == u[i - 1] && text[i] in text;
      }
    }
  }

  lemma {:induction false} ParsedWord(t: string, b: Body, word: string, v: Json)
    requires t != "" && ProperBody(b) && BodyText(b) == [t[0]] + word && BodyMeaning(b) == v && !b.Number?
    requires ParseWord(word, v, t[1..]).Ok?
    ensures ReadsBody(t, b, v, ParseWord(word, v, t[1..]).rest)
  {
    assert t == [t[0]] + word + t[1..][|word|..];
  }

  lemma {:induction false} ParsedDoc(s: string) returns (d: Doc)
    requires ParseValue(s).Ok?
    ensures Reads(s, d, ParseValue(s).value, ParseValue(s).rest)
    decreases |s|, 5
  {
    var w := SkippedSpaces(s);
    var b := ParsedBody(s, SkipSpace(s));
    d := Doc(w, b);
    hide ParseValue, SkipSpace;
    SpacedBody(s, SkipSpace(s), d, ParseValue(s).value, ParseValue(s).rest);
  }

  lemma {:induction false} SpacedBody(s: string, t: string, d: Doc, v: Json, rest: string)
    requires Blank(d.spaces) && s == d.spaces + t && ReadsBody(t, d.body, v, rest)
    ensures Reads(s, d, v, rest)
  {
    hide BodyText, BodyMeaning, ProperBody, Blank;
    assert d.spaces + (BodyText(d.body) + rest) == d.spaces + BodyText(d.body) + rest;
  }

  lemma {:induction false} ParsedBody(s: string, t: string) returns (b: Body)
    requires t == SkipSpace(s) && ParseValue(s).Ok?
    ensures ReadsBody(t, b, ParseValue(s).value, ParseValue(s).rest)
    decreases |s|, 4
  {
    hide ReadsBody, SkipSpace;
    var c := t[0];
    if c == '[' {
      b := ParsedArray(t);
    } else if c == '{' {
      b := ParsedObject(t);
    } else if c == '"' {
      b := ParsedString(t);
    } else if c == '-' || IsDigit(c) {
      b := ParsedNumber(t);
    } else if c == 't' {
      b := True;
      ParsedWord(t, b, "rue", Bool(true));
    } else if c == 'f' {
      b := False;
      ParsedWord(t, b, "alse", Bool(false));
    } else {
      b := Null;
      ParsedWord(t, b, "ull", Nil);
    }
  }

  // ---- Parsed arrays ----

  lemma {:induction false} ParsedArray(t: string) returns (b: Body)
    requires t != "" && t[0] == '[' && ParseArray(t[1..]).Ok?
    ensures ReadsBody(t, b, ParseArray(t[1..]).value, ParseArray(t[1..]).rest)
    decreases |t|, 3
  {
    var u := t[1..];
    var w := SkippedSpaces(u);
    var x := SkipSpace(u);
    if x[0] == ']' {
      b := NoItems(w);
      assert t == "[" + w + "]" + x[1..];
    } else {
      var items := ParsedItems(x, []);
      b := SpacedArray(t, w, x, items);
    }
  }

  /** Items whose text `x` follows the spaces `w` after the opening bracket. */
  lemma {:induction false} SpacedArray(t: string, w: string, x: string, items: seq<Item>) returns (b: Body)
    requires t != "" && t[0] == '[' && t[1..] == w + x && Blank(w)
    requires ParseItems(x, []).Ok? && ReadsItems(x, items, [], ParseItems(x, []).value, ParseItems(x, []).rest)
    ensures ReadsBody(t, b, ParseItems(x, []).value, ParseItems(x, []).rest)
  {
    hide ParseItems, ItemsText, ItemsMeaning, ProperItem, Blank;
    var rest := ParseItems(x, []).rest;
    var first := items[0].(doc := items[0].doc.(spaces := w + items[0].doc.spaces));
    var all := items[0 := first];
    b := Items(all);
    SpacedItems(items, w, first, all);
    assert [] + ItemsMeaning(all) == ItemsMeaning(all);
    assert t == "[" + (w + x);
    assert w + (ItemsText(items) + "]" + rest) == w + ItemsText(items) + "]" + rest;
  }

  lemma {:induction false} SpacedItems(items: seq<Item>, w: string, first: Item, all: seq<Item>)
    requires items != [] && Blank(w) && (forall i :: 0 <= i < |items| ==> ProperItem(items[i]))
    requires first == items[0].(doc := items[0].doc.(spaces := w + items[0].doc.spaces)) && all == items[0 := first]
    ensures forall i :: 0 <= i < |all| ==> ProperItem(all[i])
    ensures ItemsText(all) == w + ItemsText(items) && ItemsMeaning(all) == ItemsMeaning(items)
  {
    assert ProperItem(items[0]) && all[1..] == items[1..];
    assert ProperItem(first);
    forall i | 0 <= i < |all| ensures ProperItem(all[i]) {
      assert i > 0 ==> ProperItem(items[i]);
    }
    hide BodyText, BodyMeaning;
    assert Text(first.doc) == w + Text(items[0].doc);
    var a, b := Text(items[0].doc), if |items| == 1 then "" else "," + ItemsText(items[1..]);
    hide Text;
    assert w + a + first.after + b == w + (a + first.after + b);
  }

  ghost predicate ReadsItems(x: string, items: seq<Item>, done: seq<Json>, v: Json, rest: string) {
    && items != [] && (forall i :: 0 <= i < |items| ==> ProperItem(items[i]))
    && x == ItemsText(items) + "]" + rest && v == Array(done + ItemsMeaning(items))
  }

  lemma {:induction false} ParsedItems(x: string, done: seq<Json>) returns (items: seq<Item>)
    requires ParseItems(x, done).Ok?
    ensures ReadsItems(x, items, done, ParseItems(x, done).value, ParseItems(x, done).rest)
    decreases |x|, 6
  {
    var d := ParsedDoc(x);
    var v := ParseValue(x);
    var w := SkippedSpaces(v.rest);
    var t := SkipSpace(v.rest);
    var item := Item(d, w);
    assert ProperItem(item);
    if t[0] == ']' {
      items := [item];
      LastItem(x, item, done, t, v.rest);
    } else {
      var more := ParsedItems(t[1..], done + [v.value]);
      items := [item] + more;
      ItemBefore(x, item, more, done, t, ParseItems(x, done).value, ParseItems(x, done).rest, v.rest);
    }
  }

  lemma {:induction false} LastItem(x: string, item: Item, done: seq<Json>, t: string, after: string)
    requires ProperItem(item) && x == Text(item.doc) + after && after == item.after + t && t != "" && t[0] == ']'
    ensures ReadsItems(x, [item], done, Array(done + [Meaning(item.doc)]), t[1..])
  {
    hide Text, Meaning, Blank, ProperBody;
    assert t == "]" + t[1..];
    assert ItemsText([item]) == Text(item.doc) + item.after + "";
    assert [item][1..] == [] && ItemsMeaning([item]) == [Meaning(item.doc)] + [];
  }

  lemma {:induction false} ItemBefore(x: string, item: Item, more: seq<Item>, done: seq<Json>, t: string, v: Json,
                                      rest: string, after: string)
    requires ProperItem(item) && x == Text(item.doc) + after && after == item.after + t && t != "" && t[0] == ','
    requires ReadsItems(t[1..], more, done + [Meaning(item.doc)], v, rest)
    ensures ReadsItems(x, [item] + more, done, v, rest)
  {
    hide Text, Meaning, Blank, ProperBody;
    var all := [item] + more;
    assert all[1..] == more && all[0] == item;
    forall i | 0 <= i < |all| ensures ProperItem(all[i]) {
      assert i > 0 ==> all[i] == more[i - 1];
    }
    var m := ItemsText(more);
    assert ItemsText(all) == Text(item.doc) + item.after + ("," + m);
    assert ItemsMeaning(all) == [Meaning(item.doc)] + ItemsMeaning(more);
    hide ItemsText, ItemsMeaning;
    assert t == "," + (m + "]" + rest);
    assert Text(item.doc) + (item.after + ("," + (m + "]" + rest)))
           == Text(item.doc) + item.after + ("," + m) + "]" + rest;
    assert done + [Meaning(item.doc)] + ItemsMeaning(more) == done + ([Meaning(item.doc)] + ItemsMeaning(more));
  }

  // ---- Parsed objects ----

  lemma {:induction false} ParsedObject(t: string) returns (b: Body)
    requires t != "" && t[0] == '{' && ParseObject(t[1..]).Ok?
    ensures ReadsBody(t, b, ParseObject(t[1..]).value, ParseObject(t[1..]).rest)
    decreases |t|, 3
  {
    hide SkipSpace, ParseMembers;
    var u := t[1..];
    var w := SkippedSpaces(u);
    var x := SkipSpace(u);
    if x[0] == '}' {
      b := NoMembers(w);
      assert t == "{" + w + "}" + x[1..];
    } else {
      var fields := ParsedFields(w, x, []);
      b := Members(fields);
      ObjectReads(t, w + x, fields, ParseMembers(x, []).value, ParseMembers(x, []).rest);
    }
  }

  lemma {:induction false} ObjectReads(t: string, u: string, fields: seq<Field>, v: Json, rest: string)
    requires t != "" && t[0] == '{' && t[1..] == u && ReadsFields(u, fields, [], v, rest)
    ensures ReadsBody(t, Members(fields), v, rest)
  {
    hide FieldsText, FieldsMeaning, ProperField;
    assert [] + fields == fields;
    assert t == "{" + u;
  }

  ghost predicate ReadsFields(x: string, fields: seq<Field>, prior: seq<Field>, v: Json, rest: string) {
    && fields != [] && (forall i :: 0 <= i < |fields| ==> ProperField(fields[i]))
    && (forall i :: 0 <= i < |prior| ==> ProperField(prior[i]))
    && x == FieldsText(fields) + "}" + rest
    && (forall i :: 0 <= i < |prior + fields| ==> ProperField((prior + fields)[i]))
    && v == Object(FieldsMeaning(prior + fields))
  }

  lemma {:induction false} ParsedField(w: string, x: string) returns (f: Field)
    requires Blank(w) && x != "" && ParseMember(x).Ok?
    ensures ProperField(f) && f.before == w && f.after == ""
    ensures ParseMember(x).value == Member(f.key, Meaning(f.doc)) && x == FieldTail(f) + ParseMember(x).rest
    decreases |x|, 6
  {
    var name := Token(x[1..]);
    TokensAreClosed(x[1..]);
    TokenText(x[1..]);
    var k := SkippedSpaces(name.rest);
    var t := SkipSpace(name.rest);
    var d := ParsedDoc(t[1..]);
    var rest := ParseValue(t[1..]).rest;
    hide Token, SkipSpace, ParseValue;
    f := Field(w, name.value, k, d, "");
    FieldSpelled(f, x, name.rest, t, rest);
  }

  lemma {:induction false} FieldSpelled(f: Field, x: string, afterName: string, t: string, rest: string)
    requires x != "" && x[0] == '"' && x[1..] == f.key + "\"" + afterName && afterName == f.afterKey + t
    requires t != "" && t[0] == ':' && t[1..] == Text(f.doc) + rest && f.after == ""
    ensures x == FieldTail(f) + rest
  {
    hide Text;
    var a := Text(f.doc);
    assert t == ":" + (a + rest) && x == "\"" + x[1..];
    assert "\"" + (f.key + "\"" + (f.afterKey + (":" + (a + "")))) + rest
        == "\"" + (f.key + "\"" + (f.afterKey + (":" + (a + rest))));
  }

  lemma {:induction false} ParsedFields(w: string, x: string, prior: seq<Field>) returns (fields: seq<Field>)
    requires Blank(w) && x != "" && forall i :: 0 <= i < |prior| ==> ProperField(prior[i])
    requires ParseMembers(x, FieldsMeaning(prior)).Ok?
    ensures var r := ParseMembers(x, FieldsMeaning(prior)); ReadsFields(w + x, fields, prior, r.value, r.rest)
    decreases |x|, 7
  {
    var done := FieldsMeaning(prior);
    var r, m := ParseMembers(x, done), ParseMember(x);
    var g := ParsedField(w, x);
    var after := SkippedSpaces(m.rest);
    var u := SkipSpace(m.rest);
    var f := g.(after := after);
    assert ProperField(f) && m.value == Member(f.key, Meaning(f.doc));
    Closing(g, f, x, m.rest, u);
    var all := prior + [f];
    assert all[..|prior|] == prior;
    MeaningStep(all, |prior|);
    assert all[..|prior| + 1] == all;
    if u[0] == '}' {
      fields := [f];
      LastFieldReads(w, x, f, prior, u);
    } else {
      var v := SkippedSpaces(u[1..]);
      var y := SkipSpace(u[1..]);
      var more := ParsedFields(v, y, all);
      fields := [f] + more;
      FieldBefore(w, x, f, more, prior, u, v + y, r.value, r.rest);
    }
  }

  lemma {:induction false} Closing(g: Field, f: Field, x: string, rest: string, u: string)
    requires g.after == "" && f == g.(after := f.after) && x == FieldTail(g) + rest && rest == f.after + u
    ensures x == FieldTail(f) + u
  {
    hide Text;
    var a := Text(f.doc);
    assert "\"" + (f.key + "\"" + (f.afterKey + (":" + (a + "")))) + (f.after + u)
        == "\"" + (f.key + "\"" + (f.afterKey + (":" + (a + f.after)))) + u;
  }

  lemma {:induction false} LastFieldReads(w: string, x: string, f: Field, prior: seq<Field>, u: string)
    requires ProperField(f) && f.before == w && x == FieldTail(f) + u && u != "" && u[0] == '}'
    requires forall i :: 0 <= i < |prior| ==> ProperField(prior[i])
    ensures forall i :: 0 <= i < |prior + [f]| ==> ProperField((prior + [f])[i])
    ensures ReadsFields(w + x, [f], prior, Object(FieldsMeaning(prior + [f])), u[1..])
  {
    hide FieldTail, ProperField, FieldsMeaning;
    FieldsUnfold([f], 0);
    assert [f][0..] == [f];
    hide FieldsText;
    assert u == "}" + u[1..];
    assert w + (FieldTail(f) + ("}" + u[1..])) == w + (FieldTail(f) + "") + "}" + u[1..];
  }

  lemma {:induction false} FieldBefore(w: string, x: string, f: Field, more: seq<Field>, prior: seq<Field>, u: string,
                                       tail: string, v: Json, rest: string)
    requires ProperField(f) && f.before == w && x == FieldTail(f) + u && u != "" && u[0] == ',' && u[1..] == tail
    requires ReadsFields(tail, more, prior + [f], v, rest) && forall i :: 0 <= i < |prior| ==> ProperField(prior[i])
    ensures ReadsFields(w + x, [f] + more, prior, v, rest)
  {
    hide FieldTail, ProperField, FieldsMeaning;
    var all := [f] + more;
    assert prior + all == prior + [f] + more;
    forall i | 0 <= i < |all| ensures ProperField(all[i]) {
      assert i > 0 ==> all[i] == more[i - 1];
    }
    FieldsUnfold(all, 0);
    assert all[0..] == all && all[1..] == more;
    hide FieldsText;
    var m := FieldsText(more);
    assert u == "," + (m + "}" + rest);
    assert w + (FieldTail(f) + ("," + (m + "}" + rest))) == w + (FieldTail(f) + ("," + m)) + "}" + rest;
  }

  // ---- The grammar is exact ----

  /**
   * Parsing a text gives a value and a rest exactly if the text starts with a proper document for that value, spaces
   * allowed between any two tokens, and the rest follows. So it fails exactly on the texts that start with none.
   */
  lemma {:induction false} ParseExactly(s: string, v: Json, rest: string)
    ensures ParseValue(s) == Ok(v, rest) <==> exists d :: Reads(s, d, v, rest)
  {
    if ParseValue(s) == Ok(v, rest) {
      var d := ParsedDoc(s);
    }
    if d :| Reads(s, d, v, rest) {
      DocParses(d, rest);
    }
  }

  /** A first character that no value starts with is refused. */
  lemma {:induction false} OtherStartRefused(w: string, c: char, rest: string)
    requires Blank(w) && c !in {' ', '\t', '\n', 11 as char, 12 as char, '\r'}
    requires c !in {'[', '{', '"', '-', 't', 'f', 'n'} && !('0' <= c <= '9')
    ensures ParseValue(w + ([c] + rest)) == Failed(Malformed)
  {
    SpacesAre(c);
    SpacesBefore(w, [c] + rest);
    var t := [c] + rest;
    assert SkipSpace(t) == t && t[0] == c;
    hide SkipSpace, ParseArray, ParseObject, ParseNumber, ParseWord, Token;
  }

  // ---- What the printer writes ----

  /** The document without any spaces. */
  function Tight(v: Json): Doc {
    Doc("", TightBody(v))
  }

  function TightBody(v: Json): Body
    decreases v, 0
  {
    match v
    case Array(items) => if items == [] then NoItems("") else Items(TightItems(items))
    case Bool(b) => if b then True else False
    case Integer(i) => Number(PrintInteger(i))
    case Nil => Null
    case Object(ms) => if ms == [] then NoMembers("") else Members(TightFields(ms))
    case String(s) => Quoted(s)
  }

  function TightItems(items: seq<Json>): (r: seq<Item>)
    ensures |r| == |items|
    decreases items, 0
  {
    if items == [] then [] else [Item(Doc("", TightBody(items[0])), "")] + TightItems(items[1..])
  }

  function TightFields(ms: seq<Member>): (r: seq<Field>)
    ensures |r| == |ms|
    decreases ms, 0
  {
    if ms == [] then []
    else [Field("", ms[0].key, "", Doc("", TightBody(ms[0].value)), "")] + TightFields(ms[1..])
  }

  /** Printing writes exactly the document without spaces. */
  lemma {:induction false} PrintsTight(v: Json)
    ensures Text(Tight(v)) == Print(v)
    decreases v, 1
  {
    match v {
      case Array(items) => PrintsItems(items);
      case Object(ms) => PrintsFields(ms);
      case _ =>
    }
  }

  lemma {:induction false} PrintsItems(items: seq<Json>)
    ensures ItemsText(TightItems(items)) == PrintItems(items, true)
    decreases items, 0
  {
    if items != [] {
      hide Print, Text, Tight, PrintItems, ItemsText;
      PrintsTight(items[0]);
      PrintsItems(items[1..]);
      FirstTightItem(items);
      ItemPrinted(items);
    }
  }

  lemma {:induction false} FirstTightItem(items: seq<Json>)
    requires items != []
    ensures ItemsText(TightItems(items))
            == Text(Tight(items[0])) + (if |items| == 1 then "" else "," + ItemsText(TightItems(items[1..])))
  {
    hide Text, TightBody;
    var all, more := TightItems(items), TightItems(items[1..]);
    assert all[1..] == more && all[0] == Item(Tight(items[0]), "");
    var a, b := Text(all[0].doc), if |all| == 1 then "" else "," + ItemsText(more);
    assert ItemsText(all) == a + "" + b;
    hide ItemsText, TightItems;
    assert a + "" + b == a + b;
  }

  lemma {:induction false} ItemPrinted(items: seq<Json>)
    requires items != []
    ensures PrintItems(items, true)
            == Print(items[0]) + (if |items| == 1 then "" else "," + PrintItems(items[1..], true))
  {
    hide Print;
    CommaFirst(items[1..]);
    var p, more := Print(items[0]), PrintItems(items[1..], false);
    assert PrintItems(items, true) == "" + p + more && (items[1..] == [] ==> more == "");
    assert (|items| == 1) == (items[1..] == []);
    hide PrintItems;
    assert "" + p + more == p + more && p + "" == p;
  }

  lemma {:induction false} PrintsFields(ms: seq<Member>)
    ensures FieldsText(TightFields(ms)) == PrintMembers(ms, true)
    decreases ms, 0
  {
    if ms != [] {
      PrintsTight(ms[0].value);
      PrintsFields(ms[1..]);
      var p, more := Print(ms[0].value), PrintMembers(ms[1..], true);
      if ms[1..] != [] {
        MembersStart(ms[1..]);
      }
      assert TightFields(ms)[1..] == TightFields(ms[1..]);
      FieldPrinted(ms, p);
    }
  }

  lemma {:induction false} FieldPrinted(ms: seq<Member>, p: string)
    requires ms != [] && Text(Doc("", TightBody(ms[0].value))) == p == Print(ms[0].value)
    requires FieldsText(TightFields(ms[1..])) == PrintMembers(ms[1..], true)
    requires ms[1..] != [] ==> PrintMembers(ms[1..], false) == "," + PrintMembers(ms[1..], true)
    ensures FieldsText(TightFields(ms)) == PrintMembers(ms, true)
  {
    hide Print, Text, TightBody;
    var k, a := ms[0].key, PrintMembers(ms[1..], false);
    assert PrintMembers(ms, true) == "" + "\"" + k + "\":" + p + a;
    OneTightField(ms, p);
    SameMember(k, p, a);
  }

  lemma {:induction false} OneTightField(ms: seq<Member>, p: string)
    requires ms != [] && Text(Doc("", TightBody(ms[0].value))) == p
    ensures var more := if |ms| == 1 then "" else "," + FieldsText(TightFields(ms[1..]));
            FieldsText(TightFields(ms)) == "" + "\"" + ms[0].key + "\"" + "" + ":" + p + "" + more
  {
    hide Text, TightBody;
    var fs := TightFields(ms);
    assert fs[1..] == TightFields(ms[1..]) && fs[0] == Field("", ms[0].key, "", Doc("", TightBody(ms[0].value)), "");
  }

  lemma {:induction false} SameMember(k: string, p: string, a: string)
    ensures "" + "\"" + k + "\"" + "" + ":" + p + "" + a == "" + "\"" + k + "\":" + p + a
  {
    assert "\":" == "\"" + ":";
    assert "" + "\"" + k + "\"" + "" + ":" + p + "" + a == ("\"" + k) + ("\"" + ":") + (p + a);
    assert "" + "\"" + k + "\":" + p + a == ("\"" + k) + "\":" + (p + a);
  }

  // ---- Keys and digits ----

  /** The order of keys: a proper prefix, or a smaller character at the first difference. */
  lemma {:induction false} LessExactly(a: string, b: string)
    ensures Less(a, b) <==>
            || (|a| < |b| && a == b[..|a|])
            || exists i :: 0 <= i < |a| && i < |b| && a[..i] == b[..i] && a[i] < b[i]
  {
    if a != "" && b != "" {
      LessExactly(a[1..], b[1..]);
      if a[0] == b[0] {
        LessTail(a, b);
      } else if a[0] < b[0] {
        assert a[..0] == b[..0] && a[0] < b[0];
      } else {
        forall i | 0 <= i < |a| && i < |b| && a[..i] == b[..i] ensures i == 0 {
          SameHead(a, b, i);
        }
        SameHead(a, b, |a|);
      }
    }
  }

  lemma {:induction false} SameHead(a: string, b: string, i: nat)
    ensures 0 < i <= |a| && i <= |b| && a[..i] == b[..i] ==> a[0] == b[0]
  {
    if 0 < i <= |a| && i <= |b| && a[..i] == b[..i] {
      assert a[..i][0] == b[..i][0];
    }
  }

  lemma {:induction false} LessTail(a: string, b: string)
    requires a != "" && b != "" && a[0] == b[0]
    ensures (|a| < |b| && a == b[..|a|]) <==> (|a[1..]| < |b[1..]| && a[1..] == b[1..][..|a| - 1])
    ensures (exists i :: 0 <= i < |a| && i < |b| && a[..i] == b[..i] && a[i] < b[i]) <==>
            (exists i :: 0 <= i < |a[1..]| && i < |b[1..]| && a[1..][..i] == b[1..][..i] && a[1..][i] < b[1..][i])
  {
    if |a| <= |b| {
      assert a == [a[0]] + a[1..] && b[..|a|] == [b[0]] + b[1..][..|a| - 1];
    }
    if i :| 0 <= i < |a| && i < |b| && a[..i] == b[..i] && a[i] < b[i] {
      assert i > 0 && a[1..][..i - 1] == a[..i][1..] == b[..i][1..] == b[1..][..i - 1];
      assert a[1..][i - 1] < b[1..][i - 1];
    }
    if i :| 0 <= i < |a[1..]| && i < |b[1..]| && a[1..][..i] == b[1..][..i] && a[1..][i] < b[1..][i] {
      assert a[..i + 1] == [a[0]] + a[1..][..i] && b[..i + 1] == [b[0]] + b[1..][..i];
      assert a[i + 1] < b[i + 1];
    }
  }

  /** Inserting a member sets the value of its key and leaves all other members. */
  lemma {:induction false} InsertExactly(ms: seq<Member>, key: string, v: Json, m: Member)
    requires Ascending(ms)
    ensures m in Insert(ms, key, v) <==> m == Member(key, v) || (m.key != key && m in ms)
  {
    if ms == [] {
    } else if ms[0].key == key {
      forall i | 1 <= i < |ms| ensures ms[i].key != key {
        LessAsymmetric(ms[0].key, ms[i].key);
      }
      assert ms == [ms[0]] + ms[1..];
    } else if Less(key, ms[0].key) {
      forall i | 0 <= i < |ms| ensures ms[i].key != key {
        if i > 0 {
          LessTransitive(key, ms[0].key, ms[i].key);
        }
        LessAsymmetric(key, ms[i].key);
      }
    } else {
      InsertExactly(ms[1..], key, v, m);
      assert ms == [ms[0]] + ms[1..];
    }
  }

  /** The value of decimal digits, digit by digit. */
  lemma {:induction false} DigitsAppend(s: string, c: char)
    requires IsDigit(c) && forall i :: 0 <= i < |s| ==> IsDigit(s[i])
    ensures DigitsValue("") == 0 && DigitsValue(s + [c]) == 10 * DigitsValue(s) + (c as int - '0' as int)
  {
    assert (s + [c])[..|s|] == s;
  }
}
