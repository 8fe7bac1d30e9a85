/** Parsing printed text gives the value back exactly when its strings and keys are closed under escapes. */
module JsonRoundTrip {
  import opened JsonText

  // ---- Tokens ----

  /** Reading a printed string that is escape-closed takes exactly that string. */
  lemma {:induction false} TokenRoundTrip(s: string, rest: string)
    requires EscapeClosed(s)
    ensures Token(s + "\"" + rest) == Ok(s, rest)
  {
    var t := s + "\"" + rest;
    if s == "" {
      assert t[1..] == rest;
    } else if s[0] == '\\' {
      TokenRoundTrip(s[2..], rest);
      assert t[..2] == s[..2] && t[2..] == s[2..] + "\"" + rest && s == s[..2] + s[2..];
    } else {
      TokenRoundTrip(s[1..], rest);
      assert t[..1] == s[..1] && t[1..] == s[1..] + "\"" + rest && s == s[..1] + s[1..];
    }
  }

  /** Whatever is read as a token is escape-closed. */
  lemma {:induction false} TokensAreClosed(s: string)
    ensures Token(s).Ok? ==> EscapeClosed(Token(s).value)
  {
    if s == "" || s[0] == '"' {
    } else if s[0] == '\\' {
      if |s| >= 2 {
        TokensAreClosed(s[2..]);
        if Token(s[2..]).Ok? {
          assert (s[..2] + Token(s[2..]).value)[2..] == Token(s[2..]).value;
        }
      }
    } else {
      TokensAreClosed(s[1..]);
      if Token(s[1..]).Ok? {
        assert (s[..1] + Token(s[1..]).value)[1..] == Token(s[1..]).value;
      }
    }
  }

  // ---- Numbers ----

  lemma {:induction false} DecimalValue(n: nat)
    ensures DigitsValue(Decimal(n)) == n
  {
    if n < 10 {
      assert Decimal(n)[..0] == "";
    } else {
      DecimalValue(n / 10);
      var s := Decimal(n);
      assert s[..|s| - 1] == Decimal(n / 10);
    }
  }

  /** What follows a printed integer must not continue it. */
  predicate EndsNumber(rest: string) {
    rest != "" ==> !IsDigit(rest[0]) && rest[0] != '.'
  }

  lemma {:induction false} NumberLengthOf(s: string, rest: string)
    requires EndsNumber(rest) && forall i :: 0 <= i < |s| ==> IsDigit(s[i])
    ensures NumberLength(s + rest) == |s|
  {
    if s == "" {
      assert s + rest == rest;
    } else {
      NumberLengthOf(s[1..], rest);
      assert (s + rest)[1..] == s[1..] + rest;
    }
  }

  lemma {:induction false} NumberRoundTrip(i: int, rest: string)
    requires MIN_INTEGER <= i <= MAX_INTEGER && EndsNumber(rest)
    ensures var s := PrintInteger(i);
            s != "" && (s[0] == '-' || IsDigit(s[0])) && ParseNumber(s[0], s[1..] + rest) == Ok(Integer(i), rest)
  {
    var s := PrintInteger(i);
    var n := if i < 0 then -i else i;
    DecimalValue(n);
    PositiveStart(n);
    NumberLengthOf(s[1..], rest);
    var u := s[1..] + rest;
    assert u[..|s| - 1] == s[1..] && u[|s| - 1..] == rest;
    assert [s[0]] + s[1..] == s;
    assert i < 0 ==> s[1..] == Decimal(n);
  }

  lemma {:induction false} PositiveStart(n: nat)
    ensures n > 0 ==> Decimal(n)[0] != '0'
  {
    if n >= 10 {
      PositiveStart(n / 10);
    }
  }

  // ---- Values ----

  /** Printed values do not start with a space or with a closing bracket. */
  lemma {:induction false} PrintStart(v: Json)
    ensures Print(v) != ""
    ensures var c := Print(v)[0]; !IsSpace(c) && c != ']' && c != '}'
  {
    match v {
      case Integer(i) => NumberStart(i);
      case _ =>
    }
  }

  lemma {:induction false} NumberStart(i: int)
    ensures var s := PrintInteger(i); s != "" && (s[0] == '-' || IsDigit(s[0]))
  {
  }

  ghost predicate Good(v: Json) {
    Formed(v) && Closed(v)
  }

  /** Every integer is followed by something that ends it. */
  ghost predicate Ends(v: Json, rest: string) {
    v.Integer? ==> EndsNumber(rest)
  }

  lemma {:induction false} RoundTrip(v: Json, rest: string)
    requires Good(v) && Ends(v, rest)
    ensures ParseValue(Print(v) + rest) == Ok(v, rest)
    decreases v, 1
  {
    match v {
      case Array(items) => ArrayRoundTrip(items, rest);
      case Integer(i) => IntegerRoundTrip(i, rest);
      case Object(ms) => ObjectRoundTrip(ms, rest);
      case String(s) => StringRoundTrip(s, rest);
      case _ => WordRoundTrip(v, rest);
    }
  }

  lemma {:induction false} WordRoundTrip(v: Json, rest: string)
    requires v.Bool? || v.Nil?
    ensures ParseValue(Print(v) + rest) == Ok(v, rest)
  {
    var s := Print(v);
    var t := s + rest;
    assert SkipSpace(t) == t;
    assert t[1..][..|s| - 1] == s[1..] && t[1..][|s| - 1..] == rest;
    assert "true"[1..] == "rue" && "false"[1..] == "alse" && "null"[1..] == "ull";
  }

  lemma {:induction false} IntegerRoundTrip(i: int, rest: string)
    requires MIN_INTEGER <= i <= MAX_INTEGER && EndsNumber(rest)
    ensures ParseValue(Print(Integer(i)) + rest) == Ok(Integer(i), rest)
  {
    hide PrintInteger, ParseNumber, ParseValue;
    NumberRoundTrip(i, rest);
    var s := PrintInteger(i);
    assert (s + rest)[1..] == s[1..] + rest;
    NumberStep(s + rest);
  }

  lemma {:induction false} NumberStep(t: string)
    requires t != "" && (t[0] == '-' || IsDigit(t[0]))
    ensures ParseValue(t) == ParseNumber(t[0], t[1..])
  {
    hide ParseNumber, ParseArray, ParseObject;
    assert SkipSpace(t) == t;
  }

  lemma {:induction false} StringRoundTrip(s: string, rest: string)
    requires EscapeClosed(s)
    ensures ParseValue(Print(String(s)) + rest) == Ok(String(s), rest)
  {
    TokenRoundTrip(s, rest);
    var t := Print(String(s)) + rest;
    assert t[1..] == s + "\"" + rest;
    hide Token, EscapeClosed;
    assert SkipSpace(t) == t;
  }

  lemma {:induction false} ArrayRoundTrip(items: seq<Json>, rest: string)
    requires Good(Array(items))
    ensures ParseValue(Print(Array(items)) + rest) == Ok(Array(items), rest)
    decreases items, 2
  {
    var u := PrintItems(items, true) + "]" + rest;
    var t := Print(Array(items)) + rest;
    assert t[0] == '[' && t[1..] == u;
    if items == [] {
      assert u[0] == ']' && u[1..] == rest;
    } else {
      ItemsRoundTrip(items, [], rest);
      PrintStart(items[0]);
      assert u[0] == Print(items[0])[0];
      assert [] + items == items;
    }
    ArrayStep(t, u);
  }

  lemma {:induction false} ArrayStep(t: string, u: string)
    requires t != "" && t[0] == '[' && t[1..] == u && u != "" && !IsSpace(u[0])
    ensures ParseValue(t) == if u[0] == ']' then Ok(Array([]), u[1..]) else ParseItems(u, [])
  {
    hide ParseItems;
    assert SkipSpace(t) == t && SkipSpace(u) == u;
  }

  /** The text of some items, the first without its comma. */
  lemma {:induction false} ItemsRoundTrip(items: seq<Json>, done: seq<Json>, rest: string)
    requires items != [] && forall i :: 0 <= i < |items| ==> Good(items[i])
    ensures ParseItems(PrintItems(items, true) + "]" + rest, done) == Ok(Array(done + items), rest)
    decreases items, 1
  {
    hide Print, PrintItems, ParseItems, ParseValue, Good;
    var v, more := items[0], items[1..];
    var next := PrintItems(more, false) + "]" + rest;
    var s := PrintItems(items, true) + "]" + rest;
    ItemsText(items, rest);
    assert Good(v);
    if more == [] {
      assert next[0] == ']' && next[1..] == rest;
      RoundTrip(v, next);
      ItemStep(s, done, v, next);
      assert done + [v] == done + items;
    } else {
      var tail := PrintItems(more, true) + "]" + rest;
      assert next[0] == ',' && next[1..] == tail;
      RoundTrip(v, next);
      ItemStep(s, done, v, next);
      ItemsRoundTrip(more, done + [v], rest);
      assert done + [v] + more == done + items;
    }
  }

  lemma {:induction false} ItemsText(items: seq<Json>, rest: string)
    requires items != []
    ensures PrintItems(items, true) + "]" + rest == Print(items[0]) + (PrintItems(items[1..], false) + "]" + rest)
    ensures items[1..] == [] ==> PrintItems(items[1..], false) + "]" + rest == "]" + rest
    ensures items[1..] != [] ==>
            PrintItems(items[1..], false) + "]" + rest == "," + (PrintItems(items[1..], true) + "]" + rest)
  {
    var more := items[1..];
    CommaFirst(more);
    assert PrintItems(items, true) == "" + Print(items[0]) + PrintItems(more, false);
    assert more == [] ==> PrintItems(more, false) == "";
    hide Print, PrintItems;
  }

  lemma {:induction false} CommaFirst(items: seq<Json>)
    ensures items != [] ==> PrintItems(items, false) == "," + PrintItems(items, true)
  {
    if items != [] {
      var p, tail := Print(items[0]), PrintItems(items[1..], false);
      assert PrintItems(items, false) == "," + p + tail && PrintItems(items, true) == "" + p + tail;
      hide Print, PrintItems;
    }
  }

  lemma {:induction false} ItemStep(s: string, done: seq<Json>, v: Json, next: string)
    requires ParseValue(s) == Ok(v, next) && next != "" && (next[0] == ']' || next[0] == ',')
    ensures ParseItems(s, done)
            == if next[0] == ']' then Ok(Array(done + [v]), next[1..]) else ParseItems(next[1..], done + [v])
  {
    hide ParseValue;
    assert SkipSpace(next) == next;
  }

  // ---- Objects ----

  lemma {:induction false} InsertAppends(ms: seq<Member>, key: string, v: Json)
    requires forall i :: 0 <= i < |ms| ==> Less(ms[i].key, key)
    ensures Insert(ms, key, v) == ms + [Member(key, v)]
  {
    if ms != [] {
      LessAsymmetric(ms[0].key, key);
      InsertAppends(ms[1..], key, v);
      assert ms == [ms[0]] + ms[1..];
    }
  }

  ghost predicate GoodMember(m: Member) {
    EscapeClosed(m.key) && Good(m.value)
  }

  lemma {:induction false} ObjectRoundTrip(ms: seq<Member>, rest: string)
    requires Good(Object(ms))
    ensures ParseValue(Print(Object(ms)) + rest) == Ok(Object(ms), rest)
    decreases ms, 2
  {
    var u := PrintMembers(ms, true) + "}" + rest;
    var t := Print(Object(ms)) + rest;
    assert t[0] == '{' && t[1..] == u;
    if ms == [] {
      assert u[0] == '}' && u[1..] == rest;
    } else {
      assert [] + ms == ms;
      forall i | 0 <= i < |ms| ensures GoodMember(ms[i]) {
      }
      MembersRoundTrip(ms, [], rest);
      MembersStart(ms);
      assert u[0] == '"';
    }
    ObjectStep(t, u);
  }

  lemma {:induction false} MembersStart(ms: seq<Member>)
    requires ms != []
    ensures PrintMembers(ms, true) != "" && PrintMembers(ms, true)[0] == '"'
    ensures PrintMembers(ms, false) == "," + PrintMembers(ms, true)
  {
    var tail := PrintMembers(ms[1..], false);
    var head := "\"" + ms[0].key + "\":" + Print(ms[0].value);
    hide Print;
    assert PrintMembers(ms, true) == "" + "\"" + ms[0].key + "\":" + Print(ms[0].value) + tail == head + tail;
    assert PrintMembers(ms, false) == "," + "\"" + ms[0].key + "\":" + Print(ms[0].value) + tail == "," + (head + tail);
  }

  lemma {:induction false} ObjectStep(t: string, u: string)
    requires t != "" && t[0] == '{' && t[1..] == u && u != "" && !IsSpace(u[0])
    ensures ParseValue(t) == if u[0] == '}' then Ok(Object([]), u[1..]) else ParseMembers(u, [])
  {
    hide ParseMembers;
    assert SkipSpace(t) == t && SkipSpace(u) == u;
  }

  lemma {:induction false} MembersText(ms: seq<Member>, rest: string)
    requires ms != []
    ensures PrintMembers(ms, true) + "}" + rest
            == "\"" + (ms[0].key + "\"" + (":" + (Print(ms[0].value) + (PrintMembers(ms[1..], false) + "}" + rest))))
  {
    var k, p, tail := ms[0].key, Print(ms[0].value), PrintMembers(ms[1..], false);
    assert PrintMembers(ms, true) == "" + "\"" + k + "\":" + p + tail;
    hide Print, PrintMembers;
    MemberText(k, p, tail, "}" + rest);
    assert tail + ("}" + rest) == tail + "}" + rest;
    assert PrintMembers(ms, true) + "}" + rest == PrintMembers(ms, true) + ("}" + rest);
  }

  lemma {:induction false} MemberText(k: string, p: string, tail: string, last: string)
    ensures "" + "\"" + k + "\":" + p + tail + last == "\"" + (k + "\"" + (":" + (p + (tail + last))))
  {
    var body := p + (tail + last);
    assert "\":" + body == "\"" + (":" + body);
    assert "" + "\"" + k + "\":" + p + tail + last == "\"" + k + ("\":" + body);
    assert k + ("\"" + (":" + body)) == k + "\"" + (":" + body);
  }

  lemma {:induction false} QuoteIsNotSpace()
    ensures !IsSpace('"')
  {
  }

  lemma {:induction false} NextMember(more: seq<Member>, rest: string)
    ensures more == [] ==> PrintMembers(more, false) + "}" + rest == "}" + rest
    ensures more != [] ==> PrintMembers(more, false) + "}" + rest == "," + (PrintMembers(more, true) + "}" + rest)
    ensures more != [] ==> (PrintMembers(more, true) + "}" + rest)[0] == '"'
  {
    if more != [] {
      MembersStart(more);
      hide Print, PrintMembers;
    }
  }

  /** The text of some members, the first without its comma, after others with smaller keys. */
  lemma {:induction false} MembersRoundTrip(ms: seq<Member>, done: seq<Member>, rest: string)
    requires ms != [] && Ascending(done + ms) && forall i :: 0 <= i < |ms| ==> GoodMember(ms[i])
    ensures ParseMembers(PrintMembers(ms, true) + "}" + rest, done) == Ok(Object(done + ms), rest)
    decreases ms, 1
  {
    hide Print, PrintMembers, ParseMembers, ParseValue, Token, Insert, Good, Less, EscapeClosed;
    var m, more := ms[0], ms[1..];
    var next := PrintMembers(more, false) + "}" + rest;
    NextMember(more, rest);
    var body := ":" + (Print(m.value) + next);
    var s := PrintMembers(ms, true) + "}" + rest;
    MembersText(ms, rest);
    assert GoodMember(m);
    forall i | 0 <= i < |done| ensures Less(done[i].key, m.key) {
      assert Less((done + ms)[i].key, (done + ms)[|done|].key);
    }
    InsertAppends(done, m.key, m.value);
    assert m == Member(m.key, m.value);
    TokenRoundTrip(m.key, body);
    assert s[1..] == m.key + "\"" + body;
    assert body[1..] == Print(m.value) + next;
    if more == [] {
      assert next[1..] == rest;
      RoundTrip(m.value, next);
      MemberStep(s, done, m, body, next);
      assert done + [m] == done + ms;
    } else {
      var tail := PrintMembers(more, true) + "}" + rest;
      assert next == "," + tail && tail[0] == '"';
      assert next[0] == ',' && next[1..] == tail && next[1] == '"';
      QuoteIsNotSpace();
      RoundTrip(m.value, next);
      MemberStep(s, done, m, body, next);
      assert done + [m] + more == done + ms;
      MembersRoundTrip(more, done + [m], rest);
    }
  }

  lemma {:induction false} MemberStep(s: string, done: seq<Member>, m: Member, body: string, next: string)
    requires s != "" && s[0] == '"' && Token(s[1..]) == Ok(m.key, body)
    requires body != "" && body[0] == ':' && ParseValue(body[1..]) == Ok(m.value, next)
    requires next != "" && (next[0] == '}' || (next[0] == ',' && |next| > 1 && !IsSpace(next[1])))
    requires Insert(done, m.key, m.value) == done + [m]
    ensures ParseMembers(s, done)
            == if next[0] == '}' then Ok(Object(done + [m]), next[1..]) else ParseMembers(next[1..], done + [m])
  {
    hide ParseValue, Token, Insert;
    assert SkipSpace(body) == body && SkipSpace(next) == next;
    assert ParseMember(s) == Ok(m, next);
    hide ParseMember;
    assert next[0] == ',' ==> SkipSpace(next[1..]) == next[1..];
  }

  // ---- The converse ----

  lemma {:induction false} InsertKeeps(ms: seq<Member>, key: string, v: Json)
    requires Ascending(ms) && EscapeClosed(key) && Good(v) && forall i :: 0 <= i < |ms| ==> GoodMember(ms[i])
    ensures Ascending(Insert(ms, key, v))
    ensures forall i :: 0 <= i < |Insert(ms, key, v)| ==> GoodMember(Insert(ms, key, v)[i])
    ensures forall k :: (forall i :: 0 <= i < |ms| ==> Less(k, ms[i].key)) && Less(k, key) ==>
              forall i :: 0 <= i < |Insert(ms, key, v)| ==> Less(k, Insert(ms, key, v)[i].key)
  {
    var r := Insert(ms, key, v);
    if ms != [] && ms[0].key != key && !Less(key, ms[0].key) {
      LessTotal(ms[0].key, key);
      InsertKeeps(ms[1..], key, v);
    } else if ms != [] && ms[0].key != key {
      forall j | 0 < j < |r| ensures Less(key, r[j].key) {
        if j > 1 {
          LessTransitive(key, ms[0].key, ms[j - 1].key);
        }
      }
    }
  }

  lemma {:induction false} LessTotal(a: string, b: string)
    ensures Less(a, b) || a == b || Less(b, a)
  {
    if a != "" && b != "" && a[0] == b[0] {
      LessTotal(a[1..], b[1..]);
      assert a == [a[0]] + a[1..] && b == [b[0]] + b[1..];
    }
  }

  /** Whatever is parsed is well formed and escape-closed. */
  lemma {:induction false} ParsedIsGood(s: string)
    ensures ParseValue(s).Ok? ==> Good(ParseValue(s).value)
    decreases |s|, 0
  {
    var t := SkipSpace(s);
    if t != "" {
      var c, u := t[0], t[1..];
      if c == '[' {
        var w := SkipSpace(u);
        if w != "" && w[0] != ']' {
          ParsedItemsAreGood(w, []);
        }
      } else if c == '{' {
        var w := SkipSpace(u);
        if w != "" && w[0] != '}' {
          ParsedMembersAreGood(w, []);
        }
      } else if c == '"' {
        TokensAreClosed(u);
      }
    }
  }

  lemma {:induction false} ParsedItemsAreGood(s: string, done: seq<Json>)
    requires forall i :: 0 <= i < |done| ==> Good(done[i])
    ensures ParseItems(s, done).Ok? ==> Good(ParseItems(s, done).value)
    decreases |s|, 1
  {
    ParsedIsGood(s);
    var v := ParseValue(s);
    hide ParseValue;
    if v.Ok? {
      var t := SkipSpace(v.rest);
      var all := done + [v.value];
      assert forall i :: 0 <= i < |all| ==> Good(all[i]);
      if t != "" && t[0] == ',' {
        ParsedItemsAreGood(t[1..], all);
      }
    }
  }

  lemma {:induction false} ParsedMemberIsGood(s: string)
    requires s != ""
    ensures ParseMember(s).Ok? ==> GoodMember(ParseMember(s).value)
    decreases |s|, 1
  {
    if s[0] == '"' {
      var name := Token(s[1..]);
      TokensAreClosed(s[1..]);
      if name.Ok? {
        var t := SkipSpace(name.rest);
        hide Token;
        if t != "" && t[0] == ':' {
          ParsedIsGood(t[1..]);
          hide ParseValue;
        }
      }
    }
  }

  lemma {:induction false} ParsedMembersAreGood(s: string, done: seq<Member>)
    requires s != "" && Ascending(done) && forall i :: 0 <= i < |done| ==> GoodMember(done[i])
    ensures ParseMembers(s, done).Ok? ==> Good(ParseMembers(s, done).value)
    decreases |s|, 2
  {
    ParsedMemberIsGood(s);
    var m := ParseMember(s);
    hide ParseMember;
    if m.Ok? {
      var all, u := Insert(done, m.value.key, m.value.value), SkipSpace(m.rest);
      InsertKeeps(done, m.value.key, m.value.value);
      MembersMakeGood(all);
      hide Insert, Good;
      if u != "" && u[0] == ',' && SkipSpace(u[1..]) != "" {
        ParsedMembersAreGood(SkipSpace(u[1..]), all);
      }
    }
  }

  lemma {:induction false} MembersMakeGood(ms: seq<Member>)
    requires Ascending(ms) && forall i :: 0 <= i < |ms| ==> GoodMember(ms[i])
    ensures Good(Object(ms))
  {
    forall i | 0 <= i < |ms| ensures Formed(ms[i].value) && EscapeClosed(ms[i].key) && Closed(ms[i].value) {
      assert GoodMember(ms[i]);
    }
  }

  /**
   * Printing and parsing again gives the value back, and takes exactly the printed text, if and only if all strings
   * and keys are escape-closed.
   */
  lemma {:induction false} PrintThenParse(v: Json, rest: string)
    requires Formed(v) && Ends(v, rest)
    ensures ParseValue(Print(v) + rest) == Ok(v, rest) <==> Closed(v)
  {
    if Closed(v) {
      RoundTrip(v, rest);
    } else {
      ParsedIsGood(Print(v) + rest);
    }
  }

  /** A bare quote ends the string early, and the rest of it is left over. */
  lemma {:induction false} BareQuoteCutsString(a: string, b: string)
    requires EscapeClosed(a)
    ensures ParseValue(Print(String(a + "\"" + b))) == Ok(String(a), b + "\"")
  {
    var v := Print(String(a + "\"" + b));
    assert v == Print(String(a)) + (b + "\"");
    StringRoundTrip(a, b + "\"");
  }
}
