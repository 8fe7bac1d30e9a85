/** The recursive reader of `JsonValue.cpp` on a character stream. */
module JsonReaders {
  import opened JsonText

  datatype Outcome<+T> = Value(value: T) | Threw(error: Error)

  /** What a read returns, and the text it leaves. */
  ghost predicate Gives<T>(r: Outcome<T>, left: string, spec: Result<T>) {
    match spec
    case Ok(v, rest) => r == Value(v) && left == rest
    case Failed(e) => r == Threw(e)
  }

  class Reader {
    const input: string
    var pos: nat

    ghost predicate Valid()
      reads this
    {
      pos <= |input|
    }

    /** The text not yet read. */
    ghost function Rest(): string
      requires Valid()
      reads this
    {
      input[pos..]
    }

    constructor (text: string)
      ensures Valid() && Rest() == text
    {
      input, pos := text, 0;
    }

    method ReadChar() returns (r: Outcome<char>)
      requires Valid()
      modifies this
      ensures Valid() && pos >= old(pos)
      ensures if old(Rest()) == "" then r == Threw(Malformed)
              else r == Value(old(Rest())[0]) && Rest() == old(Rest())[1..]
    {
      if pos == |input| {
        return Threw(Malformed);
      }
      r := Value(input[pos]);
      pos := pos + 1;
    }

    method ReadNonWsChar() returns (r: Outcome<char>)
      requires Valid()
      modifies this
      ensures Valid() && pos >= old(pos)
      ensures var t := SkipSpace(old(Rest()));
              if t == "" then r == Threw(Malformed)
              else r == Value(t[0]) && Rest() == t[1..] && pos > old(pos) && input[pos - 1..] == t
    {
      r := ReadChar();
      while r.Value? && IsSpace(r.value)
        invariant Valid() && pos >= old(pos)
        invariant r.Value? ==>
                  pos > old(pos) && r.value == input[pos - 1] && SkipSpace(old(Rest())) == SkipSpace(input[pos - 1..])
        invariant r.Threw? ==> r == Threw(Malformed) && SkipSpace(old(Rest())) == ""
        decreases |input| - pos, r.Value?
      {
        assert input[pos - 1..][1..] == input[pos..];
        r := ReadChar();
      }
      if r.Value? {
        assert input[pos - 1..][1..] == input[pos..];
      }
    }

    method ReadStringToken() returns (r: Outcome<string>)
      requires Valid()
      modifies this
      ensures Valid() && pos >= old(pos) && Gives(r, Rest(), Token(old(Rest())))
    {
      var value := "";
      ghost var all := Rest();
      PrefixedNothing(Token(all));
      while true
        invariant Valid() && pos >= old(pos)
        invariant Token(all) == Prefixed(value, Token(Rest()))
        decreases |input| - pos
      {
        ghost var here := Rest();
        var c := ReadChar();
        if c.Threw? {
          return Threw(c.error);
        }
        if c.value == '"' {
          assert value + "" == value;
          return Value(value);
        }
        ghost var before := value;
        if c.value == '\\' {
          value := value + [c.value];
          c := ReadChar();
          if c.Threw? {
            return Threw(c.error);
          }
          assert here[..2] == [here[0], here[1]] && here[2..] == Rest();
          PrefixedTwice(before, here[..2], Token(Rest()));
        } else {
          assert here[..1] == [here[0]];
          PrefixedTwice(before, here[..1], Token(Rest()));
        }
        value := value + [c.value];
        assert value == before + here[..|here| - |Rest()|];
      }
    }

    method ReadWord(word: string, v: Json) returns (r: Outcome<Json>)
      requires Valid()
      modifies this
      ensures Valid() && pos >= old(pos) && Gives(r, Rest(), ParseWord(word, v, old(Rest())))
    {
      if |word| <= |input| - pos && input[pos..pos + |word|] == word {
        assert input[pos..][..|word|] == word;
        pos := pos + |word|;
        return Value(v);
      }
      assert |word| <= |Rest()| ==> input[pos..][..|word|] == input[pos..pos + |word|];
      r := Threw(Malformed);
    }

    /** The digits and points that follow, after a first character. */
    method ScanNumber(c: char) returns (text: string, dots: nat)
      requires Valid() && c != '.'
      modifies this
      ensures Valid() && pos >= old(pos)
      ensures var all := old(Rest());
              var n := NumberLength(all);
              text == [c] + all[..n] && Rest() == all[n..] && (dots > 0 <==> '.' in text)
    {
      hide NumberLength;
      text, dots := [c], 0;
      ghost var all := Rest();
      ghost var k := 0;
      while pos < |input| && (IsDigit(input[pos]) || input[pos] == '.')
        invariant 0 <= k <= |all| && pos == old(pos) + k <= |input|
        invariant text == [c] + all[..k] && (dots > 0 <==> '.' in text)
        invariant NumberLength(all) == k + NumberLength(all[k..])
        decreases |input| - pos
      {
        NumberLengthStep(all, k);
        if input[pos] == '.' {
          dots := dots + 1;
        }
        text := text + [input[pos]];
        pos, k := pos + 1, k + 1;
      }
      NumberLengthStep(all, k);
    }

    method ReadNumber(c: char) returns (r: Outcome<Json>)
      requires Valid() && (c == '-' || IsDigit(c))
      modifies this
      ensures Valid() && pos >= old(pos) && Gives(r, Rest(), ParseNumber(c, old(Rest())))
    {
      hide NumberLength, TextValue;
      var text, dots := ScanNumber(c);
      if dots > 0 {
        return Threw(RealNumber);
      }
      if |text| > 1 && (text[0] == '0' || (text[0] == '-' && text[1] == '0')) {
        return Threw(Malformed);
      }
      r := Value(Integer(TextValue(text)));
    }

    /** `operator>>`. */
    method ReadValue() returns (r: Outcome<Json>)
      requires Valid()
      modifies this
      ensures Valid() && pos >= old(pos) && Gives(r, Rest(), ParseValue(old(Rest())))
      decreases |input| - pos, 0
    {
      hide ParseArray, ParseObject, ParseNumber, ParseWord, Token, SkipSpace;
      var c := ReadNonWsChar();
      if c.Threw? {
        return Threw(Malformed);
      }
      match c.value {
        case '[' => r := ReadArray();
        case 't' => r := ReadWord("rue", Bool(true));
        case 'f' => r := ReadWord("alse", Bool(false));
        case 'n' => r := ReadWord("ull", Nil);
        case '{' => r := ReadObject();
        case '"' =>
          var s := ReadStringToken();
          r := if s.Value? then Value(String(s.value)) else Threw(s.error);
        case other =>
          if other == '-' || IsDigit(other) {
            r := ReadNumber(other);
          } else {
            r := Threw(Malformed);
          }
      }
    }

    method ReadArray() returns (r: Outcome<Json>)
      requires Valid()
      modifies this
      ensures Valid() && pos >= old(pos) && Gives(r, Rest(), ParseArray(old(Rest())))
      decreases |input| - pos, 2
    {
      hide ParseValue, SkipSpace;
      var c := ReadNonWsChar();
      if c.Threw? {
        return Threw(Malformed);
      }
      if c.value == ']' {
        return Value(Array([]));
      }
      pos := pos - 1;
      var value := [];
      while true
        invariant Valid() && pos >= old(pos)
        invariant ParseArray(old(Rest())) == ParseItems(Rest(), value)
        decreases |input| - pos
      {
        ghost var here := pos;
        var v := ReadValue();
        if v.Threw? {
          return v;
        }
        value := value + [v.value];
        c := ReadNonWsChar();
        if c.Threw? {
          return Threw(Malformed);
        }
        if c.value == ']' {
          return Value(Array(value));
        }
        if c.value != ',' {
          return Threw(Malformed);
        }
      }
    }

    /** One round of the loop of `readObject`, from the character already read. */
    method ReadMember() returns (r: Outcome<Member>)
      requires Valid() && pos > 0
      modifies this
      ensures Valid() && pos >= old(pos) && Gives(r, Rest(), ParseMember(old(input[pos - 1..])))
      decreases |input| - pos, 1
    {
      hide ParseValue, Token, SkipSpace;
      assert input[pos - 1..][1..] == Rest();
      if input[pos - 1] != '"' {
        return Threw(Malformed);
      }
      var name := ReadStringToken();
      if name.Threw? {
        return Threw(name.error);
      }
      var c := ReadNonWsChar();
      if c.Threw? || c.value != ':' {
        return Threw(Malformed);
      }
      var v := ReadValue();
      r := if v.Threw? then Threw(v.error) else Value(Member(name.value, v.value));
    }

    method ReadObject() returns (r: Outcome<Json>)
      requires Valid()
      modifies this
      ensures Valid() && pos >= old(pos) && Gives(r, Rest(), ParseObject(old(Rest())))
      decreases |input| - pos, 2
    {
      hide ParseMember, SkipSpace, Insert;
      var c := ReadNonWsChar();
      if c.Threw? {
        return Threw(Malformed);
      }
      if c.value == '}' {
        return Value(Object([]));
      }
      var value := [];
      while true
        invariant Valid() && pos > old(pos)
        invariant ParseObject(old(Rest())) == ParseMembers(input[pos - 1..], value)
        decreases |input| - pos
      {
        var m := ReadMember();
        if m.Threw? {
          return Threw(m.error);
        }
        value := Insert(value, m.value.key, m.value.value);
        c := ReadNonWsChar();
        if c.Threw? {
          return Threw(Malformed);
        }
        if c.value == '}' {
          return Value(Object(value));
        }
        if c.value != ',' {
          return Threw(Malformed);
        }
        c := ReadNonWsChar();
        if c.Threw? {
          return Threw(Malformed);
        }
      }
    }
  }

  lemma {:induction false} NumberLengthStep(s: string, k: nat)
    requires k <= |s|
    ensures NumberLength(s[k..])
            == if k < |s| && (IsDigit(s[k]) || s[k] == '.') then 1 + NumberLength(s[k + 1..]) else 0
  {
    assert k < |s| ==> s[k..][1..] == s[k + 1..];
  }

  lemma {:induction false} PrefixedNothing(r: Result<string>)
    ensures Prefixed("", r) == r
  {
    if r.Ok? {
      assert "" + r.value == r.value;
    }
  }

  lemma {:induction false} PrefixedTwice(p: string, q: string, r: Result<string>)
    ensures Prefixed(p, Prefixed(q, r)) == Prefixed(p + q, r)
  {
    if r.Ok? {
      assert p + (q + r.value) == p + q + r.value;
    }
  }
}
