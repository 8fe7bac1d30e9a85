/** The recursive printer of `JsonValue.cpp` on an output stream. */
module JsonWriters {
  import opened JsonText

  class Writer {
    var out: string

    constructor ()
      ensures out == ""
    {
      out := "";
    }

    /** `operator<<`: appends exactly the printed value. */
    method Write(v: Json)
      modifies this
      ensures out == old(out) + Print(v)
      decreases v, 1
    {
      hide Print, PrintItems, PrintMembers;
      PrintCases(v);
      match v {
        case Array(items) => WriteItems(items);
        case Bool(b) => out := out + (if b then "true" else "false");
        case Integer(i) => out := out + PrintInteger(i);
        case Nil => out := out + "null";
        case Object(ms) => WriteMembers(ms);
        case String(s) => out := out + "\"" + s + "\"";
      }
    }

    method WriteItems(items: seq<Json>)
      modifies this
      ensures out == old(out) + ("[" + PrintItems(items, true) + "]")
      decreases items, 0
    {
      hide Print, PrintItems;
      ghost var all := old(out) + ("[" + PrintItems(items, true) + "]");
      ItemsCases(items, true);
      out := out + "[";
      if items != [] {
        Write(items[0]);
        for i := 1 to |items|
          invariant out + (PrintItems(items[i..], false) + "]") == all
        {
          ItemsCases(items[i..], false);
          assert items[i..][1..] == items[i + 1..];
          ghost var before := out;
          out := out + ",";
          Write(items[i]);
          Split(before, ",", Print(items[i]), PrintItems(items[i + 1..], false), "]");
        }
        assert items[|items|..] == [];
        ItemsCases([], false);
      }
      out := out + "]";
    }

    method WriteMembers(ms: seq<Member>)
      modifies this
      ensures out == old(out) + ("{" + PrintMembers(ms, true) + "}")
      decreases ms, 0
    {
      hide Print, PrintMembers;
      ghost var all := old(out) + ("{" + PrintMembers(ms, true) + "}");
      MembersCases(ms, true);
      out := out + "{";
      if ms != [] {
        out := out + "\"" + ms[0].key + "\":";
        Write(ms[0].value);
        for i := 1 to |ms|
          invariant out + (PrintMembers(ms[i..], false) + "}") == all
        {
          MembersCases(ms[i..], false);
          assert ms[i..][1..] == ms[i + 1..];
          ghost var before := out;
          out := out + ",\"" + ms[i].key + "\":";
          Write(ms[i].value);
          Split(before, ",\"" + ms[i].key + "\":", Print(ms[i].value), PrintMembers(ms[i + 1..], false), "}");
        }
        assert ms[|ms|..] == [];
        MembersCases([], false);
      }
      out := out + "}";
    }
  }

  lemma {:induction false} Split(before: string, a: string, b: string, c: string, d: string)
    ensures before + (a + b + c + d) == before + a + b + (c + d)
  {
  }

  lemma {:induction false} PrintCases(v: Json)
    ensures match v
            case Array(items) => Print(v) == "[" + PrintItems(items, true) + "]"
            case Bool(b) => Print(v) == if b then "true" else "false"
            case Integer(i) => Print(v) == PrintInteger(i)
            case Nil => Print(v) == "null"
            case Object(ms) => Print(v) == "{" + PrintMembers(ms, true) + "}"
            case String(s) => Print(v) == "\"" + s + "\""
  {
  }

  lemma {:induction false} ItemsCases(items: seq<Json>, first: bool)
    ensures items == [] ==> PrintItems(items, first) == ""
    ensures items != [] ==>
            PrintItems(items, first) == (if first then "" else ",") + Print(items[0]) + PrintItems(items[1..], false)
  {
  }

  lemma {:induction false} MembersCases(ms: seq<Member>, first: bool)
    ensures ms == [] ==> PrintMembers(ms, first) == ""
    ensures ms != [] ==> PrintMembers(ms, first)
                         == (if first then "" else ",") + "\"" + ms[0].key + "\":" + Print(ms[0].value)
                             + PrintMembers(ms[1..], false)
  {
  }
}
