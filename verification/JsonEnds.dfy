/** What a JSON text ends in: only an object's text has a closing brace as its last character. */
module JsonEnds {
  import opened Basics
  import opened JsonString
  import opened Json

  // ----- What is left over -----

  predicate Tail(s: string, rest: string) {
    |rest| <= |s| && s[|s| - |rest|..] == rest
  }

  /** The character in front of what is left over. */
  function Before(s: string, rest: string): char
    requires |rest| < |s|
  {
    s[|s| - |rest| - 1]
  }

  predicate Consumes(s: string, rest: string) { |rest| < |s| && Tail(s, rest) }

  lemma TailThen(s: string, t: string, rest: string)
    requires Tail(s, t) && Tail(t, rest)
    ensures Tail(s, rest) && (|rest| < |t| ==> Before(s, rest) == Before(t, rest))
  {
    assert s[|s| - |t|..][|t| - |rest|..] == s[|s| - |rest|..];
    if |rest| < |t| {
      assert s[|s| - |t|..][|t| - |rest| - 1] == s[|s| - |rest| - 1];
    }
  }

  lemma DropTail(s: string, n: nat)
    requires 0 < n <= |s|
    ensures Consumes(s, s[n..]) && Before(s, s[n..]) == s[n - 1]
  {
  }

  lemma {:induction false} SkipTail(s: string)
    ensures Tail(s, Skip(s))
    ensures s != "" && Skip(s) == "" ==> Space(s[|s| - 1])
  {
    hide Tail, Space;
    if s != "" && Space(s[0]) {
      SkipTail(s[1..]);
      OneDropped(s);
      TailThen(s, s[1..], Skip(s));
    } else {
      WholeTail(s);
    }
  }

  lemma OneDropped(s: string)
    requires s != ""
    ensures Tail(s, s[1..]) && (s[1..] == "" ==> s[|s| - 1] == s[0]) && (s[1..] != "" ==> s[|s| - 1] == s[1..][|s[1..]| - 1])
  {
  }

  lemma WholeTail(s: string)
    ensures Tail(s, s)
  {
  }

  // ----- Strings and words -----

  lemma CharTail(s: string)
    requires ReadChar(s).Some?
    ensures Consumes(s, ReadChar(s).value.1)
  {
    hide ReadUnit, ShortMeaning;
  }

  lemma {:induction false} StringEnds(s: string)
    requires ReadString(s).Some?
    ensures var rest := ReadString(s).value.1; Consumes(s, rest) && Before(s, rest) == '\"'
    decreases |s|
  {
    hide ReadChar;
    if s[0] == '\"' {
      DropTail(s, 1);
    } else {
      CharTail(s);
      var t := ReadChar(s).value.1;
      StringEnds(t);
      TailThen(s, t, ReadString(t).value.1);
    }
  }

  lemma NumberTextEnds(s: string)
    requires NumberLength(s) > 0
    ensures Digit(s[NumberLength(s) - 1])
  {
    hide DigitsAt, AfterFraction, AfterExponent;
    var sign := if s != "" && s[0] == '-' then 1 else 0;
    SomeDigit(s, sign);
    DigitsAreDigits(s, sign);
    var i := if s[sign] == '0' then sign + 1 else sign + DigitsAt(s, sign);
    FractionEnds(s, i);
    ExponentEnds(s, AfterFraction(s, i));
  }

  lemma LiteralEnds(g: Grammar, s: string)
    requires Literal(g, s).Some?
    ensures var (v, rest) := Literal(g, s).value; !v.Object? && Consumes(s, rest) && Before(s, rest) != '}'
  {
    hide NumberLength;
    var n := if "null" <= s || "true" <= s then 4 else if "false" <= s then 5
             else if NumberLength(s) > 0 then NumberLength(s) else ExtraLength(s);
    assert Literal(g, s).value.1 == s[n..];
    DropTail(s, n);
    if NumberLength(s) > 0 {
      NumberTextEnds(s);
    }
    assert "null"[3] == 'l' && "true"[3] == 'e' && "false"[4] == 'e' && "NaN"[2] == 'N' && "Infinity"[7] == 'y';
  }

  // ----- Values -----

  lemma {:induction false} ValueEnds(g: Grammar, s: string)
    requires ReadValue(g, s).Some?
    ensures var (v, rest) := ReadValue(g, s).value; Consumes(s, rest) && (v.Object? || Before(s, rest) != '}')
    decreases |s|, 0
  {
    hide ReadString, ReadItems, ReadMembers, Literal, Skip;
    var t := Skip(s);
    SkipTail(s);
    var rest := ReadValue(g, s).value.1;
    if t[0] == '\"' {
      StringEnds(t[1..]);
      AfterFirst(t, rest);
    } else if t[0] == '[' {
      var u := Skip(t[1..]);
      if u != "" && u[0] == ']' {
        SkipTail(t[1..]);
        DropTail(u, 1);
        TailThen(t[1..], u, rest);
      } else {
        ItemsEnd(g, t[1..]);
      }
      AfterFirst(t, rest);
    } else if t[0] == '{' {
      var u := Skip(t[1..]);
      if u != "" && u[0] == '}' {
        SkipTail(t[1..]);
        DropTail(u, 1);
        TailThen(t[1..], u, rest);
      } else {
        MembersEnd(g, t[1..]);
      }
      AfterFirst(t, rest);
    } else {
      LiteralEnds(g, t);
    }
    TailThen(s, t, rest);
  }

  lemma AfterFirst(t: string, rest: string)
    requires t != "" && Consumes(t[1..], rest)
    ensures Consumes(t, rest) && Before(t, rest) == Before(t[1..], rest)
  {
    DropTail(t, 1);
    TailThen(t, t[1..], rest);
  }

  lemma {:induction false} ItemsEnd(g: Grammar, s: string)
    requires ReadItems(g, s).Some?
    ensures var rest := ReadItems(g, s).value.1; Consumes(s, rest) && Before(s, rest) == ']'
    decreases |s|, 1
  {
    hide ReadValue, MoreItems;
    var t := ReadValue(g, s).value.1;
    ValueEnds(g, s);
    MoreItemsEnd(g, t);
    TailThen(s, t, MoreItems(g, t).value.1);
  }

  lemma {:induction false} MoreItemsEnd(g: Grammar, s: string)
    requires MoreItems(g, s).Some?
    ensures var rest := MoreItems(g, s).value.1; Consumes(s, rest) && Before(s, rest) == ']'
    decreases |s|, 2
  {
    hide ReadItems, Skip;
    var t := Skip(s);
    SkipTail(s);
    if t[0] == ']' {
      DropTail(t, 1);
    } else {
      ItemsEnd(g, t[1..]);
      AfterFirst(t, MoreItems(g, s).value.1);
    }
    TailThen(s, t, MoreItems(g, s).value.1);
  }

  lemma KeyEnds(s: string)
    requires ReadKey(s).Some?
    ensures Consumes(s, ReadKey(s).value.1)
  {
    hide ReadString, Skip;
    var t := Skip(s);
    SkipTail(s);
    var k := ReadString(t[1..]).value.1;
    StringEnds(t[1..]);
    AfterFirst(t, k);
    SkipTail(k);
    var u := Skip(k);
    DropTail(u, 1);
    TailThen(k, u, u[1..]);
    TailThen(t, k, u[1..]);
    TailThen(s, t, u[1..]);
  }

  lemma {:induction false} MembersEnd(g: Grammar, s: string)
    requires ReadMembers(g, s).Some?
    ensures Consumes(s, ReadMembers(g, s).value.1)
    decreases |s|, 1
  {
    hide ReadKey, ReadValue, MoreMembers;
    var k := ReadKey(s).value.1;
    KeyEnds(s);
    var t := ReadValue(g, k).value.1;
    ValueEnds(g, k);
    MoreMembersEnd(g, t);
    TailThen(s, k, t);
    TailThen(s, t, MoreMembers(g, t).value.1);
  }

  lemma {:induction false} MoreMembersEnd(g: Grammar, s: string)
    requires MoreMembers(g, s).Some?
    ensures Consumes(s, MoreMembers(g, s).value.1)
    decreases |s|, 2
  {
    hide ReadMembers, Skip;
    var t := Skip(s);
    SkipTail(s);
    if t[0] == '}' {
      DropTail(t, 1);
    } else {
      MembersEnd(g, t[1..]);
      AfterFirst(t, MoreMembers(g, s).value.1);
    }
    TailThen(s, t, MoreMembers(g, s).value.1);
  }

  lemma LastOfTail(s: string, rest: string)
    requires Tail(s, rest) && rest != ""
    ensures s[|s| - 1] == rest[|rest| - 1]
  {
  }

  /** A JSON text whose last character is a closing brace is an object. */
  lemma OnlyObjectsEndInBrace(g: Grammar, s: string)
    requires s != "" && s[|s| - 1] == '}' && Loads(g, s).Some?
    ensures Loads(g, s).value.Object?
  {
    hide ReadValue, Skip;
    var rest := ReadValue(g, s).value.1;
    ValueEnds(g, s);
    SkipTail(rest);
    if rest != "" {
      LastOfTail(s, rest);
    }
  }
}
