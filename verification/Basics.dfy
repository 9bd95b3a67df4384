/** What several modules share: optional values, joined pieces, white space as Python's strings know it. */
module Basics {

  datatype Option<+T> = None | Some(value: T)

  function Min(a: int, b: int): int { if a < b then a else b }
  function Max(a: int, b: int): int { if a > b then a else b }

  // ----- Pieces in sequence -----

  function Concat<T>(pieces: seq<seq<T>>): seq<T> {
    if pieces == [] then [] else pieces[0] + Concat(pieces[1..])
  }

  lemma Assoc<T>(a: seq<T>, b: seq<T>, c: seq<T>)
    ensures (a + b) + c == a + (b + c)
  {
  }

  lemma {:induction false} ConcatJoins<T>(a: seq<seq<T>>, b: seq<seq<T>>)
    ensures Concat(a + b) == Concat(a) + Concat(b)
  {
    if a == [] {
      assert a + b == b;
    } else {
      assert (a + b)[1..] == a[1..] + b;
      ConcatJoins(a[1..], b);
      Assoc(a[0], Concat(a[1..]), Concat(b));
    }
  }

  lemma ConcatOne<T>(piece: seq<T>)
    ensures Concat([piece]) == piece
  {
    assert [piece][1..] == [];
  }

  lemma ConcatSnoc<T>(pieces: seq<seq<T>>, last: seq<T>)
    ensures Concat(pieces + [last]) == Concat(pieces) + last
  {
    ConcatJoins(pieces, [last]);
    ConcatOne(last);
  }

  // ----- Positions -----

  /** Moving every position by one keeps their number. */
  lemma {:induction false} Shifted(s: set<nat>)
    ensures |set k: nat | k in s :: k + 1| == |s|
    decreases s
  {
    var t := set k: nat | k in s :: k + 1;
    if s != {} {
      var x :| x in s;
      var less := set k: nat | k in s - {x} :: k + 1;
      Shifted(s - {x});
      assert x + 1 !in less;
      forall n
        ensures n in t <==> n in less + {x + 1}
      {
        assert n == x + 1 ==> x in s && x + 1 in t;
        if n in t && n != x + 1 {
          var k: nat :| k in s && k + 1 == n;
          assert k in s - {x};
        }
      }
      assert t == less + {x + 1};
    }
  }

  // ----- White space -----

  /** The characters `str.strip()` removes. */
  predicate Blank(c: char) {
    '\U{9}' <= c <= '\U{d}' || '\U{1c}' <= c <= ' ' || c == '\U{85}' || c == '\U{a0}' || c == '\U{1680}' ||
    '\U{2000}' <= c <= '\U{200a}' || c == '\U{2028}' || c == '\U{2029}' || c == '\U{202f}' || c == '\U{205f}' || c == '\U{3000}'
  }

  /** `str.rstrip()`. */
  function RStrip(s: string): (r: string)
    ensures r <= s
    ensures r != "" ==> !Blank(r[|r| - 1])
  {
    if s != "" && Blank(s[|s| - 1]) then RStrip(s[..|s| - 1]) else s
  }
}
