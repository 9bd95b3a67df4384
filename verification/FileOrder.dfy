/** The order in which `sorted(bdir.glob("*.json"))` lists the member files (exoclaw_executor_dbos/batch_store.py). */
module FileOrder {
  import opened Basics

  /** Strings by their first difference, a prefix first. */
  predicate Before(a: string, b: string) {
    b != "" && (a == "" || a[0] < b[0] || (a[0] == b[0] && Before(a[1..], b[1..])))
  }

  lemma {:induction false} Irreflexive(a: string)
    ensures !Before(a, a)
  {
    if a != "" {
      Irreflexive(a[1..]);
    }
  }

  lemma {:induction false} Total(a: string, b: string)
    ensures a == b || Before(a, b) || Before(b, a)
  {
    if a != "" && b != "" && a[0] == b[0] {
      Total(a[1..], b[1..]);
      assert a == [a[0]] + a[1..] && b == [b[0]] + b[1..];
    }
  }

  lemma {:induction false} Transitive(a: string, b: string, c: string)
    requires Before(a, b) && Before(b, c)
    ensures Before(a, c)
  {
    if a != "" && a[0] == b[0] == c[0] {
      Transitive(a[1..], b[1..], c[1..]);
    }
  }

  /** The order of Python's strings: at the first difference the smaller character, or the end of the string, comes first. */
  lemma {:induction false} BeforeAtFirstDifference(a: string, b: string)
    ensures Before(a, b) <==> exists k: nat :: FirstDifference(a, b, k) && k < |b| && (k == |a| || a[k] < b[k])
  {
    if a != "" && b != "" && a[0] == b[0] {
      BeforeAtFirstDifference(a[1..], b[1..]);
      forall k: nat
        ensures FirstDifference(a, b, k + 1) <==> FirstDifference(a[1..], b[1..], k)
      {
        DifferenceNext(a, b, k);
      }
      if k: nat :| FirstDifference(a, b, k) && k < |b| && (k == |a| || a[k] < b[k]) {
        assert k > 0;
        assert FirstDifference(a[1..], b[1..], k - 1);
      }
      if k: nat :| FirstDifference(a[1..], b[1..], k) && k < |b[1..]| && (k == |a[1..]| || a[1..][k] < b[1..][k]) {
        assert FirstDifference(a, b, k + 1);
      }
    } else {
      assert FirstDifference(a, b, 0);
    }
  }

  lemma DifferenceNext(a: string, b: string, k: nat)
    requires a != "" && b != "" && a[0] == b[0]
    ensures FirstDifference(a, b, k + 1) <==> FirstDifference(a[1..], b[1..], k)
  {
    if k + 1 <= |a| && k + 1 <= |b| {
      assert a[..k + 1] == [a[0]] + a[1..][..k] && b[..k + 1] == [b[0]] + b[1..][..k];
      assert a[1..][..k] == a[..k + 1][1..] && b[1..][..k] == b[..k + 1][1..];
    }
  }

  predicate FirstDifference(a: string, b: string, k: nat) {
    k <= |a| && k <= |b| && a[..k] == b[..k] && (k == |a| || k == |b| || a[k] != b[k])
  }

  const SUFFIX := ".json"

  /** Files are ordered by their whole names. */
  predicate FileBefore(a: string, b: string) { Before(a + SUFFIX, b + SUFFIX) }

  lemma SameFile(a: string, b: string)
    requires a + SUFFIX == b + SUFFIX
    ensures a == b
  {
    assert a == (a + SUFFIX)[..|a + SUFFIX| - 5] && b == (b + SUFFIX)[..|b + SUFFIX| - 5];
  }

  predicate IsFirst(x: string, names: set<string>) {
    forall y :: y in names && y != x ==> FileBefore(x, y)
  }

  lemma {:induction false} SomeFirst(names: set<string>) returns (x: string)
    requires names != {}
    ensures x in names && IsFirst(x, names)
    decreases names
  {
    hide Before;
    var z :| z in names;
    var rest := names - {z};
    if rest == {} {
      x := z;
      assert forall y :: y in names ==> y == z || y in rest;
    } else {
      var m := SomeFirst(rest);
      Total(m + SUFFIX, z + SUFFIX);
      if FileBefore(m, z) {
        x := m;
      } else {
        if m + SUFFIX == z + SUFFIX {
          SameFile(m, z);
        }
        x := z;
        forall y | y in names && y != z
          ensures FileBefore(z, y)
        {
          assert y in rest;
          if y != m {
            assert FileBefore(m, y);
            Transitive(z + SUFFIX, m + SUFFIX, y + SUFFIX);
          }
        }
      }
    }
  }

  lemma OneFirst(names: set<string>, x: string, y: string)
    requires x in names && y in names && IsFirst(x, names) && IsFirst(y, names)
    ensures x == y
  {
    hide Before;
    if x != y {
      Transitive(x + SUFFIX, y + SUFFIX, x + SUFFIX);
      Irreflexive(x + SUFFIX);
    }
  }

  lemma FirstExists(names: set<string>)
    requires names != {}
    ensures exists x :: x in names && IsFirst(x, names)
    ensures forall x, y :: x in names && y in names && IsFirst(x, names) && IsFirst(y, names) ==> x == y
  {
    hide IsFirst;
    var x := SomeFirst(names);
    forall x, y | x in names && y in names && IsFirst(x, names) && IsFirst(y, names)
      ensures x == y
    {
      OneFirst(names, x, y);
    }
  }

  /** The files in order. */
  function Listed(names: set<string>): (r: seq<string>)
    decreases names
  {
    if names == {} then []
    else
      FirstExists(names);
      var x :| x in names && IsFirst(x, names);
      [x] + Listed(names - {x})
  }

  /** Each name once, each before all later ones. */
  lemma {:induction false} ListedIsSorted(names: set<string>)
    ensures |Listed(names)| == |names|
    ensures forall x :: x in Listed(names) <==> x in names
    ensures forall i, j :: 0 <= i < j < |Listed(names)| ==> FileBefore(Listed(names)[i], Listed(names)[j])
    decreases names
  {
    hide FileBefore;
    if names != {} {
      var r := Listed(names);
      var rest := names - {r[0]};
      FirstExists(names);
      assert r[0] in names && IsFirst(r[0], names) && r == [r[0]] + Listed(rest);
      ListedIsSorted(rest);
      forall i, j | 0 <= i < j < |r|
        ensures FileBefore(r[i], r[j])
      {
        assert r[j] == Listed(rest)[j - 1] && r[j] in Listed(rest);
      }
    }
  }
}
