/** Go's order of strings, and sorting a set of them. */
module TextOrder {
  import opened IndexSets

  /** Go's byte-wise string order. */
  predicate LexLess(a: string, b: string) {
    b != [] && (a == [] || a[0] < b[0] || (a[0] == b[0] && LexLess(a[1..], b[1..])))
  }

  lemma {:induction false} LexTotal(a: string, b: string)
    ensures a == b || LexLess(a, b) || LexLess(b, a)
    ensures !(LexLess(a, b) && LexLess(b, a)) && !LexLess(a, a)
  {
    if a != [] { LexTotal(a[1..], a[1..]); }
    if a != [] && b != [] {
      LexTotal(a[1..], b[1..]);
      if a[0] == b[0] && a[1..] == b[1..] {
        assert a == [a[0]] + a[1..] && b == [b[0]] + b[1..];
      }
    }
  }

  lemma {:induction false} LexTransitive(a: string, b: string, c: string)
    requires LexLess(a, b) && LexLess(b, c)
    ensures LexLess(a, c)
  {
    if a != [] && a[0] == b[0] == c[0] { LexTransitive(a[1..], b[1..], c[1..]); }
  }

  /** Less means a proper prefix, or smaller at the first letter that differs. */
  lemma {:induction false} LexExactly(a: string, b: string)
    ensures LexLess(a, b) <==>
            || (|a| < |b| && a == b[..|a|])
            || exists i :: 0 <= i < |a| && i < |b| && a[..i] == b[..i] && a[i] < b[i]
  {
    if a != [] && b != [] && a[0] == b[0] {
      LexExactly(a[1..], b[1..]);
      LexTail(a, b);
    } else if a != [] && b != [] && a[0] < b[0] {
      assert a[..0] == b[..0];
    }
  }

  lemma LexTail(a: string, b: string)
    requires a != [] && b != [] && a[0] == b[0]
    ensures (|a| < |b| && a == b[..|a|]) <==> (|a[1..]| < |b[1..]| && a[1..] == b[1..][..|a[1..]|])
    ensures (exists i :: 0 <= i < |a| && i < |b| && a[..i] == b[..i] && a[i] < b[i]) <==>
            (exists i :: 0 <= i < |a[1..]| && i < |b[1..]| && a[1..][..i] == b[1..][..i] && a[1..][i] < b[1..][i])
  {
    var s, t := a[1..], b[1..];
    assert a == [a[0]] + s && b == [b[0]] + t;
    if |a| <= |b| { assert b[..|a|] == [b[0]] + t[..|s|]; }
    if i :| 0 <= i < |a| && i < |b| && a[..i] == b[..i] && a[i] < b[i] {
      assert s[..i - 1] == a[..i][1..] && t[..i - 1] == b[..i][1..];
      assert s[i - 1] == a[i] && t[i - 1] == b[i];
    }
    if i :| 0 <= i < |s| && i < |t| && s[..i] == t[..i] && s[i] < t[i] {
      assert a[..i + 1] == [a[0]] + s[..i] && b[..i + 1] == [b[0]] + t[..i];
      assert a[i + 1] == s[i] && b[i + 1] == t[i];
    }
  }

  predicate Ascending(l: seq<string>) {
    forall i, j :: 0 <= i < j < |l| ==> LexLess(l[i], l[j])
  }

  /** The place of a new text in an ascending list. */
  function Placed(x: string, l: seq<string>): seq<string> {
    if l != [] && LexLess(l[0], x) then [l[0]] + Placed(x, l[1..]) else [x] + l
  }

  lemma {:induction false} PlacedElements(x: string, l: seq<string>)
    ensures forall y :: y in Placed(x, l) <==> y == x || y in l
  {
    if l != [] && LexLess(l[0], x) {
      PlacedElements(x, l[1..]);
      assert l == [l[0]] + l[1..];
    }
  }

  lemma {:induction false} PlacedAscends(x: string, l: seq<string>)
    requires Ascending(l) && x !in l
    ensures Ascending(Placed(x, l)) && Elements(Placed(x, l)) == Elements(l) + {x}
  {
    PlacedElements(x, l);
    if l != [] {
      LexTotal(l[0], x);
      if LexLess(l[0], x) {
        PlacedElements(x, l[1..]);
        PlacedAscends(x, l[1..]);
        hide LexLess;
        forall j | 0 <= j < |Placed(x, l[1..])|
          ensures LexLess(l[0], Placed(x, l[1..])[j])
        {
          assert Placed(x, l[1..])[j] in Placed(x, l[1..]);
        }
      } else {
        forall j | 0 < j < |l|
          ensures LexLess(x, l[j])
        {
          LexTransitive(x, l[0], l[j]);
        }
      }
    }
  }

  method Sorted(texts: set<string>) returns (l: seq<string>)
    ensures Ascending(l) && Elements(l) == texts
  {
    l := [];
    var left := texts;
    while left != {}
      invariant left <= texts && Ascending(l) && Elements(l) == texts - left
    {
      SomeElement(left);
      var x :| x in left;
      assert x !in Elements(l);
      PlacedAscends(x, l);
      left := left - {x};
      l := Placed(x, l);
    }
  }
}
