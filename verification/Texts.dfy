/** Text as the bridge sees it: sequences of UTF-16 code units under ordinal comparison. */
module Texts {
  type Unit = n: int | 0 <= n < 0x1_0000
  type Text = seq<Unit>

  datatype Option<+T> = None | Some(value: T)

  /** `string.CompareOrdinal(a, b) < 0`. */
  predicate Before(a: Text, b: Text) {
    if b == [] then false
    else if a == [] then true
    else a[0] < b[0] || (a[0] == b[0] && Before(a[1..], b[1..]))
  }

  /** Sorted by ordinal comparison, with no text twice. */
  predicate Ascending(s: seq<Text>) {
    forall i, j {:trigger Before(s[i], s[j])} :: 0 <= i < j < |s| ==> Before(s[i], s[j])
  }

  function Elements<T>(s: seq<T>): set<T> {
    set x | x in s
  }

  lemma ElementsCons<T>(x: T, s: seq<T>)
    ensures Elements([x] + s) == {x} + Elements(s)
  {
    forall y | y in {x} + Elements(s) ensures y in [x] + s {
      if y in s {
        var i :| 0 <= i < |s| && s[i] == y;
        assert ([x] + s)[i + 1] == y;
      } else {
        assert ([x] + s)[0] == y;
      }
    }
  }

  lemma {:induction false} BeforeIrreflexive(a: Text)
    ensures !Before(a, a)
  {
    if a != [] {
      BeforeIrreflexive(a[1..]);
    }
  }

  lemma {:induction false} BeforeTransitive(a: Text, b: Text, c: Text)
    requires Before(a, b) && Before(b, c)
    ensures Before(a, c)
  {
    if a != [] && a[0] == b[0] && b[0] == c[0] {
      BeforeTransitive(a[1..], b[1..], c[1..]);
    }
  }

  lemma {:induction false} BeforeTotal(a: Text, b: Text)
    ensures a == b || Before(a, b) || Before(b, a)
  {
    if a != [] && b != [] && a[0] == b[0] {
      BeforeTotal(a[1..], b[1..]);
      assert a == [a[0]] + a[1..] && b == [b[0]] + b[1..];
    }
  }

  lemma BeforeAsymmetric(a: Text, b: Text)
    requires Before(a, b)
    ensures !Before(b, a) && a != b
  {
    BeforeIrreflexive(a);
    if Before(b, a) {
      BeforeTransitive(a, b, a);
    }
  }

  predicate IsFirst(m: Text, s: set<Text>) {
    m in s && forall k :: k in s && k != m ==> Before(m, k)
  }

  /** Every non-empty finite set of texts has a first one. */
  lemma {:induction false} FirstExists(s: set<Text>)
    requires s != {}
    ensures exists m :: IsFirst(m, s)
  {
    var x :| x in s;
    if s == {x} {
      assert IsFirst(x, s);
    } else {
      FirstExists(s - {x});
      var y :| IsFirst(y, s - {x});
      BeforeTotal(x, y);
      if Before(x, y) {
        forall k | k in s && k != x ensures Before(x, k) {
          if k != y { BeforeTransitive(x, y, k); }
        }
        assert IsFirst(x, s);
      } else {
        assert IsFirst(y, s);
      }
    }
  }

  ghost function First(s: set<Text>): (m: Text)
    requires s != {}
    ensures IsFirst(m, s)
  {
    FirstExists(s);
    var m :| IsFirst(m, s);
    m
  }

  /** The texts of a set in ordinal order. */
  ghost function Sorted(s: set<Text>): (r: seq<Text>)
    ensures Ascending(r) && Elements(r) == s
  {
    if s == {} then [] else
      var m := First(s);
      var tail := Sorted(s - {m});
      ElementsCons(m, tail);
      assert forall j :: 0 <= j < |tail| ==> tail[j] in Elements(tail);
      [m] + tail
  }

  lemma AscendingTail(s: seq<Text>)
    requires Ascending(s) && s != []
    ensures Ascending(s[1..]) && Elements(s[1..]) == Elements(s) - {s[0]}
    ensures forall k :: k in Elements(s) && k != s[0] ==> Before(s[0], k)
  {
    assert s == [s[0]] + s[1..];
    forall k | k in s[1..] ensures k != s[0] && Before(s[0], k) {
      var i :| 1 <= i < |s| && s[i] == k;
      BeforeAsymmetric(s[0], s[i]);
    }
  }

  /** A set has one ordinal order only. */
  lemma {:induction false} AscendingIsSorted(s: seq<Text>)
    ensures Ascending(s) ==> s == Sorted(Elements(s))
  {
    if Ascending(s) && s != [] {
      AscendingTail(s);
      assert s[0] in Elements(s);
      var m := First(Elements(s));
      if m != s[0] { BeforeAsymmetric(m, s[0]); }
      AscendingIsSorted(s[1..]);
      assert s == [s[0]] + s[1..];
    } else if s == [] {
      assert Elements(s) == {};
    }
  }

  /** `list.Sort(StringComparer.Ordinal)` over the keys of a dictionary, by insertion. */
  method SortOrdinal(keys: set<Text>) returns (r: seq<Text>)
    ensures r == Sorted(keys)
  {
    r := [];
    var todo := keys;
    while todo != {}
      invariant todo <= keys
      invariant Ascending(r) && Elements(r) == keys - todo
      decreases todo
    {
      var k :| k in todo;
      var i := 0;
      while i < |r| && Before(r[i], k)
        invariant 0 <= i <= |r|
        invariant forall j :: 0 <= j < i ==> Before(r[j], k)
      {
        i := i + 1;
      }
      InsertAscending(r, i, k);
      r, todo := r[..i] + [k] + r[i..], todo - {k};
    }
    assert keys - todo == keys;
    AscendingIsSorted(r);
  }

  lemma InsertAscending(r: seq<Text>, i: nat, k: Text)
    requires Ascending(r) && k !in r && i <= |r|
    requires forall j :: 0 <= j < i ==> Before(r[j], k)
    requires i < |r| ==> !Before(r[i], k)
    ensures Ascending(r[..i] + [k] + r[i..])
    ensures Elements(r[..i] + [k] + r[i..]) == Elements(r) + {k}
  {
    var n := r[..i] + [k] + r[i..];
    if i < |r| {
      BeforeTotal(k, r[i]);
      forall j | i < j < |r| ensures Before(k, r[j]) { BeforeTransitive(k, r[i], r[j]); }
    }
    forall a, b | 0 <= a < b < |n| ensures Before(n[a], n[b]) {
      if b < i {
        assert n[a] == r[a] && n[b] == r[b];
      } else if b == i {
        assert n[a] == r[a] && n[b] == k;
      } else if a < i {
        assert n[a] == r[a] && n[b] == r[b - 1];
      } else if a > i {
        assert n[a] == r[a - 1] && n[b] == r[b - 1];
      }
    }
    forall x | x in Elements(r) + {k} ensures x in n {
      if x in r {
        var j :| 0 <= j < |r| && r[j] == x;
        assert n[if j < i then j else j + 1] == x;
      } else {
        assert n[i] == k;
      }
    }
  }
}
