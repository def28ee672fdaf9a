/** `Array.prototype.sort` on distinct strings: the strictly increasing arrangement of the same
    strings, by UTF-16 code units. */
module Sorting {
  import opened Texts

  predicate Less(a: Text, b: Text) {
    if b == [] then false
    else if a == [] then true
    else if a[0] != b[0] then a[0] < b[0]
    else Less(a[1..], b[1..])
  }

  lemma {:induction false} LessTotal(a: Text, b: Text)
    ensures !(Less(a, b) && Less(b, a))
    ensures a != b ==> Less(a, b) || Less(b, a)
    ensures Less(a, b) ==> a != b
  {
    if a != [] && b != [] && a[0] == b[0] {
      LessTotal(a[1..], b[1..]);
      assert a == [a[0]] + a[1..] && b == [b[0]] + b[1..];
    }
  }

  /** By UTF-16 code units: at the first difference the smaller unit, or the end of the string, comes first. */
  lemma {:induction false} LessMeaning(a: Text, b: Text, n: nat)
    requires n <= |a| && n <= |b| && a[..n] == b[..n]
    ensures n < |a| && n < |b| && a[n] != b[n] ==> (Less(a, b) <==> a[n] < b[n])
    ensures n == |a| < |b| ==> Less(a, b)
    ensures n == |b| ==> !Less(a, b)
  {
    if n > 0 {
      assert a[..n][0] == b[..n][0];
      assert a[1..][..n - 1] == a[..n][1..] == b[..n][1..] == b[1..][..n - 1];
      LessMeaning(a[1..], b[1..], n - 1);
    }
  }

  lemma {:induction false} LessTransitive(a: Text, b: Text, c: Text)
    requires Less(a, b) && Less(b, c)
    ensures Less(a, c)
  {
    if a != [] && a[0] == b[0] == c[0] {
      LessTransitive(a[1..], b[1..], c[1..]);
    }
  }

  ghost predicate Increasing(ts: seq<Text>) {
    forall i, j | 0 <= i < j < |ts| :: Less(ts[i], ts[j])
  }

  ghost predicate Distinct<T>(ts: seq<T>) {
    forall i, j | 0 <= i < j < |ts| :: ts[i] != ts[j]
  }

  function Insert(t: Text, ts: seq<Text>): (r: seq<Text>)
    ensures |r| == |ts| + 1
    ensures forall u :: u in r <==> u == t || u in ts
  {
    if ts == [] then [t]
    else if Less(t, ts[0]) then [t] + ts
    else
      assert ts == [ts[0]] + ts[1..];
      [ts[0]] + Insert(t, ts[1..])
  }

  function Sort(ts: seq<Text>): (r: seq<Text>)
    ensures |r| == |ts|
    ensures forall u :: u in r <==> u in ts
  {
    if ts == [] then [] else
      assert ts == [ts[0]] + ts[1..];
      Insert(ts[0], Sort(ts[1..]))
  }

  lemma {:induction false} InsertIncreasing(t: Text, ts: seq<Text>)
    requires Increasing(ts) && t !in ts
    ensures Increasing(Insert(t, ts))
  {
    if ts != [] {
      var r := Insert(t, ts);
      LessTotal(t, ts[0]);
      if Less(t, ts[0]) {
        forall j | 1 <= j < |ts| ensures Less(t, ts[j]) {
          LessTransitive(t, ts[0], ts[j]);
        }
      } else {
        InsertIncreasing(t, ts[1..]);
        forall j | 1 <= j < |r| ensures Less(ts[0], r[j]) {
          assert r[j] in Insert(t, ts[1..]);
        }
      }
    }
  }

  lemma {:induction false} SortIncreasing(ts: seq<Text>)
    requires Distinct(ts)
    ensures Increasing(Sort(ts))
  {
    if ts != [] {
      SortIncreasing(ts[1..]);
      InsertIncreasing(ts[0], Sort(ts[1..]));
    }
  }

  /** Increasing sequences with the same elements are the same sequence. */
  lemma {:induction false} IncreasingUnique(a: seq<Text>, b: seq<Text>)
    requires Increasing(a) && Increasing(b)
    requires forall t :: t in a <==> t in b
    ensures a == b
  {
    if a == [] {
      assert forall i | 0 <= i < |b| :: b[i] in b;
    } else {
      assert a[0] in b && b[0] in a;
      FirstIsLeast(a, b);
      forall t ensures t in a[1..] <==> t in b[1..] {
        TailElements(a, t);
        TailElements(b, t);
      }
      IncreasingUnique(a[1..], b[1..]);
      assert a == [a[0]] + a[1..] && b == [b[0]] + b[1..];
    }
  }

  lemma FirstIsLeast(a: seq<Text>, b: seq<Text>)
    requires Increasing(a) && Increasing(b) && a != [] && b != [] && a[0] in b && b[0] in a
    ensures a[0] == b[0]
  {
    FirstBelow(a, b[0]);
    FirstBelow(b, a[0]);
    LessTotal(a[0], b[0]);
  }

  lemma FirstBelow(a: seq<Text>, t: Text)
    requires Increasing(a) && t in a
    ensures a[0] == t || Less(a[0], t)
  {
  }

  lemma TailElements(a: seq<Text>, t: Text)
    requires Increasing(a) && a != []
    ensures t in a[1..] <==> t in a && t != a[0]
  {
    LessTotal(a[0], a[0]);
    assert a == [a[0]] + a[1..];
  }

  lemma {:induction false} DistinctCount<T>(s: seq<T>)
    requires Distinct(s)
    ensures |set x | x in s| == |s|
  {
    if s == [] {
      assert (set x | x in s) == {};
    } else {
      DistinctCount(s[1..]);
      assert s == [s[0]] + s[1..];
      assert (set x | x in s) == {s[0]} + (set x | x in s[1..]);
    }
  }

  /** Distinct sequences of one length: if one's elements are among the other's, they agree. */
  lemma DistinctSameElements<T>(a: seq<T>, b: seq<T>)
    requires Distinct(a) && Distinct(b) && |a| == |b|
    requires forall x | x in a :: x in b
    ensures forall x | x in b :: x in a
  {
    DistinctCount(a);
    DistinctCount(b);
    var p, q := set x | x in a, set x | x in b;
    if exists x :: x in b && x !in a {
      var x :| x in b && x !in a;
      assert p <= q - {x};
      Smaller(p, q - {x});
    }
  }

  lemma {:induction false} Smaller<T>(p: set<T>, q: set<T>)
    requires p <= q
    ensures |p| <= |q|
  {
    if p != {} {
      var x :| x in p;
      Smaller(p - {x}, q - {x});
    }
  }

  /** Sorting forgets the order its input came in. */
  lemma SortUnique(a: seq<Text>, b: seq<Text>)
    requires Distinct(a) && Distinct(b) && |a| == |b|
    requires forall t | t in a :: t in b
    ensures Sort(a) == Sort(b)
  {
    DistinctSameElements(a, b);
    SortIncreasing(a);
    SortIncreasing(b);
    IncreasingUnique(Sort(a), Sort(b));
  }
}
