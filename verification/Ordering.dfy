/** `ORDER BY created_at, id`: a total order on rows, so a listing is determined by the table. */
module Ordering {
  /** Lexicographic order on strings, strict. */
  predicate StringBefore(a: string, b: string) {
    if b == [] then false
    else if a == [] then true
    else a[0] < b[0] || (a[0] == b[0] && StringBefore(a[1..], b[1..]))
  }

  predicate Before(created: map<string, nat>, a: string, b: string)
    requires a in created && b in created
  {
    created[a] < created[b] || (created[a] == created[b] && StringBefore(a, b))
  }

  lemma {:induction false} StringBeforeTotal(a: string, b: string)
    ensures a == b || StringBefore(a, b) || StringBefore(b, a)
    ensures !(StringBefore(a, b) && StringBefore(b, a)) && !StringBefore(a, a)
    decreases |a|
  {
    if a != [] {
      StringBeforeTotal(a[1..], if b == [] then [] else b[1..]);
      if b != [] && a[0] == b[0] {
        assert a == [a[0]] + a[1..] && b == [b[0]] + b[1..];
      }
    }
  }

  lemma {:induction false} StringBeforeTransitive(a: string, b: string, c: string)
    requires StringBefore(a, b) && StringBefore(b, c)
    ensures StringBefore(a, c)
    decreases |a|
  {
    if a != [] && a[0] == b[0] == c[0] {
      StringBeforeTransitive(a[1..], b[1..], c[1..]);
    }
  }

  ghost predicate IsFirst(created: map<string, nat>, ids: set<string>, m: string)
    requires ids <= created.Keys
  {
    m in ids && forall x :: x in ids ==> x == m || Before(created, m, x)
  }

  lemma {:induction false} FirstExists(created: map<string, nat>, ids: set<string>)
    requires ids != {} && ids <= created.Keys
    ensures exists m :: IsFirst(created, ids, m)
    decreases |ids|
  {
    var a :| a in ids;
    if ids == {a} {
      assert IsFirst(created, ids, a);
    } else {
      FirstExists(created, ids - {a});
      var n :| IsFirst(created, ids - {a}, n);
      StringBeforeTotal(a, n);
      var m := if Before(created, a, n) then a else n;
      forall x | x in ids && x != m ensures Before(created, m, x) {
        if m == a && x != n {
          assert x in ids - {a} && Before(created, n, x);
          if created[a] == created[n] == created[x] {
            StringBeforeTransitive(a, n, x);
          }
        }
        if m == n && x != a {
          assert x in ids - {a};
        }
      }
      assert IsFirst(created, ids, m);
    }
  }

  lemma FirstUnique(created: map<string, nat>, ids: set<string>, a: string, b: string)
    requires ids <= created.Keys && IsFirst(created, ids, a) && IsFirst(created, ids, b)
    ensures a == b
  {
    StringBeforeTotal(a, b);
  }

  ghost function First(created: map<string, nat>, ids: set<string>): (m: string)
    requires ids != {} && ids <= created.Keys
    ensures IsFirst(created, ids, m)
  {
    FirstExists(created, ids);
    var m :| IsFirst(created, ids, m);
    m
  }

  /** The ids in listing order. */
  ghost function Ordered(created: map<string, nat>, ids: set<string>): seq<string>
    requires ids <= created.Keys
    decreases |ids|
  {
    if ids == {} then []
    else
      var m := First(created, ids);
      [m] + Ordered(created, ids - {m})
  }

  ghost predicate Increasing(created: map<string, nat>, r: seq<string>) {
    && (forall i :: 0 <= i < |r| ==> r[i] in created)
    && (forall i, j :: 0 <= i < j < |r| ==> r[i] != r[j] && Before(created, r[i], r[j]))
  }

  /** A listing holds every id once, in strictly increasing order. */
  lemma {:induction false} OrderedIsListing(created: map<string, nat>, ids: set<string>)
    requires ids <= created.Keys
    ensures forall x :: x in Ordered(created, ids) <==> x in ids
    ensures Increasing(created, Ordered(created, ids))
    decreases |ids|
  {
    if ids != {} {
      var m := First(created, ids);
      OrderedIsListing(created, ids - {m});
      var tail := Ordered(created, ids - {m});
      var r := Ordered(created, ids);
      forall i | 0 <= i < |r| ensures r[i] in created {
        assert r[i] in r;
      }
      forall i, j | 0 <= i < j < |r| ensures r[i] != r[j] && Before(created, r[i], r[j]) {
        assert r[j] == tail[j - 1] && tail[j - 1] in tail;
        if i > 0 {
          assert r[i] == tail[i - 1];
        }
      }
    }
  }

  // -------------------------------------------- the order, said otherwise

  /** The strings agree up to n, and there a ends first or has the smaller character. */
  ghost predicate FirstDifference(a: string, b: string, n: nat) {
    && n <= |a| && n <= |b| && a[..n] == b[..n]
    && n < |b| && (n == |a| || a[n] < b[n])
  }

  /** Dictionary order: a proper prefix comes first, else the first differing character decides. */
  ghost predicate DictionaryBefore(a: string, b: string) {
    exists n: nat :: FirstDifference(a, b, n)
  }

  lemma {:induction false} StringBeforeIsDictionary(a: string, b: string)
    ensures StringBefore(a, b) <==> DictionaryBefore(a, b)
    decreases |a|
  {
    if a == [] || b == [] {
      assert b != [] ==> a == [] && FirstDifference(a, b, 0);
    } else if a[0] != b[0] {
      assert a[0] < b[0] ==> FirstDifference(a, b, 0);
      if n: nat :| FirstDifference(a, b, n) && n > 0 {
        assert a[..n][0] == b[..n][0];
      }
    } else {
      StringBeforeIsDictionary(a[1..], b[1..]);
      if n: nat :| FirstDifference(a[1..], b[1..], n) {
        assert a[..n + 1] == [a[0]] + a[1..][..n] && b[..n + 1] == [b[0]] + b[1..][..n];
        assert FirstDifference(a, b, n + 1);
      }
      if n: nat :| FirstDifference(a, b, n) {
        assert n > 0 by { assert a[0] == b[0]; }
        assert a[1..][..n - 1] == a[..n][1..] && b[1..][..n - 1] == b[..n][1..];
        assert FirstDifference(a[1..], b[1..], n - 1);
      }
    }
  }

  /** An earlier time comes first; on equal times the ids are in dictionary order. */
  ghost predicate Precedes(time: nat, id: string, time': nat, id': string) {
    time < time' || (time == time' && DictionaryBefore(id, id'))
  }

  lemma OrderedPrecedes(created: map<string, nat>, ids: set<string>, i: nat, j: nat)
    requires ids <= created.Keys && i < j < |Ordered(created, ids)|
    ensures var a, b := Ordered(created, ids)[i], Ordered(created, ids)[j];
      a != b && a in created && b in created && Precedes(created[a], a, created[b], b)
  {
    OrderedIsListing(created, ids);
    StringBeforeIsDictionary(Ordered(created, ids)[i], Ordered(created, ids)[j]);
  }

  method SortIds(created: map<string, nat>) returns (ids: seq<string>)
    ensures ids == Ordered(created, created.Keys)
  {
    ids := [];
    var rest := created.Keys;
    while rest != {}
      invariant rest <= created.Keys
      invariant ids + Ordered(created, rest) == Ordered(created, created.Keys)
      decreases |rest|
    {
      ghost var w := First(created, rest);
      var m :| m in rest && forall x :: x in rest ==> x == m || Before(created, m, x);
      FirstUnique(created, rest, m, w);
      ids := ids + [m];
      rest := rest - {m};
    }
  }
}
