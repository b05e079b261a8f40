/**
 The orders the gateway asks PostgreSQL and Go's `sort` for: an integer column
 first, then text compared character by character. Text alone is the case of
 equal numbers, a plain identity column the case of empty text.
 */
module Ordering {

  datatype Key = Key(n: nat, text: string)

  predicate TextLess(a: string, b: string) {
    if b == "" then false
    else if a == "" then true
    else if a[0] != b[0] then a[0] < b[0]
    else TextLess(a[1..], b[1..])
  }

  predicate Less(a: Key, b: Key) {
    a.n < b.n || (a.n == b.n && TextLess(a.text, b.text))
  }

  lemma {:induction false} TextLessTotal(a: string, b: string)
    ensures TextLess(a, b) || TextLess(b, a) || a == b
    ensures !(TextLess(a, b) && TextLess(b, a))
    ensures !TextLess(a, a)
  {
    if a != "" {
      TextLessTotal(a[1..], a[1..]);
    }
    if a != "" && b != "" {
      TextLessTotal(a[1..], b[1..]);
      if a[0] == b[0] && a[1..] == b[1..] {
        assert a == [a[0]] + a[1..] == b;
      }
    }
  }

  lemma {:induction false} TextLessTransitive(a: string, b: string, c: string)
    requires TextLess(a, b) && TextLess(b, c)
    ensures TextLess(a, c)
  {
    if a != "" && a[0] == b[0] == c[0] {
      TextLessTransitive(a[1..], b[1..], c[1..]);
    }
  }

  lemma LessTotal(a: Key, b: Key)
    ensures Less(a, b) || Less(b, a) || a == b
    ensures !(Less(a, b) && Less(b, a))
  {
    TextLessTotal(a.text, b.text);
  }

  lemma LessTransitive(a: Key, b: Key, c: Key)
    requires Less(a, b) && Less(b, c)
    ensures Less(a, c)
  {
    if a.n == b.n == c.n {
      TextLessTransitive(a.text, b.text, c.text);
    }
  }

  ghost predicate IsLeast(k: Key, s: set<Key>) {
    k in s && forall j :: j in s && j != k ==> Less(k, j)
  }

  lemma {:induction false} LeastExists(s: set<Key>)
    requires s != {}
    ensures exists k :: IsLeast(k, s)
    decreases |s|
  {
    var x :| x in s;
    if s == {x} {
      assert IsLeast(x, s);
    } else {
      var rest := s - {x};
      LeastExists(rest);
      var k :| IsLeast(k, rest);
      LessTotal(x, k);
      if Less(x, k) {
        forall j | j in s && j != x ensures Less(x, j) {
          if j != k {
            LessTransitive(x, k, j);
          }
        }
        assert IsLeast(x, s);
      } else {
        assert IsLeast(k, s);
      }
    }
  }

  ghost predicate Ascending(q: seq<Key>) {
    forall i, j :: 0 <= i < j < |q| ==> Less(q[i], q[j])
  }

  lemma LeastFirst(k: Key, s: set<Key>, rest: seq<Key>)
    requires IsLeast(k, s) && Ascending(rest) && |rest| == |s - {k}| && forall j :: j in rest <==> j in s - {k}
    ensures Ascending([k] + rest) && |[k] + rest| == |s| && forall j :: j in [k] + rest <==> j in s
  {
    forall i | 0 <= i < |rest| ensures Less(k, rest[i]) {
      assert rest[i] in rest;
    }
    assert s == (s - {k}) + {k};
  }

  /** The keys of `s` in ascending order. */
  ghost function SortedKeys(s: set<Key>): (q: seq<Key>)
    ensures Ascending(q)
    ensures forall k :: k in q <==> k in s
    ensures |q| == |s|
    decreases |s|
  {
    if s == {} then []
    else
      LeastExists(s);
      var k :| IsLeast(k, s);
      var rest := SortedKeys(s - {k});
      LeastFirst(k, s, rest);
      [k] + rest
  }

  /** An ascending enumeration is determined by the set it enumerates. */
  lemma {:induction false} AscendingUnique(p: seq<Key>, q: seq<Key>)
    requires Ascending(p) && Ascending(q)
    requires forall k :: k in p <==> k in q
    ensures p == q
    decreases |p|
  {
    assert |q| > 0 ==> q[0] in q;
    assert |p| > 0 ==> p[0] in p;
    if p != [] && q != [] {
      if p[0] != q[0] {
        var i :| 0 < i < |q| && q[i] == p[0];
        var j :| 0 < j < |p| && p[j] == q[0];
        LessTotal(p[0], q[0]);
        assert false;
      }
      LessTotal(p[0], p[0]);
      assert p == [p[0]] + p[1..] && q == [q[0]] + q[1..];
      assert p[0] !in p[1..] && q[0] !in q[1..];
      assert forall k :: k in p[1..] <==> k in p && k != p[0];
      assert forall k :: k in q[1..] <==> k in q && k != q[0];
      AscendingUnique(p[1..], q[1..]);
    }
  }

  function Texts(q: seq<Key>): (t: seq<string>)
    ensures |t| == |q| && forall i :: 0 <= i < |q| ==> t[i] == q[i].text
  {
    seq(|q|, i requires 0 <= i < |q| => q[i].text)
  }

  function Numbers(q: seq<Key>): (n: seq<nat>)
    ensures |n| == |q| && forall i :: 0 <= i < |q| ==> n[i] == q[i].n
  {
    seq(|q|, i requires 0 <= i < |q| => q[i].n)
  }

  function IdKeys(ids: set<nat>): set<Key> {
    set i | i in ids :: Key(i, "")
  }

  lemma NumbersAscend(ids: set<nat>, keys: seq<Key>)
    requires Ascending(keys) && forall k :: k in keys <==> k in IdKeys(ids)
    ensures forall i :: i in Numbers(keys) <==> i in ids
    ensures forall i, j :: 0 <= i < j < |keys| ==> Numbers(keys)[i] < Numbers(keys)[j]
  {
    var n := Numbers(keys);
    forall i | i in n ensures i in ids {
      var k :| 0 <= k < |n| && n[k] == i;
      assert keys[k] in keys;
    }
    forall i | i in ids ensures i in n {
      assert Key(i, "") in keys;
      var k :| 0 <= k < |keys| && keys[k] == Key(i, "");
      assert n[k] == i;
    }
    forall i, j | 0 <= i < j < |keys| ensures n[i] < n[j] {
      assert keys[i] in keys && keys[j] in keys && Less(keys[i], keys[j]);
    }
  }

  /** Identities in ascending order. */
  ghost function InOrder(ids: set<nat>): (q: seq<nat>)
    ensures forall i :: i in q <==> i in ids
    ensures forall i, j :: 0 <= i < j < |q| ==> q[i] < q[j]
  {
    var keys := SortedKeys(IdKeys(ids));
    NumbersAscend(ids, keys);
    Numbers(keys)
  }

  lemma InOrderOne(id: nat)
    ensures InOrder({id}) == [id]
  {
    assert IdKeys({id}) == {Key(id, "")};
    var keys := SortedKeys(IdKeys({id}));
    assert keys[0] in keys;
  }

  method Least(s: set<Key>) returns (k: Key)
    requires s != {}
    ensures IsLeast(k, s)
  {
    k :| k in s;
    var rest := s - {k};
    while rest != {}
      invariant rest < s && k in s - rest
      invariant forall j :: j in s - rest && j != k ==> Less(k, j)
      decreases |rest|
    {
      var j :| j in rest;
      LessTotal(j, k);
      if Less(j, k) {
        forall i | i in s - rest && i != k ensures Less(j, i) {
          LessTransitive(j, k, i);
        }
        k := j;
      }
      rest := rest - {j};
    }
  }

  /** What `ORDER BY` and `sort.Strings` deliver. */
  method Sort(s: set<Key>) returns (q: seq<Key>)
    ensures q == SortedKeys(s)
  {
    q := [];
    var rest := s;
    while rest != {}
      invariant rest <= s
      invariant Ascending(q)
      invariant forall k :: k in q <==> k in s - rest
      invariant forall k, j :: k in q && j in rest ==> Less(k, j)
      decreases |rest|
    {
      var k := Least(rest);
      q := q + [k];
      rest := rest - {k};
    }
    AscendingUnique(q, SortedKeys(s));
  }

  method SortIds(ids: set<nat>) returns (q: seq<nat>)
    ensures q == InOrder(ids)
  {
    var keys := Sort(IdKeys(ids));
    q := Numbers(keys);
  }
}
