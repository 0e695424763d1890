/** The order `SortLightBulbs` puts the lights in: `OrderBy` on a string
    property of each light, in which a missing (null) string comes before
    every string and two strings compare character by character. The
    order is defined by insertion: each element, taken in list order, goes
    after every element already placed whose key is not after its own. */
module LightOrder {
  import opened Common

  /** Character-by-character comparison: `a` does not come after `b`. */
  predicate NotAfter(a: string, b: string)
  {
    a == [] || (b != [] && (a[0] < b[0] || (a[0] == b[0] && NotAfter(a[1..], b[1..]))))
  }

  /** The same on nullable strings, a null string coming first. */
  predicate KeyNotAfter(a: Option<string>, b: Option<string>)
  {
    a.None? || (b.Some? && NotAfter(a.value, b.value))
  }

  lemma {:induction false} NotAfterTotal(a: string, b: string)
    ensures NotAfter(a, b) || NotAfter(b, a)
  {
    if a != [] && b != [] && a[0] == b[0] {
      NotAfterTotal(a[1..], b[1..]);
    }
  }

  lemma {:induction false} NotAfterTransitive(a: string, b: string, c: string)
    requires NotAfter(a, b) && NotAfter(b, c)
    ensures NotAfter(a, c)
  {
    if a != [] && a[0] == b[0] && b[0] == c[0] {
      NotAfterTransitive(a[1..], b[1..], c[1..]);
    }
  }

  lemma KeyTotal(a: Option<string>, b: Option<string>)
    ensures KeyNotAfter(a, b) || KeyNotAfter(b, a)
  {
    if a.Some? && b.Some? {
      NotAfterTotal(a.value, b.value);
    }
  }

  lemma KeyTransitive(a: Option<string>, b: Option<string>, c: Option<string>)
    requires KeyNotAfter(a, b) && KeyNotAfter(b, c)
    ensures KeyNotAfter(a, c)
  {
    if a.Some? {
      NotAfterTransitive(a.value, b.value, c.value);
    }
  }

  /** Every element of `s` has a key. */
  predicate Keyed(s: seq<nat>, keys: map<nat, Option<string>>)
  {
    forall i | 0 <= i < |s| :: s[i] in keys
  }

  /** `s` is in key order. */
  predicate SortedBy(s: seq<nat>, keys: map<nat, Option<string>>)
    requires Keyed(s, keys)
  {
    forall i, j | 0 <= i < j < |s| :: KeyNotAfter(keys[s[i]], keys[s[j]])
  }

  /** `h` placed after the last element of the sorted `s` whose key is not
      after its own. */
  function Insert(h: nat, s: seq<nat>, keys: map<nat, Option<string>>): (r: seq<nat>)
    requires h in keys && Keyed(s, keys)
    ensures |r| == |s| + 1 && Keyed(r, keys)
    ensures multiset(r) == multiset(s) + multiset{h}
  {
    if s == [] then [h]
    else
      var n := |s| - 1;
      if KeyNotAfter(keys[s[n]], keys[h]) then s + [h]
      else
        assert s == s[..n] + [s[n]];
        Insert(h, s[..n], keys) + [s[n]]
  }

  /** `OrderBy`: the elements of `s` inserted one by one, in list order. */
  function SortBy(s: seq<nat>, keys: map<nat, Option<string>>): (r: seq<nat>)
    requires Keyed(s, keys)
    ensures |r| == |s| && Keyed(r, keys)
    ensures multiset(r) == multiset(s)
  {
    if s == [] then []
    else
      var n := |s| - 1;
      assert s == s[..n] + [s[n]];
      Insert(s[n], SortBy(s[..n], keys), keys)
  }

  lemma {:induction false} InsertSorted(h: nat, s: seq<nat>, keys: map<nat, Option<string>>)
    requires h in keys && Keyed(s, keys) && SortedBy(s, keys)
    ensures SortedBy(Insert(h, s, keys), keys)
  {
    if s != [] {
      var n := |s| - 1;
      var last := s[n];
      if KeyNotAfter(keys[last], keys[h]) {
        var r := s + [h];
        forall i | 0 <= i < n ensures KeyNotAfter(keys[r[i]], keys[r[|s|]]) {
          KeyTransitive(keys[s[i]], keys[last], keys[h]);
        }
      } else {
        var front := s[..n];
        InsertSorted(h, front, keys);
        var placed := Insert(h, front, keys);
        KeyTotal(keys[last], keys[h]);
        forall i | 0 <= i < |placed| ensures KeyNotAfter(keys[placed[i]], keys[last]) {
          assert placed[i] in multiset(placed);
          if placed[i] != h {
            assert placed[i] in multiset(front);
            var k :| 0 <= k < n && front[k] == placed[i];
          }
        }
      }
    }
  }

  /** `SortBy` puts the elements in key order. */
  lemma {:induction false} SortBySorted(s: seq<nat>, keys: map<nat, Option<string>>)
    requires Keyed(s, keys)
    ensures SortedBy(SortBy(s, keys), keys)
  {
    if s != [] {
      var n := |s| - 1;
      SortBySorted(s[..n], keys);
      InsertSorted(s[n], SortBy(s[..n], keys), keys);
    }
  }

  lemma DistinctSnoc(s: seq<nat>, x: nat)
    requires Distinct(s) && x !in s
    ensures Distinct(s + [x])
  {
    var r := s + [x];
    forall i, j | 0 <= i < j < |r| ensures r[i] != r[j] {
      if j == |s| {
        assert r[i] == s[i];
      } else {
        assert r[i] == s[i] && r[j] == s[j];
      }
    }
  }

  lemma DistinctFront(s: seq<nat>)
    requires s != [] && Distinct(s)
    ensures Distinct(s[..|s| - 1]) && s[|s| - 1] !in s[..|s| - 1]
  {
    var n := |s| - 1;
    var front := s[..n];
    forall i, j | 0 <= i < j < n ensures front[i] != front[j] {
      assert front[i] == s[i] && front[j] == s[j];
    }
    forall k | 0 <= k < n ensures front[k] != s[n] {
      assert front[k] == s[k];
    }
  }

  lemma {:induction false} InsertDistinct(h: nat, s: seq<nat>, keys: map<nat, Option<string>>)
    requires h in keys && Keyed(s, keys) && Distinct(s) && h !in s
    ensures Distinct(Insert(h, s, keys))
  {
    if s == [] {
    } else if KeyNotAfter(keys[s[|s| - 1]], keys[h]) {
      DistinctSnoc(s, h);
    } else {
      var n := |s| - 1;
      var front := s[..n];
      DistinctFront(s);
      assert h !in front by {
        forall k | 0 <= k < n ensures front[k] != h {
          assert front[k] == s[k];
        }
      }
      InsertDistinct(h, front, keys);
      var placed := Insert(h, front, keys);
      assert s[n] !in multiset(placed);
      DistinctSnoc(placed, s[n]);
    }
  }

  /** `SortBy` keeps a list without repetitions without repetitions. */
  lemma {:induction false} SortByDistinct(s: seq<nat>, keys: map<nat, Option<string>>)
    requires Keyed(s, keys) && Distinct(s)
    ensures Distinct(SortBy(s, keys))
  {
    if s != [] {
      var n := |s| - 1;
      var front := s[..n];
      DistinctFront(s);
      SortByDistinct(front, keys);
      assert s[n] !in multiset(SortBy(front, keys));
      InsertDistinct(s[n], SortBy(front, keys), keys);
    }
  }
}
