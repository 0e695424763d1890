/** Bookkeeping for a loop that walks the keys of a map and replaces the
    value under each key it visits by a precomputed result, or-ing the
    result's change flag into an accumulator. `results[k]` is the pair
    (new value, changed) for key `k`; `done` is the set of keys visited. */
module Progress {

  /** The map once the keys in `done` have been visited. */
  ghost function Applied<K, V>(orig: map<K, V>, results: map<K, (V, bool)>, done: set<K>): (m: map<K, V>)
    ensures m.Keys == orig.Keys
  {
    map k | k in orig :: if k in results && k in done then results[k].0 else orig[k]
  }

  /** Some visited key's result reported a change. */
  ghost predicate AnyChanged<K, V>(results: map<K, (V, bool)>, done: set<K>)
  {
    exists k | k in results && k in done :: results[k].1
  }

  lemma AppliedNone<K, V>(orig: map<K, V>, results: map<K, (V, bool)>)
    ensures Applied(orig, results, {}) == orig
    ensures !AnyChanged(results, {})
  {
    var m := Applied(orig, results, {});
    forall k | k in orig ensures m[k] == orig[k] {
    }
  }

  lemma AnyChangedAdd<K, V>(results: map<K, (V, bool)>, done: set<K>, key: K)
    ensures AnyChanged(results, done + {key}) <==> AnyChanged(results, done) || (key in results && results[key].1)
  {
    if AnyChanged(results, done + {key}) {
      var k :| k in results && k in done + {key} && results[k].1;
      if k != key {
        assert AnyChanged(results, done);
      }
    }
    if AnyChanged(results, done) {
      var k :| k in results && k in done && results[k].1;
      assert k in done + {key};
    }
  }

  lemma AppliedAdd<K, V>(orig: map<K, V>, results: map<K, (V, bool)>, done: set<K>, key: K)
    requires key !in done
    ensures key in orig ==> Applied(orig, results, done)[key] == orig[key]
    ensures key in orig && key in results ==>
      Applied(orig, results, done + {key}) == Applied(orig, results, done)[key := results[key].0]
    ensures key !in results ==> Applied(orig, results, done + {key}) == Applied(orig, results, done)
  {
    var after := Applied(orig, results, done + {key});
    var before := Applied(orig, results, done);
    if key in orig && key in results {
      var expected := before[key := results[key].0];
      forall k | k in orig ensures after[k] == expected[k] {
      }
      assert after == expected;
    } else if key !in results {
      forall k | k in orig ensures after[k] == before[k] {
      }
      assert after == before;
    }
  }

  /** Visiting `key` — storing its result when it has one — keeps the map
      and the accumulated flag equal to their specifications. */
  lemma Visit<K, V>(orig: map<K, V>, results: map<K, (V, bool)>, done: set<K>, key: K,
                    m: map<K, V>, changed: bool, v: V, c: bool)
    requires key !in done && (key in results ==> key in orig)
    requires m == Applied(orig, results, done) && changed == AnyChanged(results, done)
    requires key in results ==> results[key] == (v, c)
    ensures (if key in results then m[key := v] else m) == Applied(orig, results, done + {key})
    ensures (if key in results then changed || c else changed) == AnyChanged(results, done + {key})
  {
    AppliedAdd(orig, results, done, key);
    AnyChangedAdd(results, done, key);
  }

  /** Moving a key from the keys still to visit to the visited ones keeps
      the two a partition of all the keys. */
  lemma Move<K>(todo: set<K>, done: set<K>, all: set<K>, key: K)
    requires todo + done == all && todo !! done && key in todo
    ensures (todo - {key}) + (done + {key}) == all && (todo - {key}) !! (done + {key})
  {
  }
}
