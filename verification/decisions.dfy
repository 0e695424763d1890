/** The precondition checks that open an asynchronous operation are an
    ordered decision list: the first test that holds decides the answer,
    and only when none holds does the operation go ahead. */
module Decisions {
  import opened Common

  /** One test of the list and the answer it gives when it holds. */
  datatype Rule<R> = Rule(applies: bool, verdict: R)

  /** Rule `i` is the first that holds. */
  predicate FirstApplying<R>(rules: seq<Rule<R>>, i: int)
  {
    0 <= i < |rules| && rules[i].applies && forall j | 0 <= j < i :: !rules[j].applies
  }

  /** The answer of the first rule that holds, `None` when none holds. */
  function Decide<R>(rules: seq<Rule<R>>): (r: Option<R>)
    ensures r.None? <==> forall i | 0 <= i < |rules| :: !rules[i].applies
  {
    if rules == [] then None
    else if rules[0].applies then Some(rules[0].verdict)
    else
      var rest := Decide(rules[1..]);
      assert forall i | 1 <= i < |rules| :: rules[1..][i - 1] == rules[i];
      rest
  }

  /** The list answers with the verdict of its first rule that holds,
      whatever the later rules say. */
  lemma {:induction false} DecideFirst<R>(rules: seq<Rule<R>>, i: int)
    requires FirstApplying(rules, i)
    ensures Decide(rules) == Some(rules[i].verdict)
  {
    if i > 0 {
      var rest := rules[1..];
      assert rest[i - 1] == rules[i];
      forall j | 0 <= j < i - 1 ensures !rest[j].applies {
        assert rest[j] == rules[j + 1];
      }
      DecideFirst(rest, i - 1);
    }
  }

  /** Whatever the list answers comes from its first rule that holds. */
  lemma {:induction false} DecideSome<R>(rules: seq<Rule<R>>)
    requires Decide(rules).Some?
    ensures exists i :: FirstApplying(rules, i) && Decide(rules).value == rules[i].verdict
  {
    if !rules[0].applies {
      var rest := rules[1..];
      DecideSome(rest);
      var i :| FirstApplying(rest, i) && Decide(rest).value == rest[i].verdict;
      assert rest[i] == rules[i + 1];
      forall j | 0 <= j < i + 1 ensures !rules[j].applies {
        if j > 0 {
          assert rest[j - 1] == rules[j];
        }
      }
      assert FirstApplying(rules, i + 1);
    } else {
      assert FirstApplying(rules, 0);
    }
  }
}
