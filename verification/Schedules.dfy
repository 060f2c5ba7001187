/** Schedules of a step function, and which states they lead to. */
module Schedules {
  function Execute<S, T>(act: (S, T) -> S, s: S, schedule: seq<T>): S
    decreases |schedule|
  {
    if schedule == [] then s else Execute(act, act(s, schedule[0]), schedule[1..])
  }

  lemma {:induction false} ExecuteAppend<S, T>(act: (S, T) -> S, s: S, a: seq<T>, b: seq<T>)
    ensures Execute(act, s, a + b) == Execute(act, Execute(act, s, a), b)
    decreases |a|
  {
    if a == [] {
      assert a + b == b;
    } else {
      ExecuteAppend(act, act(s, a[0]), a[1..], b);
      assert (a + b)[1..] == a[1..] + b;
    }
  }

  lemma ExecuteOne<S, T>(act: (S, T) -> S, s: S, step: T)
    ensures Execute(act, s, [step]) == act(s, step)
  {
    assert [step][1..] == [];
  }

  /** Some schedule takes `s` to `u`. */
  ghost predicate Leads<S(!new), T(!new)>(act: (S, T) -> S, s: S, u: S) {
    exists schedule: seq<T> :: Execute(act, s, schedule) == u
  }

  lemma LeadsNowhere<S(!new), T(!new)>(act: (S, T) -> S, s: S)
    ensures Leads(act, s, s)
  {
    assert Execute(act, s, []) == s;
  }

  lemma LeadsThrough<S(!new), T(!new)>(act: (S, T) -> S, s: S, v: S, u: S)
    requires Leads(act, s, v) && Leads(act, v, u)
    ensures Leads(act, s, u)
  {
    var a: seq<T> :| Execute(act, s, a) == v;
    var b: seq<T> :| Execute(act, v, b) == u;
    ExecuteAppend(act, s, a, b);
  }

  lemma LeadsOneMore<S(!new), T(!new)>(act: (S, T) -> S, s: S, v: S, step: T)
    requires Leads(act, s, v)
    ensures Leads(act, s, act(v, step))
  {
    ExecuteOne(act, v, step);
    LeadsThrough(act, s, v, act(v, step));
  }
}
