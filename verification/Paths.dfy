/** Sequences of protocol steps, to say which of them a piece of sequential code performs. */
module Paths {
  import opened Cluster

  /** No mishap but those in `may` happens in this step. */
  ghost predicate Only(s: State, step: Step, may: set<Mishap>) {
    forall x | Happens(s, step, x) :: x in may
  }

  /** The steps lead from `s` to `t`, each enabled where it is taken, and nothing goes wrong but mishaps
      in `may`. */
  ghost predicate Path(s: State, steps: seq<Step>, t: State, may: set<Mishap>)
    decreases |steps|
  {
    if steps == [] then s == t
    else && Enabled(s, steps[0]) && Only(s, steps[0], may)
         && Path(Apply(s, steps[0]), steps[1..], t, may)
  }

  lemma {:induction false} Extend(s: State, steps: seq<Step>, t: State, step: Step, may: set<Mishap>)
    requires Path(s, steps, t, may) && Enabled(t, step) && Only(t, step, may)
    ensures Path(s, steps + [step], Apply(t, step), may)
    decreases |steps|
  {
    if steps != [] {
      Extend(Apply(s, steps[0]), steps[1..], t, step, may);
      assert (steps + [step])[1..] == steps[1..] + [step];
    }
  }

  lemma {:induction false} Concat(s: State, a: seq<Step>, t: State, b: seq<Step>, u: State, may: set<Mishap>)
    requires Path(s, a, t, may) && Path(t, b, u, may)
    ensures Path(s, a + b, u, may)
    decreases |a|
  {
    if a == [] {
      assert a + b == b;
    } else {
      Concat(Apply(s, a[0]), a[1..], t, b, u, may);
      assert (a + b)[1..] == a[1..] + b;
    }
  }

  lemma {:induction false} Widen(s: State, steps: seq<Step>, t: State, a: set<Mishap>, b: set<Mishap>)
    requires Path(s, steps, t, a) && a <= b
    ensures Path(s, steps, t, b)
    decreases |steps|
  {
    if steps != [] {
      Widen(Apply(s, steps[0]), steps[1..], t, a, b);
    }
  }

  lemma Then(s: State, steps: seq<Step>, t: State, step: Step, may: set<Mishap>) returns (longer: seq<Step>)
    requires Path(s, steps, t, may) && Enabled(t, step) && (Quiet(step) || Only(t, step, may))
    ensures Path(s, longer, Apply(t, step), may) && longer == steps + [step]
  {
    Extend(s, steps, t, step, may);
    longer := steps + [step];
  }

  lemma Join(s: State, a: seq<Step>, t: State, b: seq<Step>, u: State, may: set<Mishap>) returns (longer: seq<Step>)
    requires Path(s, a, t, may) && Path(t, b, u, may)
    ensures Path(s, longer, u, may) && longer == a + b
  {
    Concat(s, a, t, b, u, may);
    longer := a + b;
  }
}
