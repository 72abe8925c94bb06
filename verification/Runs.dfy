/** Runs of the state machines, each given by its step relation. */
module Runs {
  /** Event by event, the steps lead from s to z. */
  ghost predicate Leads<S(!new), E>(step: (S, E, S) -> bool, s: S, run: seq<E>, z: S)
    decreases |run|
  {
    if run == [] then s == z else exists t :: step(s, run[0], t) && Leads(step, t, run[1..], z)
  }

  /** What every step keeps holds at the end of every run. */
  lemma {:induction false} Preserved<S(!new), E(!new)>(step: (S, E, S) -> bool, inv: S -> bool, s: S, run: seq<E>, z: S)
    requires inv(s) && Leads(step, s, run, z)
    requires forall u, e, v | inv(u) && step(u, e, v) :: inv(v)
    ensures inv(z)
    decreases |run|
  {
    if run != [] {
      var t :| step(s, run[0], t) && Leads(step, t, run[1..], z);
      Preserved(step, inv, t, run[1..], z);
    }
  }

  /** A machine that can do more has all the runs. */
  lemma {:induction false} Weaken<S(!new), E(!new)>(step: (S, E, S) -> bool, more: (S, E, S) -> bool,
                                                    s: S, run: seq<E>, z: S)
    requires Leads(step, s, run, z)
    requires forall u, e, v | step(u, e, v) :: more(u, e, v)
    ensures Leads(more, s, run, z)
    decreases |run|
  {
    if run != [] {
      var t :| step(s, run[0], t) && Leads(step, t, run[1..], z);
      Weaken(step, more, t, run[1..], z);
    }
  }

  // ── Putting a concrete run together, last step first ───────────────

  // From s the run goes on from its k-th event and ends in z.
  ghost predicate From<S(!new), E>(step: (S, E, S) -> bool, s: S, run: seq<E>, k: nat, z: S)
    requires k <= |run|
  {
    Leads(step, s, run[k..], z)
  }

  lemma Ends<S(!new), E>(step: (S, E, S) -> bool, run: seq<E>, z: S)
    ensures From(step, z, run, |run|, z)
  {
  }

  lemma Before<S(!new), E>(step: (S, E, S) -> bool, s: S, t: S, run: seq<E>, k: nat, z: S)
    requires k < |run| && step(s, run[k], t) && From(step, t, run, k + 1, z)
    ensures From(step, s, run, k, z)
  {
    assert run[k..][1..] == run[k + 1..];
  }

  lemma FromStart<S(!new), E>(step: (S, E, S) -> bool, s: S, run: seq<E>, z: S)
    requires From(step, s, run, 0, z)
    ensures Leads(step, s, run, z)
  {
    assert run[0..] == run;
  }
}
