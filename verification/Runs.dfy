/** Runs of a state machine, given by its step relation. */
module Runs {

  /** The actions of `run`, one after the other, can lead from `s` to `t`. */
  ghost predicate Leads<S(!new), A>(step: (S, A, S) -> bool, s: S, run: seq<A>, t: S)
    decreases |run|
  {
    if run == [] then s == t
    else exists m :: step(s, run[0], m) && Leads(step, m, run[1..], t)
  }

  lemma {:induction false} Join<S(!new), A>(step: (S, A, S) -> bool, s: S, r: seq<A>, t: S, r': seq<A>, u: S)
    requires Leads(step, s, r, t) && Leads(step, t, r', u)
    ensures Leads(step, s, r + r', u)
    decreases |r|
  {
    if r == [] {
      assert r + r' == r';
    } else {
      var m :| step(s, r[0], m) && Leads(step, m, r[1..], t);
      Join(step, m, r[1..], t, r', u);
      assert (r + r')[1..] == r[1..] + r';
    }
  }

  /** One more step behind a run. */
  lemma Extend<S(!new), A>(step: (S, A, S) -> bool, s: S, r: seq<A>, t: S, a: A, u: S)
    requires Leads(step, s, r, t) && step(t, a, u)
    ensures Leads(step, s, r + [a], u)
  {
    assert Leads(step, u, [a][1..], u);
    Join(step, s, r, t, [a], u);
  }

  /** A run of one machine is a run of any that allows more. */
  lemma {:induction false} Widen<S(!new), A(!new)>(p: (S, A, S) -> bool, q: (S, A, S) -> bool, s: S, run: seq<A>, t: S)
    requires Leads(p, s, run, t) && forall x, a, y :: p(x, a, y) ==> q(x, a, y)
    ensures Leads(q, s, run, t)
    decreases |run|
  {
    if run != [] {
      var m :| p(s, run[0], m) && Leads(p, m, run[1..], t);
      Widen(p, q, m, run[1..], t);
    }
  }

  /** A relation between a state and the run so far that every step keeps holds at the end. */
  lemma {:induction false} Tracks<S(!new), A(!new)>(step: (S, A, S) -> bool, rel: (S, seq<A>) -> bool,
                                                    s: S, past: seq<A>, run: seq<A>, t: S)
    requires rel(s, past) && Leads(step, s, run, t)
    requires forall x, r, a, y :: rel(x, r) && step(x, a, y) ==> rel(y, r + [a])
    ensures rel(t, past + run)
    decreases |run|
  {
    if run == [] {
      assert past + run == past;
    } else {
      var m :| step(s, run[0], m) && Leads(step, m, run[1..], t);
      Tracks(step, rel, m, past + [run[0]], run[1..], t);
      assert past + [run[0]] + run[1..] == past + run;
    }
  }

  /** What holds at the start and is kept by every step holds after every run. */
  lemma {:induction false} Always<S(!new), A(!new)>(step: (S, A, S) -> bool, inv: S -> bool, s: S, run: seq<A>, t: S)
    requires inv(s) && Leads(step, s, run, t)
    requires forall x, a, y :: inv(x) && step(x, a, y) ==> inv(y)
    ensures inv(t)
    decreases |run|
  {
    if run != [] {
      var m :| step(s, run[0], m) && Leads(step, m, run[1..], t);
      Always(step, inv, m, run[1..], t);
    }
  }
}
