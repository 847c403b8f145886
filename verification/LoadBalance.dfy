/** HandleConnect's choice of an IO loop for a new connection: the first of the least loaded ones. */
module LoadBalance {

  /** The first loop with the fewest connections. */
  function Least(counts: seq<nat>): (k: nat)
    requires counts != []
    ensures k < |counts|
    ensures forall j :: 0 <= j < |counts| ==> counts[k] <= counts[j]
    ensures forall j :: 0 <= j < k ==> counts[k] < counts[j]
  {
    var last := |counts| - 1;
    if last == 0 then 0
    else
      var k := Least(counts[..last]);
      if counts[last] < counts[k] then last else k
  }

  /** Being the first of the smallest counts determines the loop. */
  lemma LeastIs(counts: seq<nat>, k: nat)
    requires k < |counts|
    requires forall j :: 0 <= j < |counts| ==> counts[k] <= counts[j]
    requires forall j :: 0 <= j < k ==> counts[k] < counts[j]
    ensures Least(counts) == k
  {
    var l := Least(counts);
    assert counts[k] == counts[l];
  }

  /** The scan as HandleConnect runs it. */
  method ChooseLoop(counts: seq<nat>) returns (info: nat)
    requires counts != []
    ensures info == Least(counts)
  {
    info := 0;
    for i := 1 to |counts|
      invariant info < i && info == Least(counts[..i])
    {
      assert counts[..i + 1][..i] == counts[..i];
      if counts[i] < counts[info] {
        info := i;
      }
    }
    assert counts[..|counts|] == counts;
  }

  /** The counts after one more connection. */
  function Connected(counts: seq<nat>): (c: seq<nat>)
    requires counts != []
    ensures |c| == |counts|
  {
    counts[Least(counts) := counts[Least(counts)] + 1]
  }

  /** No loop serves two connections more than another. */
  predicate Level(counts: seq<nat>)
  {
    forall i, j :: 0 <= i < |counts| && 0 <= j < |counts| ==> counts[i] <= counts[j] + 1
  }

  lemma ConnectKeepsLevel(counts: seq<nat>)
    requires counts != [] && Level(counts)
    ensures Level(Connected(counts))
  {
  }

  /** The counts after `n` connections and no closes. */
  function After(loops: nat, n: nat): (c: seq<nat>)
    requires loops > 0
    ensures |c| == loops
  {
    if n == 0 then seq(loops, _ => 0) else Connected(After(loops, n - 1))
  }

  /** `r` loops in front serve `q + 1` connections each, the others `q`. */
  function Rounds(loops: nat, q: nat, r: nat): seq<nat>
  {
    seq(loops, i => if i < r then q + 1 else q)
  }

  /** One more connection goes to the first loop that is a connection short. */
  lemma OneMore(loops: nat, q: nat, r: nat)
    requires r < loops
    ensures Connected(Rounds(loops, q, r)) == if r + 1 < loops then Rounds(loops, q, r + 1) else Rounds(loops, q + 1, 0)
  {
    LeastIs(Rounds(loops, q, r), r);
  }

  lemma NextRound(q: nat, loops: nat)
    ensures (q + 1) * loops == q * loops + loops
  {
  }

  lemma {:induction false} RoundsReached(loops: nat, n: nat) returns (q: nat, r: nat)
    requires loops > 0
    ensures n == q * loops + r && r < loops
    ensures After(loops, n) == Rounds(loops, q, r)
  {
    if n == 0 {
      q, r := 0, 0;
      assert After(loops, 0) == Rounds(loops, 0, 0);
    } else {
      q, r := RoundsReached(loops, n - 1);
      OneMore(loops, q, r);
      NextRound(q, loops);
      q, r := if r + 1 < loops then q else q + 1, if r + 1 < loops then r + 1 else 0;
    }
  }

  /** With no closes, choosing the least loaded loop is a round robin: after `n` connections every loop has
      the quotient of `n` by the number of loops, the first ones one more, as many as the remainder says;
      so the counts are level. */
  lemma RoundRobin(loops: nat, n: nat) returns (q: nat, r: nat)
    requires loops > 0
    ensures n == q * loops + r && r < loops
    ensures After(loops, n) == Rounds(loops, q, r) && Level(After(loops, n))
  {
    q, r := RoundsReached(loops, n);
  }
}
