/** "Since", over the history of a run: one entry a step says whether the step switched something
    on, another whether it switched it off. */
module History {
  /** Some step switched it on, and no later step switched it off. */
  ghost predicate Since(on: seq<bool>, off: seq<bool>)
    requires |on| == |off|
  {
    exists j :: 0 <= j < |on| && OnFrom(on, off, j)
  }

  ghost predicate OnFrom(on: seq<bool>, off: seq<bool>, j: nat)
    requires j < |on| == |off|
  {
    on[j] && forall l :: j < l < |on| ==> !off[l]
  }

  lemma SinceStep(on: seq<bool>, off: seq<bool>, a: bool, b: bool)
    requires |on| == |off|
    ensures Since(on + [a], off + [b]) <==> a || (Since(on, off) && !b)
  {
    var on', off' := on + [a], off + [b];
    if Since(on', off') {
      var j :| 0 <= j < |on'| && OnFrom(on', off', j);
      if j < |on| {
        forall l | j < l < |on|
          ensures !off[l]
        {
          assert !off'[l];
        }
        assert OnFrom(on, off, j) && off'[|on|] == b;
      }
    }
    if a {
      assert OnFrom(on', off', |on|);
    }
    if Since(on, off) && !b {
      var j :| 0 <= j < |on| && OnFrom(on, off, j);
      assert OnFrom(on', off', j);
    }
  }

  /** Step `j` switched it on, and no later step did. */
  ghost predicate LastOn(on: seq<bool>, j: int)
  {
    0 <= j < |on| && on[j] && forall l :: j < l < |on| ==> !on[l]
  }

  lemma LastOneExists(on: seq<bool>, j: nat)
    requires j < |on| && on[j]
    ensures exists i :: LastOn(on, i)
    decreases |on| - j
  {
    if i :| j < i < |on| && on[i] {
      LastOneExists(on, i);
    } else {
      assert LastOn(on, j);
    }
  }

  /** From the last time it was switched on, all depends on whether it was switched off since. */
  lemma SinceLast(on: seq<bool>, off: seq<bool>, j: int)
    requires |on| == |off| && LastOn(on, j)
    ensures Since(on, off) <==> forall l :: j < l < |on| ==> !off[l]
  {
    if Since(on, off) {
      var i :| 0 <= i < |on| && OnFrom(on, off, i);
      assert i <= j;
    }
    if forall l :: j < l < |on| ==> !off[l] {
      assert OnFrom(on, off, j);
    }
  }
}
