/** Running maxima as the aggregation loop keeps them: a candidate replaces
    the current best only when it is strictly greater, so among equal values
    the earliest one stays. */
module Leaders {
  import opened Wrappers

  /** `k` holds a maximum of `vs` and nothing before it reaches that value. */
  ghost predicate IsFirstMax(vs: seq<int>, k: int) {
    && 0 <= k < |vs|
    && (forall j :: 0 <= j < |vs| ==> vs[j] <= vs[k])
    && (forall j :: 0 <= j < k ==> vs[j] < vs[k])
  }

  /** `vs[i]` is positive and strictly above everything before it: the
      points where a strict running maximum started at 0 changes hands. */
  predicate IsNewHigh(vs: seq<int>, i: int) {
    && 0 <= i < |vs|
    && vs[i] > 0
    && (forall j :: 0 <= j < i ==> vs[j] < vs[i])
  }

  /** Index of the first maximum of a non-empty sequence (see `FirstMaxIsFirst`).
      A stable sort in descending order followed by taking element 0 selects
      exactly this one. */
  function FirstMax(vs: seq<int>): (k: nat)
    requires |vs| > 0
    ensures k < |vs|
  {
    if |vs| == 1 then 0
    else
      var k := FirstMax(vs[..|vs| - 1]);
      if vs[|vs| - 1] > vs[k] then |vs| - 1 else k
  }

  lemma {:induction false} FirstMaxIsFirst(vs: seq<int>)
    requires |vs| > 0
    ensures IsFirstMax(vs, FirstMax(vs))
  {
    if |vs| > 1 {
      var init := vs[..|vs| - 1];
      FirstMaxIsFirst(init);
      assert forall j :: 0 <= j < |init| ==> init[j] == vs[j];
    }
  }

  lemma {:induction false} FirstMaxUnique(vs: seq<int>, k: int, k': int)
    requires IsFirstMax(vs, k) && IsFirstMax(vs, k')
    ensures k == k'
  {
    assert vs[k] == vs[k'];
  }

  /** Where a strict running maximum that starts at 0 ends up: the first
      maximum if it is positive, no one otherwise (see `LeaderSpec`). */
  function Leader(vs: seq<int>): (r: Option<nat>)
    ensures r.Some? ==> r.value < |vs|
  {
    if |vs| == 0 then None
    else
      var k := FirstMax(vs);
      if vs[k] > 0 then Some(k) else None
  }

  lemma {:induction false} LeaderSpec(vs: seq<int>)
    ensures Leader(vs).Some? ==> IsFirstMax(vs, Leader(vs).value) && vs[Leader(vs).value] > 0
    ensures Leader(vs).None? <==> forall j :: 0 <= j < |vs| ==> vs[j] <= 0
  {
    if |vs| > 0 {
      FirstMaxIsFirst(vs);
    }
  }

  /** The running maximum the loop holds next to the leader: 0 before any
      leader exists (see `BestBound`). */
  function Best(vs: seq<int>): (b: int)
    ensures b >= 0
  {
    match Leader(vs)
    case None => 0
    case Some(k) => vs[k]
  }

  lemma {:induction false} BestBound(vs: seq<int>)
    ensures forall j :: 0 <= j < |vs| ==> vs[j] <= Best(vs)
    ensures Best(vs) > 0 <==> Leader(vs).Some?
  {
    LeaderSpec(vs);
  }

  /** Leader characterised without reference to the scan. */
  lemma {:induction false} LeaderIff(vs: seq<int>, k: nat)
    ensures Leader(vs) == Some(k) <==> IsFirstMax(vs, k) && vs[k] > 0
  {
    LeaderSpec(vs);
    if IsFirstMax(vs, k) && vs[k] > 0 {
      FirstMaxIsFirst(vs);
      FirstMaxUnique(vs, k, FirstMax(vs));
    }
  }

  /** One step of the loop: `v` takes over exactly when it beats the current
      best strictly. */
  lemma {:induction false} LeaderStep(vs: seq<int>, v: int)
    ensures Leader(vs + [v]) == if v > Best(vs) then Some(|vs|) else Leader(vs)
    ensures Best(vs + [v]) == if v > Best(vs) then v else Best(vs)
  {
    var w := vs + [v];
    BestBound(vs);
    LeaderSpec(vs);
    assert forall j :: 0 <= j < |vs| ==> w[j] == vs[j];
    if v > Best(vs) {
      assert IsFirstMax(w, |vs|);
      LeaderIff(w, |vs|);
    } else if Leader(vs).Some? {
      var k := Leader(vs).value;
      assert IsFirstMax(w, k);
      LeaderIff(w, k);
    } else {
      assert forall j :: 0 <= j < |w| ==> w[j] <= 0;
    }
  }

  /** The leader itself is one of the points where the maximum changed. */
  lemma {:induction false} LeaderIsNewHigh(vs: seq<int>)
    requires Leader(vs).Some?
    ensures IsNewHigh(vs, Leader(vs).value)
  {
    LeaderSpec(vs);
  }

  /** Whether a value sets a new high depends only on what came before it:
      the last one does exactly when it beats the current best. */
  lemma {:induction false} NewHighStep(vs: seq<int>, v: int)
    ensures IsNewHigh(vs + [v], |vs|) <==> v > Best(vs)
    ensures forall k :: 0 <= k < |vs| ==> (IsNewHigh(vs + [v], k) <==> IsNewHigh(vs, k))
  {
    var w := vs + [v];
    assert forall j :: 0 <= j < |vs| ==> w[j] == vs[j];
    BestBound(vs);
    if v > Best(vs) {
      assert forall j :: 0 <= j < |vs| ==> w[j] < v;
    } else if Leader(vs).Some? {
      assert w[Leader(vs).value] >= v;
    }
  }
}
