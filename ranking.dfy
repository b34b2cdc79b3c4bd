/** The selection step of `Store.Allocate`: which measurements are eligible,
    how they are scored (`wCost * nCost + wDelay * nDelay` over the min-max
    normalised costs and delays) and which one is chosen (least score, ties
    to the smaller `DelayMs`). */
module Ranking {
  import opened CenterTypes
  import opened MinMax

  const W_DELAY: real := 0.6
  const W_COST: real := 0.4

  /** The Go `scored` record without its score, which is computed after
      collection: the measurement, the deployment's cost and its `CSCI-ID`. */
  datatype Scored = Scored(m: Measurement, cost: int, csciId: string)

  /** A measurement is kept when its site deploys the service and has a
      free slot. */
  predicate IsEligible(deps: Deployments, serviceId: string, m: Measurement)
  {
    m.siteName in deps && serviceId in deps[m.siteName]
    && deps[m.siteName][serviceId].gasAvailable > 0
  }

  function ScoredOf(deps: Deployments, serviceId: string, m: Measurement): Scored
    requires IsEligible(deps, serviceId, m)
  {
    var d := deps[m.siteName][serviceId].deployment;
    Scored(m, d.cost, d.csciId)
  }

  /** The candidates the collection loop appends, in measurement order.
      Each one is an eligible measurement carrying its deployment's cost and
      `CSCI-ID`, and it is one of the request's measurements. */
  function Eligible(deps: Deployments, serviceId: string, ms: seq<Measurement>): (cs: seq<Scored>)
    ensures |cs| <= |ms|
    ensures forall i :: 0 <= i < |cs| ==>
              cs[i].m in ms && IsEligible(deps, serviceId, cs[i].m)
              && cs[i] == ScoredOf(deps, serviceId, cs[i].m)
  {
    if |ms| == 0 then []
    else
      var init := ms[..|ms| - 1];
      var cs := Eligible(deps, serviceId, init);
      assert forall m :: m in init ==> m in ms;
      var m := ms[|ms| - 1];
      if IsEligible(deps, serviceId, m) then cs + [ScoredOf(deps, serviceId, m)] else cs
  }

  /** Exactly the eligible measurements are kept: the candidates' measurements
      are the eligible ones among the request's. */
  lemma {:induction false} EligibleExactly(deps: Deployments, serviceId: string, ms: seq<Measurement>)
    ensures (set i | 0 <= i < |Eligible(deps, serviceId, ms)| :: Eligible(deps, serviceId, ms)[i].m)
            == set m | m in ms && IsEligible(deps, serviceId, m)
  {
    if |ms| > 0 {
      var init, last := ms[..|ms| - 1], ms[|ms| - 1];
      EligibleExactly(deps, serviceId, init);
      assert ms == init + [last];
      var before := Eligible(deps, serviceId, init);
      var cs := Eligible(deps, serviceId, ms);
      var kept := if IsEligible(deps, serviceId, last) then {last} else {};
      assert (set m | m in ms && IsEligible(deps, serviceId, m))
          == (set m | m in init && IsEligible(deps, serviceId, m)) + kept;
      if IsEligible(deps, serviceId, last) {
        assert cs == before + [ScoredOf(deps, serviceId, last)];
        assert forall i :: 0 <= i < |before| ==> cs[i] == before[i];
        assert cs[|before|].m == last;
        assert (set i | 0 <= i < |cs| :: cs[i].m) == (set i | 0 <= i < |before| :: before[i].m) + {last};
      } else {
        assert cs == before;
      }
    }
  }

  /** No candidate at all exactly when no measurement is eligible. */
  lemma EligibleEmpty(deps: Deployments, serviceId: string, ms: seq<Measurement>)
    ensures Eligible(deps, serviceId, ms) == [] <==> forall m :: m in ms ==> !IsEligible(deps, serviceId, m)
  {
    EligibleExactly(deps, serviceId, ms);
    var cs := Eligible(deps, serviceId, ms);
    if cs != [] {
      assert cs[0].m in (set i | 0 <= i < |cs| :: cs[i].m);
    } else {
      assert (set m | m in ms && IsEligible(deps, serviceId, m)) == {};
    }
  }

  /** `lastDelay` after the collection loop: one write per candidate, in
      order. */
  function RecordDelays(ld: map<string, int>, cs: seq<Scored>): map<string, int>
  {
    if |cs| == 0 then ld
    else
      var last := cs[|cs| - 1].m;
      RecordDelays(ld, cs[..|cs| - 1])[last.instanceId := last.delayMs]
  }

  /** What the writes leave behind: the candidates' instance ids are added,
      every other entry keeps its old delay, and an instance id holds the
      delay of the last candidate measuring it. */
  lemma {:induction false} RecordDelaysSpec(ld: map<string, int>, cs: seq<Scored>)
    ensures RecordDelays(ld, cs).Keys == ld.Keys + set i | 0 <= i < |cs| :: cs[i].m.instanceId
    ensures forall id :: id in ld && (forall i :: 0 <= i < |cs| ==> cs[i].m.instanceId != id) ==>
              RecordDelays(ld, cs)[id] == ld[id]
    ensures forall i :: 0 <= i < |cs| && (forall j :: i < j < |cs| ==> cs[j].m.instanceId != cs[i].m.instanceId) ==>
              RecordDelays(ld, cs)[cs[i].m.instanceId] == cs[i].m.delayMs
  {
    RecordDelaysKeys(ld, cs);
    RecordDelaysKept(ld, cs);
    RecordDelaysLast(ld, cs);
  }

  lemma {:induction false} RecordDelaysKeys(ld: map<string, int>, cs: seq<Scored>)
    ensures RecordDelays(ld, cs).Keys == ld.Keys + set i | 0 <= i < |cs| :: cs[i].m.instanceId
  {
    if |cs| > 0 {
      var init := cs[..|cs| - 1];
      RecordDelaysKeys(ld, init);
      assert (set i | 0 <= i < |cs| :: cs[i].m.instanceId)
          == (set i | 0 <= i < |init| :: init[i].m.instanceId) + {cs[|cs| - 1].m.instanceId};
    }
  }

  lemma {:induction false} RecordDelaysKept(ld: map<string, int>, cs: seq<Scored>)
    ensures ld.Keys <= RecordDelays(ld, cs).Keys
    ensures forall id :: id in ld && (forall i :: 0 <= i < |cs| ==> cs[i].m.instanceId != id) ==>
              RecordDelays(ld, cs)[id] == ld[id]
  {
    RecordDelaysKeys(ld, cs);
    if |cs| > 0 {
      var init := cs[..|cs| - 1];
      RecordDelaysKeys(ld, init);
      RecordDelaysKept(ld, init);
      forall id | id in ld && (forall i :: 0 <= i < |cs| ==> cs[i].m.instanceId != id)
        ensures RecordDelays(ld, cs)[id] == ld[id]
      {
        assert forall i :: 0 <= i < |init| ==> init[i].m.instanceId != id;
      }
    }
  }

  lemma {:induction false} RecordDelaysLast(ld: map<string, int>, cs: seq<Scored>)
    ensures forall i :: 0 <= i < |cs| ==> cs[i].m.instanceId in RecordDelays(ld, cs)
    ensures forall i :: 0 <= i < |cs| && (forall j :: i < j < |cs| ==> cs[j].m.instanceId != cs[i].m.instanceId) ==>
              RecordDelays(ld, cs)[cs[i].m.instanceId] == cs[i].m.delayMs
  {
    RecordDelaysKeys(ld, cs);
    if |cs| > 0 {
      var init := cs[..|cs| - 1];
      RecordDelaysKeys(ld, init);
      RecordDelaysLast(ld, init);
      forall i | 0 <= i < |cs| && (forall j :: i < j < |cs| ==> cs[j].m.instanceId != cs[i].m.instanceId)
        ensures RecordDelays(ld, cs)[cs[i].m.instanceId] == cs[i].m.delayMs
      {
        if i < |init| {
          assert init[i] == cs[i];
          assert forall j :: i < j < |init| ==> init[j].m.instanceId != init[i].m.instanceId by {
            forall j | i < j < |init| ensures init[j] == cs[j] { }
          }
        }
      }
    }
  }

  /** The collection loop: skips measurements whose site lacks the service
      or a free slot, records the delay of every kept one and appends it. */
  method Collect(deps: Deployments, serviceId: string, ms: seq<Measurement>, ld0: map<string, int>)
    returns (cs: seq<Scored>, ld: map<string, int>)
    ensures cs == Eligible(deps, serviceId, ms)
    ensures ld == RecordDelays(ld0, cs)
  {
    cs, ld := [], ld0;
    for i := 0 to |ms|
      invariant cs == Eligible(deps, serviceId, ms[..i])
      invariant ld == RecordDelays(ld0, cs)
    {
      var m := ms[i];
      assert ms[..i + 1][..i] == ms[..i];
      if m.siteName !in deps {
        continue;
      }
      var bySvc := deps[m.siteName];
      if serviceId !in bySvc {
        continue;
      }
      var st := bySvc[serviceId];
      if st.gasAvailable <= 0 {
        continue;
      }
      ld := ld[m.instanceId := m.delayMs];
      var next := cs + [Scored(m, st.deployment.cost, st.deployment.csciId)];
      assert next[..|cs|] == cs;
      cs := next;
    }
    assert ms[..|ms|] == ms;
  }

  function Costs(cs: seq<Scored>): (r: seq<real>)
    ensures |r| == |cs|
  {
    seq(|cs|, i requires 0 <= i < |cs| => cs[i].cost as real)
  }

  function Delays(cs: seq<Scored>): (r: seq<real>)
    ensures |r| == |cs|
  {
    seq(|cs|, i requires 0 <= i < |cs| => cs[i].m.delayMs as real)
  }

  function Weigh(nCost: real, nDelay: real): real
  {
    W_COST * nCost + W_DELAY * nDelay
  }

  /** The score of every candidate. */
  function Scores(cs: seq<Scored>): (r: seq<real>)
    ensures |r| == |cs|
  {
    var nc, nd := Norm(Costs(cs)), Norm(Delays(cs));
    seq(|cs|, i requires 0 <= i < |cs| => Weigh(nc[i], nd[i]))
  }

  /** The `sort.Slice` comparison: candidate `i` goes before `j`. */
  predicate Before(cs: seq<Scored>, sc: seq<real>, i: nat, j: nat)
    requires i < |cs| && j < |cs| && |sc| == |cs|
  {
    if sc[i] == sc[j] then cs[i].m.delayMs < cs[j].m.delayMs else sc[i] < sc[j]
  }

  /** Under the scores `sc`, nothing goes before candidate `k`. */
  predicate Least(cs: seq<Scored>, sc: seq<real>, k: nat)
    requires |sc| == |cs|
  {
    k < |cs| && forall j :: 0 <= j < |cs| ==> !Before(cs, sc, j, k)
  }

  /** Candidate `k` can be first after sorting. */
  predicate IsBest(cs: seq<Scored>, k: nat)
  {
    Least(cs, Scores(cs), k)
  }

  lemma BeforeTransitive(cs: seq<Scored>, sc: seq<real>, i: nat, j: nat, k: nat)
    requires i < |cs| && j < |cs| && k < |cs| && |sc| == |cs|
    requires Before(cs, sc, i, j) && Before(cs, sc, j, k)
    ensures Before(cs, sc, i, k)
  {
  }

  /** The score loop and the choice of the first candidate after sorting,
      written as a selection of a least candidate (the comparison is a strict
      weak order, so any least candidate can be the one sorted first). */
  method Rank(cs: seq<Scored>) returns (k: nat)
    requires |cs| > 0
    ensures IsBest(cs, k)
  {
    var scores := ScoreAll(cs);
    k := SelectLeast(cs, scores);
  }

  /** A single pass keeping the least candidate seen so far. */
  method SelectLeast(cs: seq<Scored>, sc: seq<real>) returns (k: nat)
    requires |cs| > 0 && |sc| == |cs|
    ensures Least(cs, sc, k)
  {
    k := 0;
    for i := 1 to |cs|
      invariant k < i
      invariant forall j :: 0 <= j < i ==> !Before(cs, sc, j, k)
    {
      if Before(cs, sc, i, k) {
        NewLeast(cs, sc, i, k);
        k := i;
      }
    }
  }

  /** A candidate going before the least of the first `i` is the least of
      the first `i + 1`. */
  lemma NewLeast(cs: seq<Scored>, sc: seq<real>, i: nat, k: nat)
    requires i < |cs| && k < |cs| && |sc| == |cs|
    requires forall j :: 0 <= j < i ==> !Before(cs, sc, j, k)
    requires Before(cs, sc, i, k)
    ensures forall j :: 0 <= j <= i ==> !Before(cs, sc, j, i)
  {
    forall j | 0 <= j <= i ensures !Before(cs, sc, j, i) {
      if j < i && Before(cs, sc, j, i) {
        BeforeTransitive(cs, sc, j, i, k);
      }
    }
  }

  /** The normalisations and the score loop. */
  method ScoreAll(cs: seq<Scored>) returns (scores: seq<real>)
    ensures scores == Scores(cs)
  {
    var nCost := MinMaxNorm(Costs(cs));
    var nDelay := MinMaxNorm(Delays(cs));
    scores := [];
    for i := 0 to |cs|
      invariant |scores| == i
      invariant forall j :: 0 <= j < i ==> scores[j] == Weigh(nCost[j], nDelay[j])
    {
      scores := scores + [Weigh(nCost[i], nDelay[i])];
    }
  }

  /** The chosen candidate has the least score, and among candidates with
      that score the least delay. */
  lemma BestIsLeast(cs: seq<Scored>, k: nat, j: nat)
    requires IsBest(cs, k) && j < |cs|
    ensures Scores(cs)[k] <= Scores(cs)[j]
    ensures Scores(cs)[k] == Scores(cs)[j] ==> cs[k].m.delayMs <= cs[j].m.delayMs
  {
    assert !Before(cs, Scores(cs), j, k);
  }

  /** A candidate that another one beats on both cost and delay, strictly on
      at least one of them, is never chosen. */
  lemma DominatedNeverBest(cs: seq<Scored>, j: nat, k: nat)
    requires j < |cs| && k < |cs|
    requires cs[j].cost <= cs[k].cost && cs[j].m.delayMs <= cs[k].m.delayMs
    requires cs[j].cost < cs[k].cost || cs[j].m.delayMs < cs[k].m.delayMs
    ensures !IsBest(cs, k)
  {
    var nc, nd := Norm(Costs(cs)), Norm(Delays(cs));
    NormOrder(Costs(cs), j, k);
    NormOrder(Delays(cs), j, k);
    assert nc[j] <= nc[k] && nd[j] <= nd[k];
    assert nc[j] < nc[k] || nd[j] < nd[k];
    assert Scores(cs)[j] < Scores(cs)[k];
    assert Before(cs, Scores(cs), j, k);
  }

  /** When every candidate costs the same, the chosen one has the least
      delay. */
  lemma SameCostLeastDelay(cs: seq<Scored>, k: nat, j: nat)
    requires IsBest(cs, k) && j < |cs|
    requires forall i :: 0 <= i < |cs| ==> cs[i].cost == cs[0].cost
    ensures cs[k].m.delayMs <= cs[j].m.delayMs
  {
    var costs := Costs(cs);
    assert forall i :: 0 <= i < |costs| ==> costs[i] == costs[0];
    var nc, nd := Norm(costs), Norm(Delays(cs));
    NormConstant(costs);
    NormOrder(Delays(cs), j, k);
    assert Scores(cs)[j] == Weigh(nc[j], nd[j]) && Scores(cs)[k] == Weigh(nc[k], nd[k]);
    assert !Before(cs, Scores(cs), j, k);
  }
}
