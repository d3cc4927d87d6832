/** The order in which an availability heartbeat considers its candidates
    (src/server/handler.ts:229-268): always the group with the least served share. */
module HeartbeatOrder {
  import opened Basics

  datatype SnapshotKind = Dates | Slots

  datatype Candidate = Candidate(kind: SnapshotKind, serviceId: string, scope: string)

  datatype Group = Group(weight: real, order: int, candidates: seq<Candidate>)

  /** The whole part of the weight, kept between 1 and 100. */
  function SchedulingWeight(weight: real): (r: int)
    ensures 1 <= r <= 100
    ensures 1.0 <= weight < 101.0 ==> r as real <= weight < r as real + 1.0
    ensures weight < 1.0 ==> r == 1
    ensures weight >= 100.0 ==> r == 100
  {
    var n := weight.Floor;
    if n > 100 then 100 else if n < 1 then 1 else n
  }

  /** A heavier group is never scheduled as a lighter one. */
  lemma {:induction false} WeightMonotone(a: real, b: real)
    requires a <= b
    ensures SchedulingWeight(a) <= SchedulingWeight(b)
  {
    hide SchedulingWeight;
  }

  /** What a group has been served, relative to its weight. */
  function Share(group: Group, served: nat): real {
    served as real / SchedulingWeight(group.weight) as real
  }

  /** The comparator: share ascending, then weight descending, then order ascending. */
  predicate Better(groups: seq<Group>, served: seq<nat>, a: nat, b: nat)
    requires |served| == |groups| && a < |groups| && b < |groups|
  {
    var x, y := Share(groups[a], served[a]), Share(groups[b], served[b]);
    x < y || (x == y && (groups[a].weight > groups[b].weight
                         || (groups[a].weight == groups[b].weight && groups[a].order < groups[b].order)))
  }

  /** A stable sort puts `a` in front of `b`. */
  predicate Beats(groups: seq<Group>, served: seq<nat>, a: nat, b: nat)
    requires |served| == |groups| && a < |groups| && b < |groups|
  {
    Better(groups, served, a, b) || (!Better(groups, served, b, a) && a < b)
  }

  predicate Open(groups: seq<Group>, served: seq<nat>, g: nat)
    requires |served| == |groups| && g < |groups|
  {
    served[g] < |groups[g].candidates|
  }

  /** `g` is the first of the sorted unexhausted groups. */
  ghost predicate IsBest(groups: seq<Group>, served: seq<nat>, g: nat)
    requires |served| == |groups| && g < |groups|
  {
    Open(groups, served, g) &&
    forall h :: 0 <= h < |groups| && h != g && Open(groups, served, h) ==> Beats(groups, served, g, h)
  }

  lemma {:induction false} BeatsTransitive(groups: seq<Group>, served: seq<nat>, a: nat, b: nat, c: nat)
    requires |served| == |groups| && a < |groups| && b < |groups| && c < |groups|
    requires Beats(groups, served, a, b) && Beats(groups, served, b, c)
    ensures Beats(groups, served, a, c)
  {
    hide Share;
  }

  /** How often a group was picked. */
  function CountOf(picks: seq<nat>, g: nat): nat {
    if |picks| == 0 then 0
    else CountOf(picks[..|picks| - 1], g) + if picks[|picks| - 1] == g then 1 else 0
  }

  function Served(groups: seq<Group>, picks: seq<nat>): (r: seq<nat>)
    ensures |r| == |groups|
  {
    seq(|groups|, g requires 0 <= g < |groups| => CountOf(picks, g))
  }

  /** Every pick was the best at its time. */
  ghost predicate Greedy(groups: seq<Group>, picks: seq<nat>) {
    forall k :: 0 <= k < |picks| ==> picks[k] < |groups| && IsBest(groups, Served(groups, picks[..k]), picks[k])
  }

  ghost predicate Exhausted(groups: seq<Group>, picks: seq<nat>) {
    forall g :: 0 <= g < |groups| ==> !Open(groups, Served(groups, picks), g)
  }

  lemma {:induction false} GreedyFront(groups: seq<Group>, picks: seq<nat>, k: nat)
    requires Greedy(groups, picks) && k <= |picks|
    ensures Greedy(groups, picks[..k])
  {
    hide IsBest, Served;
    forall j | 0 <= j < k
      ensures picks[..k][j] < |groups| && IsBest(groups, Served(groups, picks[..k][..j]), picks[..k][j])
    {
      assert picks[..k][..j] == picks[..j];
      assert picks[j] < |groups| && IsBest(groups, Served(groups, picks[..j]), picks[j]);
    }
  }

  lemma {:induction false} CountBounded(groups: seq<Group>, picks: seq<nat>, g: nat)
    requires Greedy(groups, picks) && g < |groups|
    ensures CountOf(picks, g) <= |groups[g].candidates|
  {
    if |picks| > 0 {
      var n := |picks| - 1;
      GreedyFront(groups, picks, n);
      CountBounded(groups, picks[..n], g);
      assert IsBest(groups, Served(groups, picks[..n]), picks[n]);
    }
  }

  /** The candidates in pick order: each pick takes its group's next one. */
  function Deal(groups: seq<Group>, picks: seq<nat>): (r: seq<Candidate>)
    requires Greedy(groups, picks)
    ensures |r| == |picks|
  {
    if |picks| == 0 then []
    else
      var n := |picks| - 1;
      GreedyFront(groups, picks, n);
      assert IsBest(groups, Served(groups, picks[..n]), picks[n]);
      Deal(groups, picks[..n]) + [groups[picks[n]].candidates[CountOf(picks[..n], picks[n])]]
  }

  /** `groups.filter(group => group.candidates.length > 0)`. */
  function NonEmpty(groups: seq<Group>): (r: seq<Group>)
    ensures forall g :: 0 <= g < |r| ==> |r[g].candidates| > 0
  {
    if |groups| == 0 then []
    else if |groups[0].candidates| > 0 then [groups[0]] + NonEmpty(groups[1..])
    else NonEmpty(groups[1..])
  }

  // --------------------------------------------------------------------- the loop

  function Left(groups: seq<Group>, served: seq<nat>): int
    requires |served| == |groups|
  {
    if |groups| == 0 then 0
    else Left(groups[..|groups| - 1], served[..|groups| - 1]) + |groups[|groups| - 1].candidates| - served[|groups| - 1]
  }

  lemma {:induction false} LeftDrops(groups: seq<Group>, served: seq<nat>, g: nat)
    requires |served| == |groups| && g < |groups|
    ensures Left(groups, served[g := served[g] + 1]) == Left(groups, served) - 1
  {
    var n := |groups| - 1;
    if g < n {
      LeftDrops(groups[..n], served[..n], g);
      assert served[g := served[g] + 1][..n] == served[..n][g := served[g] + 1];
    } else {
      assert served[g := served[g] + 1][..n] == served[..n];
    }
  }

  lemma {:induction false} LeftOpen(groups: seq<Group>, served: seq<nat>)
    requires |served| == |groups| && forall g :: 0 <= g < |groups| ==> served[g] <= |groups[g].candidates|
    ensures Left(groups, served) >= 0
  {
    if |groups| > 0 {
      LeftOpen(groups[..|groups| - 1], served[..|groups| - 1]);
    }
  }

  /** `sort(...)[0]` of the cursors that are not exhausted. */
  method PickBest(groups: seq<Group>, served: array<nat>) returns (best: nat)
    requires served.Length == |groups|
    requires exists g :: 0 <= g < |groups| && Open(groups, served[..], g)
    ensures best < |groups| && IsBest(groups, served[..], best)
  {
    hide Better, Beats;
    ghost var now := served[..];
    best := 0;
    while !(served[best] < |groups[best].candidates|)
      invariant best < |groups| && forall h :: 0 <= h < best ==> !Open(groups, now, h)
      decreases |groups| - best
    {
      best := best + 1;
    }
    for i := best + 1 to |groups|
      invariant best < i && Open(groups, now, best)
      invariant forall h :: 0 <= h < i && h != best && Open(groups, now, h) ==> Beats(groups, now, best, h)
    {
      if served[i] < |groups[i].candidates| && Better(groups, served[..], i, best) {
        forall h | 0 <= h < i && Open(groups, now, h) ensures Beats(groups, now, i, h) {
          BetterBeats(groups, now, i, best);
          if h != best {
            BeatsTransitive(groups, now, i, best, h);
          }
        }
        best := i;
      } else if served[i] < |groups[i].candidates| {
        BetterBeats(groups, now, best, i);
      }
    }
  }

  lemma {:induction false} BetterBeats(groups: seq<Group>, served: seq<nat>, a: nat, b: nat)
    requires |served| == |groups| && a < |groups| && b < |groups|
    ensures Better(groups, served, a, b) ==> Beats(groups, served, a, b)
    ensures a < b && !Better(groups, served, b, a) ==> Beats(groups, served, a, b)
  {}

  lemma {:induction false} GreedyGrows(groups: seq<Group>, picks: seq<nat>, g: nat)
    requires Greedy(groups, picks) && g < |groups| && IsBest(groups, Served(groups, picks), g)
    ensures Greedy(groups, picks + [g])
    ensures Served(groups, picks + [g]) == Served(groups, picks)[g := CountOf(picks, g) + 1]
    ensures Deal(groups, picks + [g]) == Deal(groups, picks) + [groups[g].candidates[CountOf(picks, g)]]
  {
    hide IsBest;
    var longer := picks + [g];
    assert longer[..|picks|] == picks;
    forall k | 0 <= k < |longer|
      ensures longer[k] < |groups| && IsBest(groups, Served(groups, longer[..k]), longer[k])
    {
      if k < |picks| {
        assert longer[..k] == picks[..k];
        assert picks[k] < |groups| && IsBest(groups, Served(groups, picks[..k]), picks[k]);
      }
    }
  }

  /** Every candidate of every group, greedily ordered. */
  method OrderCandidateGroups(groups: seq<Group>) returns (ordered: seq<Candidate>)
    ensures exists picks :: Greedy(NonEmpty(groups), picks) && Exhausted(NonEmpty(groups), picks)
              && ordered == Deal(NonEmpty(groups), picks)
  {
    hide IsBest, NonEmpty, Deal, Served, Left;
    var cursors := NonEmpty(groups);
    var n := |cursors|;
    var served := new nat[n](i => 0);
    ordered := [];
    ghost var picks: seq<nat> := [];
    assert served[..] == Served(cursors, picks) && Deal(cursors, []) == [] by { NothingServed(cursors); }
    LeftOpen(cursors, served[..]);
    while exists i :: 0 <= i < n && served[i] < |cursors[i].candidates|
      invariant Greedy(cursors, picks) && served[..] == Served(cursors, picks) && ordered == Deal(cursors, picks)
      invariant Left(cursors, served[..]) >= 0
      decreases Left(cursors, served[..])
    {
      var i :| 0 <= i < n && served[i] < |cursors[i].candidates|;
      assert Open(cursors, served[..], i);
      var next := PickBest(cursors, served);
      ghost var before := served[..];
      ServedAt(cursors, picks, next);
      GreedyGrows(cursors, picks, next);
      LeftDrops(cursors, before, next);
      ordered := ordered + [TakeNext(cursors, served, next)];
      served[next] := served[next] + 1;
      picks := picks + [next];
      assert served[..] == before[next := before[next] + 1];
      LeftServed(cursors, picks);
    }
    forall g | 0 <= g < n ensures !Open(cursors, Served(cursors, picks), g) {
      assert served[..][g] == served[g];
    }
  }

  function TakeNext(groups: seq<Group>, served: array<nat>, g: nat): Candidate
    requires served.Length == |groups| && g < |groups| && IsBest(groups, served[..], g)
    reads served
  {
    groups[g].candidates[served[g]]
  }

  lemma {:induction false} NothingServed(groups: seq<Group>)
    ensures Served(groups, []) == seq(|groups|, i => 0) && Greedy(groups, []) && Deal(groups, []) == []
  {}

  lemma {:induction false} ServedAt(groups: seq<Group>, picks: seq<nat>, g: nat)
    requires g < |groups|
    ensures Served(groups, picks)[g] == CountOf(picks, g)
  {}

  lemma {:induction false} LeftServed(groups: seq<Group>, picks: seq<nat>)
    requires Greedy(groups, picks)
    ensures Left(groups, Served(groups, picks)) >= 0
  {
    forall g | 0 <= g < |groups| ensures Served(groups, picks)[g] <= |groups[g].candidates| {
      CountBounded(groups, picks, g);
    }
    LeftOpen(groups, Served(groups, picks));
  }
}
