/** What the greedy heartbeat order promises: weighted fairness in every prefix, an
    early turn for every group, conservation, round-robin for equal weights. */
module HeartbeatFairness {
  import opened Basics
  import opened HeartbeatOrder

  // ------------------------------------------------------------------ counting picks

  lemma {:induction false} CountGrows(picks: seq<nat>, j: nat, k: nat, g: nat)
    requires j <= k <= |picks|
    ensures CountOf(picks[..j], g) <= CountOf(picks[..k], g)
    decreases k
  {
    if j < k {
      CountGrows(picks, j, k - 1, g);
      CountStep(picks, k - 1, g);
    }
  }

  lemma {:induction false} CountStep(picks: seq<nat>, k: nat, g: nat)
    requires k < |picks|
    ensures CountOf(picks[..k + 1], g) == CountOf(picks[..k], g) + if picks[k] == g then 1 else 0
  {
    assert picks[..k + 1][..k] == picks[..k];
  }

  /** The pick with which a group's count passed `r`. */
  lemma {:induction false} PickNumber(picks: seq<nat>, g: nat, r: nat) returns (k: nat)
    requires r < CountOf(picks, g)
    ensures k < |picks| && picks[k] == g && CountOf(picks[..k], g) == r
  {
    var n := |picks| - 1;
    if r < CountOf(picks[..n], g) {
      k := PickNumber(picks[..n], g, r);
      assert picks[..n][..k] == picks[..k];
    } else {
      k := n;
    }
  }

  lemma {:induction false} BestAt(groups: seq<Group>, picks: seq<nat>, k: nat)
    requires Greedy(groups, picks) && k < |picks|
    ensures picks[k] < |groups| && IsBest(groups, Served(groups, picks[..k]), picks[k])
  {}

  // ------------------------------------------------------------------------ fairness

  lemma {:induction false} Monotone(p: real, q: real, c: real)
    requires p <= q && c >= 0.0
    ensures p * c <= q * c
  {}

  lemma {:induction false} Regroup(p: real, v: real, w: real)
    ensures p * (v * w) == (p * v) * w == (p * w) * v
  {}

  lemma {:induction false} ShareTimes(a: Group, x: nat)
    ensures Share(a, x) * SchedulingWeight(a.weight) as real == x as real
  {
    hide SchedulingWeight;
  }

  lemma {:induction false} ShareAtMost(a: Group, b: Group, x: nat, y: nat)
    requires Share(a, x) <= Share(b, y)
    ensures x * SchedulingWeight(b.weight) <= y * SchedulingWeight(a.weight)
  {
    hide Share, SchedulingWeight;
    var v, w := SchedulingWeight(a.weight), SchedulingWeight(b.weight);
    Product(v, w);
    Monotone(Share(a, x), Share(b, y), v as real * w as real);
    Regroup(Share(a, x), v as real, w as real);
    Regroup(Share(b, y), v as real, w as real);
    ShareTimes(a, x);
    ShareTimes(b, y);
    Product(x, w);
    Product(y, v);
  }

  lemma {:induction false} Product(x: int, w: int)
    ensures (x * w) as real == x as real * w as real
    ensures x >= 0 && w >= 0 ==> x as real * w as real >= 0.0
  {}

  lemma {:induction false} BestShare(groups: seq<Group>, served: seq<nat>, a: nat, b: nat)
    requires |served| == |groups| && a < |groups| && b < |groups|
    requires IsBest(groups, served, a) && Open(groups, served, b)
    ensures Share(groups[a], served[a]) <= Share(groups[b], served[b])
  {
    hide Share;
    if a != b {
      assert Beats(groups, served, a, b);
    }
  }

  lemma {:induction false} Scaled(x: int, y: int, w: int)
    requires x <= y && w >= 0
    ensures x * w <= y * w
  {}

  /** In every prefix of the order, while a group has candidates left, no other group is
      more than one pick ahead of its weighted share. */
  lemma {:induction false} WeightedFair(groups: seq<Group>, picks: seq<nat>, k: nat, a: nat, b: nat)
    requires Greedy(groups, picks) && k <= |picks| && a < |groups| && b < |groups|
    requires CountOf(picks[..k], a) >= 1 && CountOf(picks[..k], b) < |groups[b].candidates|
    ensures (CountOf(picks[..k], a) - 1) * SchedulingWeight(groups[b].weight)
         <= CountOf(picks[..k], b) * SchedulingWeight(groups[a].weight)
  {
    hide Share, IsBest, Greedy, SchedulingWeight;
    var j := PickNumber(picks[..k], a, CountOf(picks[..k], a) - 1);
    assert picks[..k][..j] == picks[..j];
    BestAt(groups, picks, j);
    CountGrows(picks, j, k, b);
    ServedAt(groups, picks[..j], a);
    ServedAt(groups, picks[..j], b);
    BestShare(groups, Served(groups, picks[..j]), a, b);
    ShareAtMost(groups[a], groups[b], CountOf(picks[..j], a), CountOf(picks[..j], b));
    Scaled(CountOf(picks[..j], b), CountOf(picks[..k], b), SchedulingWeight(groups[a].weight));
  }

  /** The first turn goes to a heaviest group, and among those to the one asked for first. */
  lemma {:induction false} HeaviestFirst(groups: seq<Group>, picks: seq<nat>, h: nat)
    requires Greedy(groups, picks) && |picks| > 0 && h < |groups| && |groups[h].candidates| > 0
    ensures picks[0] < |groups| && groups[picks[0]].weight >= groups[h].weight
    ensures groups[picks[0]].weight == groups[h].weight ==> groups[picks[0]].order <= groups[h].order
  {
    BestAt(groups, picks, 0);
    assert picks[..0] == [];
    var served := Served(groups, []);
    ServedAt(groups, [], picks[0]);
    ServedAt(groups, [], h);
    hide SchedulingWeight, Greedy;
    assert Share(groups[h], served[h]) == 0.0 && Share(groups[picks[0]], served[picks[0]]) == 0.0;
    if h != picks[0] {
      assert Beats(groups, served, picks[0], h);
    }
  }

  // ---------------------------------------------------------------- the first round

  /** Some element of a larger set is missing from a short sequence. */
  lemma {:induction false} Missing(picks: seq<nat>, n: nat) returns (g: nat)
    requires |picks| < n
    ensures g < n && g !in picks
  {
    var all := Upto(n);
    var taken := Elements(picks);
    ElementsCount(picks);
    if all <= taken {
      SubsetCount(all, taken);
      assert false;
    }
    g :| g in all && g !in taken;
  }

  /** The naturals below `n`. */
  function Upto(n: nat): (r: set<nat>)
    ensures |r| == n && forall i: nat :: i in r <==> i < n
  {
    if n == 0 then {} else Upto(n - 1) + {n - 1}
  }

  lemma {:induction false} ElementsCount(picks: seq<nat>)
    ensures |Elements(picks)| <= |picks|
  {
    if |picks| > 0 {
      var n := |picks| - 1;
      ElementsCount(picks[..n]);
      assert picks == picks[..n] + [picks[n]];
      assert Elements(picks) == Elements(picks[..n]) + {picks[n]};
    } else {
      assert Elements(picks) == {};
    }
  }

  lemma {:induction false} SubsetCount(a: set<nat>, b: set<nat>)
    requires a <= b
    ensures |a| <= |b|
  {
    if a != {} {
      var x :| x in a;
      SubsetCount(a - {x}, b - {x});
    }
  }

  lemma {:induction false} CountZero(picks: seq<nat>, g: nat)
    ensures CountOf(picks, g) == 0 <==> g !in picks
  {
    if |picks| > 0 {
      var n := |picks| - 1;
      CountZero(picks[..n], g);
      assert picks == picks[..n] + [picks[n]];
    }
  }

  /** While some group has had no turn, only groups without a turn are picked. */
  lemma {:induction false} FreshPick(groups: seq<Group>, picks: seq<nat>, k: nat, h: nat)
    requires Greedy(groups, picks) && k < |picks| && h < |groups| && |groups[h].candidates| > 0
    requires h !in picks[..k]
    ensures picks[k] !in picks[..k]
  {
    hide IsBest, Greedy;
    BestAt(groups, picks, k);
    CountZero(picks[..k], h);
    CountZero(picks[..k], picks[k]);
    BestShare(groups, Served(groups, picks[..k]), picks[k], h);
  }

  lemma {:induction false} FirstPicksDistinct(groups: seq<Group>, picks: seq<nat>, k: nat)
    requires Greedy(groups, picks) && k <= |picks| && k <= |groups|
    requires forall g :: 0 <= g < |groups| ==> |groups[g].candidates| > 0
    ensures Distinct(picks[..k])
  {
    hide Greedy;
    if k > 0 {
      FirstPicksDistinct(groups, picks, k - 1);
      var h := Missing(picks[..k - 1], |groups|);
      FreshPick(groups, picks, k - 1, h);
      assert picks[..k][..k - 1] == picks[..k - 1];
      forall i, j | 0 <= i < j < k ensures picks[..k][i] != picks[..k][j] {
        assert picks[..k - 1][i] == picks[i];
        if j < k - 1 {
          assert picks[..k - 1][j] == picks[j];
        }
      }
    }
  }

  lemma {:induction false} DistinctCount(picks: seq<nat>)
    requires Distinct(picks)
    ensures |Elements(picks)| == |picks|
  {
    if |picks| > 0 {
      var n := |picks| - 1;
      DistinctCount(picks[..n]);
      assert picks == picks[..n] + [picks[n]];
      assert Elements(picks) == Elements(picks[..n]) + {picks[n]};
      assert picks[n] !in Elements(picks[..n]);
    } else {
      assert Elements(picks) == {};
    }
  }

  /** Each of the G groups has its first candidate among the first G outputs. */
  lemma {:induction false} FirstRoundCovers(groups: seq<Group>, picks: seq<nat>, g: nat) returns (k: nat)
    requires Greedy(groups, picks) && Exhausted(groups, picks) && g < |groups|
    requires forall h :: 0 <= h < |groups| ==> |groups[h].candidates| > 0
    ensures k < |picks| && k < |groups| && Deal(groups, picks)[k] == groups[g].candidates[0]
  {
    hide Greedy, Deal;
    FullyServed(groups, picks, g);
    k := PickNumber(picks, g, 0);
    if k >= |groups| {
      CountZero(picks[..k], g);
      var n := |groups|;
      FirstPicksDistinct(groups, picks, n);
      DistinctCount(picks[..n]);
      forall x | x in Elements(picks[..n]) ensures x in Upto(n) - {g} {
        var j :| 0 <= j < n && picks[..n][j] == x;
        BestAt(groups, picks, j);
        assert picks[..k][j] == x;
      }
      SubsetCount(Elements(picks[..n]), Upto(n) - {g});
      assert false;
    }
    DealAt(groups, picks, k);
  }

  lemma {:induction false} FullyServed(groups: seq<Group>, picks: seq<nat>, g: nat)
    requires Greedy(groups, picks) && Exhausted(groups, picks) && g < |groups|
    ensures CountOf(picks, g) == |groups[g].candidates|
  {
    ServedAt(groups, picks, g);
    CountBounded(groups, picks, g);
    assert !Open(groups, Served(groups, picks), g);
  }

  /** Output `k` is the next candidate of the group picked at `k`. */
  lemma {:induction false} DealAt(groups: seq<Group>, picks: seq<nat>, k: nat)
    requires Greedy(groups, picks) && k < |picks|
    ensures picks[k] < |groups| && CountOf(picks[..k], picks[k]) < |groups[picks[k]].candidates|
    ensures Deal(groups, picks)[k] == groups[picks[k]].candidates[CountOf(picks[..k], picks[k])]
  {
    hide IsBest;
    BestAt(groups, picks, k);
    assert Open(groups, Served(groups, picks[..k]), picks[k]) by {
      BestOpen(groups, Served(groups, picks[..k]), picks[k]);
    }
    var n := |picks| - 1;
    if k < n {
      GreedyFront(groups, picks, n);
      DealAt(groups, picks[..n], k);
      assert picks[..n][..k] == picks[..k];
    }
  }

  lemma {:induction false} BestOpen(groups: seq<Group>, served: seq<nat>, g: nat)
    requires |served| == |groups| && g < |groups| && IsBest(groups, served, g)
    ensures Open(groups, served, g)
  {}

  // ------------------------------------------------------------------- conservation

  /** The candidates of the first groups, `served[g]` of each. */
  function Taken(groups: seq<Group>, served: seq<nat>): multiset<Candidate>
    requires |served| == |groups| && forall g :: 0 <= g < |groups| ==> served[g] <= |groups[g].candidates|
  {
    if |groups| == 0 then multiset{}
    else
      var n := |groups| - 1;
      Taken(groups[..n], served[..n]) + multiset(groups[n].candidates[..served[n]])
  }

  ghost predicate Takeable(groups: seq<Group>, served: seq<nat>) {
    |served| == |groups| && forall g :: 0 <= g < |groups| ==> served[g] <= |groups[g].candidates|
  }

  lemma {:induction false} TakenSplit(groups: seq<Group>, served: seq<nat>)
    requires Takeable(groups, served) && |groups| > 0
    ensures var n := |groups| - 1;
      Takeable(groups[..n], served[..n])
      && Taken(groups, served) == Taken(groups[..n], served[..n]) + multiset(groups[n].candidates[..served[n]])
  {}

  lemma {:induction false} Resum(t: multiset<Candidate>, m: multiset<Candidate>, c: Candidate)
    ensures t + multiset{c} + m == t + m + multiset{c}
    ensures t + (m + multiset{c}) == t + m + multiset{c}
  {}

  /** One more candidate of the last group. */
  lemma {:induction false} TakenLast(groups: seq<Group>, served: seq<nat>, after: seq<nat>)
    requires |groups| > 0 && Takeable(groups, served) && Takeable(groups, after)
    requires after[..|groups| - 1] == served[..|groups| - 1] && after[|groups| - 1] == served[|groups| - 1] + 1
    ensures Taken(groups, after)
            == Taken(groups, served) + multiset{groups[|groups| - 1].candidates[served[|groups| - 1]]}
  {
    var n := |groups| - 1;
    TakenSplit(groups, served);
    TakenSplit(groups, after);
    hide Taken, Takeable;
    OneMore(groups[n].candidates, served[n]);
    Resum(Taken(groups[..n], served[..n]), multiset(groups[n].candidates[..served[n]]),
        groups[n].candidates[served[n]]);
  }

  /** One more candidate of an earlier group. */
  lemma {:induction false} TakenEarlier(groups: seq<Group>, served: seq<nat>, after: seq<nat>, c: Candidate)
    requires |groups| > 0 && Takeable(groups, served) && Takeable(groups, after)
    requires after[|groups| - 1] == served[|groups| - 1]
    requires Takeable(groups[..|groups| - 1], served[..|groups| - 1])
    requires Takeable(groups[..|groups| - 1], after[..|groups| - 1])
    requires Taken(groups[..|groups| - 1], after[..|groups| - 1])
             == Taken(groups[..|groups| - 1], served[..|groups| - 1]) + multiset{c}
    ensures Taken(groups, after) == Taken(groups, served) + multiset{c}
  {
    var n := |groups| - 1;
    TakenSplit(groups, served);
    TakenSplit(groups, after);
    hide Taken, Takeable;
    Resum(Taken(groups[..n], served[..n]), multiset(groups[n].candidates[..served[n]]), c);
  }

  lemma {:induction false} TakenNext(groups: seq<Group>, served: seq<nat>, g: nat)
    requires Takeable(groups, served) && g < |groups| && served[g] < |groups[g].candidates|
    ensures Takeable(groups, served[g := served[g] + 1])
    ensures Taken(groups, served[g := served[g] + 1])
            == Taken(groups, served) + multiset{groups[g].candidates[served[g]]}
  {
    hide Taken;
    var n := |groups| - 1;
    var after := served[g := served[g] + 1];
    assert Takeable(groups, after);
    if g < n {
      TakenNext(groups[..n], served[..n], g);
      assert after[..n] == served[..n][g := served[g] + 1];
      TakenEarlier(groups, served, after, groups[g].candidates[served[g]]);
    } else {
      assert after[..n] == served[..n];
      TakenLast(groups, served, after);
    }
  }

  lemma {:induction false} OneMore(cs: seq<Candidate>, k: nat)
    requires k < |cs|
    ensures multiset(cs[..k + 1]) == multiset(cs[..k]) + multiset{cs[k]}
  {
    assert cs[..k + 1] == cs[..k] + [cs[k]];
  }

  lemma {:induction false} DealTakes(groups: seq<Group>, picks: seq<nat>)
    requires Greedy(groups, picks)
    ensures forall g :: 0 <= g < |groups| ==> Served(groups, picks)[g] <= |groups[g].candidates|
    ensures multiset(Deal(groups, picks)) == Taken(groups, Served(groups, picks))
  {
    hide Taken, IsBest;
    forall g | 0 <= g < |groups| ensures Served(groups, picks)[g] <= |groups[g].candidates| {
      CountBounded(groups, picks, g);
    }
    if |picks| == 0 {
      NoneTaken(groups, Served(groups, picks));
    } else {
      var n := |picks| - 1;
      GreedyFront(groups, picks, n);
      DealTakes(groups, picks[..n]);
      BestAt(groups, picks, n);
      BestOpen(groups, Served(groups, picks[..n]), picks[n]);
      assert picks == picks[..n] + [picks[n]];
      GreedyGrows(groups, picks[..n], picks[n]);
      TakenNext(groups, Served(groups, picks[..n]), picks[n]);
      ServedAt(groups, picks[..n], picks[n]);
    }
  }

  lemma {:induction false} NoneTaken(groups: seq<Group>, served: seq<nat>)
    requires |served| == |groups| && forall g :: 0 <= g < |groups| ==> served[g] == 0
    ensures Taken(groups, served) == multiset{}
  {
    if |groups| > 0 {
      NoneTaken(groups[..|groups| - 1], served[..|groups| - 1]);
    }
  }

  /** All candidates of all groups. */
  function AllCandidates(groups: seq<Group>): multiset<Candidate> {
    if |groups| == 0 then multiset{}
    else AllCandidates(groups[..|groups| - 1]) + multiset(groups[|groups| - 1].candidates)
  }

  lemma {:induction false} AllTaken(groups: seq<Group>, served: seq<nat>)
    requires |served| == |groups| && forall g :: 0 <= g < |groups| ==> served[g] == |groups[g].candidates|
    ensures Taken(groups, served) == AllCandidates(groups)
  {
    if |groups| > 0 {
      var n := |groups| - 1;
      AllTaken(groups[..n], served[..n]);
      assert groups[n].candidates[..served[n]] == groups[n].candidates;
    }
  }

  /** Nothing is lost and nothing invented. */
  lemma {:induction false} Conserved(groups: seq<Group>, picks: seq<nat>)
    requires Greedy(groups, picks) && Exhausted(groups, picks)
    ensures multiset(Deal(groups, picks)) == AllCandidates(groups)
  {
    hide Taken, IsBest, Greedy, Deal, Exhausted;
    DealTakes(groups, picks);
    forall g | 0 <= g < |groups| ensures Served(groups, picks)[g] == |groups[g].candidates| {
      ServedAt(groups, picks, g);
      FullyServed(groups, picks, g);
    }
    AllTaken(groups, Served(groups, picks));
  }

  lemma {:induction false} EmptyGroupsAddNothing(groups: seq<Group>)
    ensures AllCandidates(NonEmpty(groups)) == AllCandidates(groups)
  {
    if |groups| > 0 {
      EmptyGroupsAddNothing(groups[1..]);
      AllOfFront(groups);
      if |groups[0].candidates| > 0 {
        AllOfFront(NonEmpty(groups));
        assert NonEmpty(groups)[1..] == NonEmpty(groups[1..]);
      }
    }
  }

  lemma {:induction false} AllOfFront(groups: seq<Group>)
    requires |groups| > 0
    ensures AllCandidates(groups) == multiset(groups[0].candidates) + AllCandidates(groups[1..])
  {
    if |groups| > 1 {
      var n := |groups| - 1;
      AllOfFront(groups[..n]);
      assert groups[..n][1..] == groups[1..][..n - 1];
    }
  }

  /** What is ordered are all candidates of all groups, each as often as it was asked for. */
  lemma {:induction false} OrderConserves(groups: seq<Group>, picks: seq<nat>)
    requires Greedy(NonEmpty(groups), picks) && Exhausted(NonEmpty(groups), picks)
    ensures multiset(Deal(NonEmpty(groups), picks)) == AllCandidates(groups)
  {
    hide NonEmpty, Greedy, Exhausted, Deal;
    Conserved(NonEmpty(groups), picks);
    EmptyGroupsAddNothing(groups);
  }

  /** Each group keeps its own order. */
  lemma {:induction false} KeepsGroupOrder(
    groups: seq<Group>, picks: seq<nat>, g: nat, r: nat, s: nat)
    returns (k: nat, l: nat)
    requires Greedy(groups, picks) && Exhausted(groups, picks)
    requires g < |groups| && r < s < |groups[g].candidates|
    ensures k < l < |picks| && picks[k] == picks[l] == g
    ensures Deal(groups, picks)[k] == groups[g].candidates[r] && Deal(groups, picks)[l] == groups[g].candidates[s]
  {
    hide Greedy, Deal, Exhausted;
    FullyServed(groups, picks, g);
    k := PickNumber(picks, g, r);
    l := PickNumber(picks, g, s);
    DealAt(groups, picks, k);
    DealAt(groups, picks, l);
    if l <= k {
      CountGrows(picks, l, k, g);
    }
  }

  // ---------------------------------------------------------------------- round-robin

  /** No group has more than `m` candidates. */
  ghost predicate Within(groups: seq<Group>, m: nat) {
    forall g :: 0 <= g < |groups| ==> |groups[g].candidates| <= m
  }

  /** Column-major reading from row `r`, group `g` on: the r-th candidates of all
      groups in request order, then the next row. */
  function Columns(groups: seq<Group>, r: nat, g: nat, m: nat): seq<nat>
    requires g <= |groups|
    decreases m - r, |groups| - g
  {
    if r >= m then []
    else if g == |groups| then Columns(groups, r + 1, 0, m)
    else if r < |groups[g].candidates| then [g] + Columns(groups, r, g + 1, m)
    else Columns(groups, r, g + 1, m)
  }

  /** How far a group has been served when row `r` is read up to group `g`. */
  function RowServed(groups: seq<Group>, r: nat, g: nat, h: nat): nat
    requires h < |groups|
  {
    var n, row := |groups[h].candidates|, if h < g then r + 1 else r;
    if n < row then n else row
  }

  ghost predicate AtRow(groups: seq<Group>, picks: seq<nat>, r: nat, g: nat) {
    forall h :: 0 <= h < |groups| ==> CountOf(picks, h) == RowServed(groups, r, g, h)
  }

  /** All weights are equal and the groups come in request order. */
  ghost predicate Uniform(groups: seq<Group>) {
    forall g, h :: 0 <= g < h < |groups| ==> groups[g].weight == groups[h].weight && groups[g].order < groups[h].order
  }

  lemma {:induction false} ShareOrder(a: Group, b: Group, x: nat, y: nat)
    requires a.weight == b.weight
    ensures Share(a, x) < Share(b, y) <==> x < y
    ensures Share(a, x) == Share(b, y) <==> x == y
  {
    var w := SchedulingWeight(a.weight) as real;
    assert x as real == Share(a, x) * w && y as real == Share(b, y) * w;
  }

  /** No other group beats the next one in the row. */
  lemma {:induction false} RowLoses(groups: seq<Group>, served: seq<nat>, p: nat, g: nat)
    requires Uniform(groups) && |served| == |groups| && p < |groups| && g < |groups| && p != g
    requires if p < g then served[p] > served[g] else served[p] >= served[g]
    ensures !Beats(groups, served, p, g)
  {
    hide Share;
    ShareOrder(groups[p], groups[g], served[p], served[g]);
    ShareOrder(groups[g], groups[p], served[g], served[p]);
  }

  lemma {:induction false} BestBeats(groups: seq<Group>, served: seq<nat>, p: nat, g: nat)
    requires |served| == |groups| && p < |groups| && g < |groups| && p != g
    requires IsBest(groups, served, p) && Open(groups, served, g)
    ensures Beats(groups, served, p, g)
  {}

  /** The group next in the row is the one the greedy choice takes. */
  lemma {:induction false} RowPick(groups: seq<Group>, picks: seq<nat>, k: nat, r: nat, g: nat)
    requires Uniform(groups) && Greedy(groups, picks) && k < |picks| && AtRow(groups, picks[..k], r, g)
    requires g < |groups| && r < |groups[g].candidates|
    ensures picks[k] == g
  {
    BestAt(groups, picks, k);
    var served, p := Served(groups, picks[..k]), picks[k];
    BestOpen(groups, served, p);
    hide Beats, Greedy, IsBest;
    if p != g {
      RowLoses(groups, served, p, g);
      BestBeats(groups, served, p, g);
    }
  }

  lemma {:induction false} RowAdvances(groups: seq<Group>, picks: seq<nat>, k: nat, r: nat, g: nat)
    requires k < |picks| && AtRow(groups, picks[..k], r, g) && g < |groups| && r < |groups[g].candidates|
    requires picks[k] == g
    ensures AtRow(groups, picks[..k + 1], r, g + 1)
  {
    var longer, next := picks[..k + 1], g + 1;
    forall h | 0 <= h < |groups| ensures CountOf(longer, h) == RowServed(groups, r, next, h) {
      CountStep(picks, k, h);
    }
  }

  lemma {:induction false} FromRow(groups: seq<Group>, picks: seq<nat>, k: nat, r: nat, g: nat, m: nat)
    requires Uniform(groups) && Greedy(groups, picks) && Exhausted(groups, picks) && Within(groups, m)
    requires k <= |picks| && g <= |groups| && r <= m && AtRow(groups, picks[..k], r, g)
    ensures picks[k..] == Columns(groups, r, g, m)
    decreases m - r, |groups| - g
  {
    hide Uniform, Greedy, AtRow;
    if r == m {
      RowsDone(groups, picks, k, m, g);
    } else if g == |groups| {
      NextRow(groups, picks[..k], r);
      FromRow(groups, picks, k, r + 1, 0, m);
    } else if r < |groups[g].candidates| {
      RowOpen(groups, picks, k, r, g);
      RowPick(groups, picks, k, r, g);
      RowAdvances(groups, picks, k, r, g);
      FromRow(groups, picks, k + 1, r, g + 1, m);
      assert picks[k..] == [g] + picks[k + 1..];
    } else {
      assert AtRow(groups, picks[..k], r, g + 1) by { SkipShort(groups, picks[..k], r, g); }
      FromRow(groups, picks, k, r, g + 1, m);
    }
  }

  lemma {:induction false} SkipShort(groups: seq<Group>, picks: seq<nat>, r: nat, g: nat)
    requires AtRow(groups, picks, r, g) && g < |groups| && r >= |groups[g].candidates|
    ensures AtRow(groups, picks, r, g + 1)
  {
    forall h | 0 <= h < |groups| ensures CountOf(picks, h) == RowServed(groups, r, g + 1, h) {
      assert CountOf(picks, h) == RowServed(groups, r, g, h);
    }
  }

  lemma {:induction false} NextRow(groups: seq<Group>, picks: seq<nat>, r: nat)
    requires AtRow(groups, picks, r, |groups|)
    ensures AtRow(groups, picks, r + 1, 0)
  {
    forall h | 0 <= h < |groups| ensures CountOf(picks, h) == RowServed(groups, r + 1, 0, h) {
      assert CountOf(picks, h) == RowServed(groups, r, |groups|, h);
    }
  }

  lemma {:induction false} RowOpen(groups: seq<Group>, picks: seq<nat>, k: nat, r: nat, g: nat)
    requires Greedy(groups, picks) && Exhausted(groups, picks) && k <= |picks| && AtRow(groups, picks[..k], r, g)
    requires g < |groups| && r < |groups[g].candidates|
    ensures k < |picks|
  {
    if k == |picks| {
      assert picks[..k] == picks;
      assert CountOf(picks, g) == RowServed(groups, r, g, g);
      FullyServed(groups, picks, g);
      assert false;
    }
  }

  lemma {:induction false} RowsDone(groups: seq<Group>, picks: seq<nat>, k: nat, m: nat, g: nat)
    requires Greedy(groups, picks) && Within(groups, m) && k <= |picks| && AtRow(groups, picks[..k], m, g)
    ensures k == |picks|
  {
    hide IsBest;
    if k < |picks| {
      BestAt(groups, picks, k);
      ServedAt(groups, picks[..k], picks[k]);
      assert CountOf(picks[..k], picks[k]) == RowServed(groups, m, g, picks[k]);
      BestOpen(groups, Served(groups, picks[..k]), picks[k]);
    }
  }

  /** For equal weights the greedy loop reads the groups column by column. */
  lemma {:induction false} EqualWeightsRoundRobin(groups: seq<Group>, picks: seq<nat>, m: nat)
    requires Uniform(groups) && Greedy(groups, picks) && Exhausted(groups, picks) && Within(groups, m)
    ensures picks == Columns(groups, 0, 0, m)
  {
    hide Uniform, Greedy, Exhausted, Within;
    assert picks[..0] == [];
    assert AtRow(groups, picks[..0], 0, 0);
    FromRow(groups, picks, 0, 0, 0, m);
    assert picks[0..] == picks;
  }

  // ------------------------------------------------------------------- determinism

  lemma {:induction false} OneBest(groups: seq<Group>, served: seq<nat>, a: nat, b: nat)
    requires |served| == |groups| && a < |groups| && b < |groups|
    requires IsBest(groups, served, a) && IsBest(groups, served, b)
    ensures a == b
  {
    hide Share;
    if a != b {
      BestBeats(groups, served, a, b);
      BestBeats(groups, served, b, a);
    }
  }

  lemma {:induction false} SamePrefix(groups: seq<Group>, p: seq<nat>, q: seq<nat>, k: nat)
    requires Greedy(groups, p) && Greedy(groups, q) && k <= |p| && k <= |q|
    ensures p[..k] == q[..k]
  {
    hide IsBest, Greedy;
    if k > 0 {
      SamePrefix(groups, p, q, k - 1);
      BestAt(groups, p, k - 1);
      BestAt(groups, q, k - 1);
      OneBest(groups, Served(groups, p[..k - 1]), p[k - 1], q[k - 1]);
      assert p[..k] == p[..k - 1] + [p[k - 1]] && q[..k] == q[..k - 1] + [q[k - 1]];
    }
  }

  lemma {:induction false} ExhaustedStops(groups: seq<Group>, p: seq<nat>, q: seq<nat>)
    requires Greedy(groups, p) && Greedy(groups, q) && Exhausted(groups, p) && |p| <= |q| && p == q[..|p|]
    ensures |p| == |q|
  {
    hide IsBest;
    if |p| < |q| {
      BestAt(groups, q, |p|);
      BestOpen(groups, Served(groups, p), q[|p|]);
    }
  }

  /** There is one greedy order, so it is what the loop computes. */
  lemma {:induction false} GreedyUnique(groups: seq<Group>, p: seq<nat>, q: seq<nat>)
    requires Greedy(groups, p) && Exhausted(groups, p) && Greedy(groups, q) && Exhausted(groups, q)
    ensures p == q
  {
    hide Greedy, Exhausted;
    var k := if |p| <= |q| then |p| else |q|;
    SamePrefix(groups, p, q, k);
    assert p[..|p|] == p && q[..|q|] == q;
    if |p| <= |q| {
      ExhaustedStops(groups, p, q);
    } else {
      ExhaustedStops(groups, q, p);
    }
  }
}
