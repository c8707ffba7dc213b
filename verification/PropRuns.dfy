/** What the proportional mapping of blend/propmap.c does with the sons of one node, round by round,
    and what follows for their intervals of candidates. */
module PropRuns {
  import opened ElimTree
  import opened Candidates
  import opened Shares

  const CROSS_TOLERANCE := 0.1

  // ----- Costs -----

  /** Costs of the sons of r. */
  function SonCosts(t: Tree, r: int): (s: seq<real>)
    requires t.Has(r) && SliceOk(t, r) && SonsInRange(t, r)
    ensures |s| == t.At(r).sonsnbr
    ensures forall i :: 0 <= i < |s| ==> s[i] == t.At(SonI(t, r, i)).subtree
  {
    seq(t.At(r).sonsnbr, i requires 0 <= i < t.At(r).sonsnbr => t.At(SonI(t, r, i)).subtree)
  }

  predicate SonsInRange(t: Tree, r: int)
    requires t.Has(r) && SliceOk(t, r)
  {
    forall i :: 0 <= i < t.At(r).sonsnbr ==> 0 <= SonI(t, r, i) < t.N()
  }

  lemma SonsAreInRange(t: Tree, r: int)
    requires ValidTree(t) && t.Has(r)
    ensures SlicesOk(t, r) && SonsInRange(t, r)
  {
    assert SlicesOk(t, r);
    forall i | 0 <= i < t.At(r).sonsnbr ensures 0 <= SonI(t, r, i) < t.N() { assert EntryOk(t, r, i); }
  }

  /** A subtree costs its node and the subtrees of its sons, and every subtree costs something. */
  ghost predicate CostOk(t: Tree, r: int)
    requires ValidTree(t) && t.Has(r)
  {
    SonsAreInRange(t, r);
    && 0.0 <= t.At(r).total && (r >= 0 ==> 0.0 < t.At(r).subtree)
    && t.At(r).subtree == t.At(r).total + Sum(SonCosts(t, r))
  }

  ghost predicate ValidCosts(t: Tree) {
    ValidTree(t) && forall r :: t.Has(r) ==> CostOk(t, r)
  }

  /** No element of rem has a larger cost. */
  ghost predicate Largest(costs: seq<real>, rem: set<int>, x: real) {
    forall j :: j in rem && 0 <= j < |costs| ==> CostAtMost(costs, j, x)
  }
  predicate CostAtMost(costs: seq<real>, j: int, x: real) requires 0 <= j < |costs| { costs[j] <= x }

  // ----- The second stage -----

  /** The work left to p, plus x, is at least the work left to any other candidate. */
  ghost predicate BalancedAt(c: seq<real>, candnbr: int, p: int, x: real) {
    0 <= p < candnbr <= |c| && forall q :: 0 <= q < candnbr ==> c[q] <= c[p] + x
  }

  /** Son i was put on one candidate, and its own cost balances the work left there. */
  ghost predicate PlacedOk(t: Tree, cand: seq<Cand>, c: seq<real>, candnbr: int, r: int, f: int, place: map<int, int>,
                           i: int)
    requires ValidCosts(t) && t.Has(r) && |cand| == t.N() + 1 && i in place
  {
    SonsAreInRange(t, r);
    && 0 <= i < t.At(r).sonsnbr && Interval(cand, SonI(t, r, i), f + place[i], f + place[i])
    && BalancedAt(c, candnbr, place[i], SonCosts(t, r)[i])
  }

  ghost predicate Placed(t: Tree, cand: seq<Cand>, c: seq<real>, candnbr: int, r: int, f: int, place: map<int, int>)
    requires ValidCosts(t) && t.Has(r)
  {
    |cand| == t.N() + 1 && forall i :: i in place ==> PlacedOk(t, cand, c, candnbr, r, f, place, i)
  }

  /** Work that the second stage gave to candidate q, from the first n sons. */
  function LoadOn(costs: seq<real>, place: map<int, int>, q: int, n: int): real
    requires 0 <= n <= |costs|
    decreases n
  {
    if n == 0 then 0.0
    else LoadOn(costs, place, q, n - 1) + if n - 1 in place && place[n - 1] == q then costs[n - 1] else 0.0
  }

  lemma {:induction false} LoadMore(costs: seq<real>, place: map<int, int>, q: int, n: int, i: int, p: int)
    requires 0 <= n <= |costs| && 0 <= i < |costs| && i !in place
    ensures LoadOn(costs, place[i := p], q, n) == LoadOn(costs, place, q, n) + if i < n && p == q then costs[i] else 0.0
    decreases n
  {
    if n > 0 { LoadMore(costs, place, q, n - 1, i, p); }
  }

  lemma {:induction false} LoadNone(costs: seq<real>, q: int, n: int)
    requires 0 <= n <= |costs|
    ensures LoadOn(costs, map[], q, n) == 0.0
    decreases n
  {
    if n > 0 { LoadNone(costs, q, n - 1); }
  }

  /** What is left once the sons of the second stage have been charged to their candidates. */
  ghost predicate Charges(costs: seq<real>, place: map<int, int>, base: seq<real>, rest: seq<real>) {
    |rest| == |base| && forall q :: 0 <= q < |rest| ==> ChargesAt(costs, place, base, rest, q)
  }
  predicate ChargesAt(costs: seq<real>, place: map<int, int>, base: seq<real>, rest: seq<real>, q: int)
    requires 0 <= q < |rest| == |base|
  {
    rest[q] == base[q] - LoadOn(costs, place, q, |costs|)
  }

  lemma ChargesNone(costs: seq<real>, base: seq<real>)
    ensures Charges(costs, map[], base, base)
  {
    forall q | 0 <= q < |base| ensures ChargesAt(costs, map[], base, base, q) { LoadNone(costs, q, |costs|); }
  }

  lemma ChargesNext(costs: seq<real>, place: map<int, int>, base: seq<real>, rest: seq<real>, i: int, p: int)
    requires Charges(costs, place, base, rest) && 0 <= i < |costs| && i !in place && 0 <= p < |rest|
    ensures Charges(costs, place[i := p], base, Charged(rest, p, costs[i]))
  {
    var after, more := Charged(rest, p, costs[i]), place[i := p];
    forall q | 0 <= q < |after| ensures ChargesAt(costs, more, base, after, q) {
      assert ChargesAt(costs, place, base, rest, q);
      LoadMore(costs, place, q, |costs|, i, p);
    }
  }

  // ----- The first stage -----

  /** One round of the first stage: the son, the first candidate in use, the candidates it gets, and
      the work left before and after. */
  datatype Round = Round(son: int, use: int, first: int, last: int, before: seq<real>, after: seq<real>)

  /** What the first stage starts from. */
  datatype Stage = Stage(costs: seq<real>, start: seq<real>, fcand0: int, candnbr: int, nocross: bool, epsilon: real)

  /** The son fits on the first candidate in use. */
  predicate IsWhole(g: Stage, x: Round)
    requires 0 <= x.son < |g.costs| && 0 <= x.use < |x.before|
  {
    g.costs[x.son] <= x.before[x.use] || (g.nocross && g.costs[x.son] <= x.before[x.use] + g.epsilon)
  }

  /** It goes there, or on as many candidates as its cost needs, after the first one if that has
      almost no work left. */
  ghost predicate RoundOk(g: Stage, x: Round) {
    && 0 <= x.son < |g.costs| && 0 <= x.use < g.candnbr <= |x.before| == |g.start|
    && if IsWhole(g, x) then x.first == x.last == x.use && x.after == Charged(x.before, x.use, g.costs[x.son])
       else
         && x.first == (if x.use < g.candnbr - 1 && x.before[x.use] <= g.epsilon then x.use + 1 else x.use)
         && StopsAt(x.before, x.first, g.candnbr, x.last, g.costs[x.son], g.epsilon, g.nocross)
         && x.after == Remaining(x.before, x.first, x.last, LeftOver(x.before, x.first, x.last, g.costs[x.son]))
  }

  /** What the subtree of the son gets from each of its candidates. */
  ghost function ShareOf(g: Stage, x: Round): seq<real>
    requires RoundOk(g, x)
  {
    SubShares(x.before, x.first, x.last, LeftOver(x.before, x.first, x.last, g.costs[x.son]))
  }

  /** The first stage goes on after the round, and with which candidate. */
  ghost predicate MayFollow(g: Stage, x: Round) {
    RoundOk(g, x) && !IsWhole(g, x) && (g.nocross ==> x.last < g.candnbr - 1)
  }
  ghost function NextUse(g: Stage, x: Round): int
    requires RoundOk(g, x)
  {
    if x.last < g.candnbr - 1 && (g.nocross || x.after[x.last] < g.epsilon) then x.last + 1 else x.last
  }

  ghost function SonsOf(rounds: seq<Round>): (s: set<int>) { set k | 0 <= k < |rounds| :: rounds[k].son }

  /** The work left after the rounds. */
  function After(g: Stage, rounds: seq<Round>): seq<real> {
    if rounds == [] then g.start else rounds[|rounds| - 1].after
  }

  /** Round k takes a son of largest cost among those left, from where the round before ended. */
  ghost predicate RoundAt(g: Stage, rounds: seq<Round>, k: int)
    requires 0 <= k < |rounds|
  {
    var x := rounds[k];
    && RoundOk(g, x) && x.son in Left(g, rounds[..k]) && Largest(g.costs, Left(g, rounds[..k]), g.costs[x.son])
    && x.before == After(g, rounds[..k])
    && if k == 0 then x.use == g.fcand0
       else MayFollow(g, rounds[k - 1]) && x.use == NextUse(g, rounds[k - 1])
  }

  /** The sons that no round took. */
  ghost function Left(g: Stage, rounds: seq<Round>): set<int> { Indices(|g.costs|) - SonsOf(rounds) }

  ghost predicate RoundsOk(g: Stage, rounds: seq<Round>) { forall k :: 0 <= k < |rounds| ==> RoundAt(g, rounds, k) }

  /** The first stage does not stop before it has to. */
  ghost predicate Ended(g: Stage, rounds: seq<Round>) {
    Left(g, rounds) == {} || (rounds != [] && !MayFollow(g, rounds[|rounds| - 1]))
  }

  lemma MoreSons(rounds: seq<Round>, x: Round)
    ensures SonsOf(rounds + [x]) == SonsOf(rounds) + {x.son}
  {
    var more := rounds + [x];
    forall i | i in SonsOf(rounds) ensures i in SonsOf(more) {
      var k :| 0 <= k < |rounds| && rounds[k].son == i;
      assert more[k].son == i;
    }
    assert more[|rounds|].son == x.son;
  }

  /** Round x can follow the rounds. */
  ghost predicate Extends(g: Stage, rounds: seq<Round>, x: Round) {
    && RoundOk(g, x) && x.son in Left(g, rounds) && x.before == After(g, rounds)
    && Largest(g.costs, Left(g, rounds), g.costs[x.son])
    && if rounds == [] then x.use == g.fcand0
       else MayFollow(g, rounds[|rounds| - 1]) && x.use == NextUse(g, rounds[|rounds| - 1])
  }

  lemma RoundNew(g: Stage, rounds: seq<Round>, x: Round, k: int)
    requires Extends(g, rounds, x) && k == |rounds|
    ensures RoundAt(g, rounds + [x], k)
  {
    var more := rounds + [x];
    assert more[..k] == rounds && more[k] == x;
    assert k > 0 ==> more[k - 1] == rounds[k - 1];
  }

  lemma RoundKept(g: Stage, rounds: seq<Round>, x: Round, k: int)
    requires 0 <= k < |rounds| && RoundAt(g, rounds, k)
    ensures RoundAt(g, rounds + [x], k)
  {
    var more := rounds + [x];
    assert more[..k] == rounds[..k] && more[k] == rounds[k];
    assert k > 0 ==> more[k - 1] == rounds[k - 1];
  }

  lemma RoundsMore(g: Stage, rounds: seq<Round>, x: Round)
    requires RoundsOk(g, rounds) && Extends(g, rounds, x)
    ensures RoundsOk(g, rounds + [x]) && Left(g, rounds + [x]) == Left(g, rounds) - {x.son}
    ensures After(g, rounds + [x]) == x.after
  {
    var more := rounds + [x];
    MoreSons(rounds, x);
    forall k | 0 <= k < |more| ensures RoundAt(g, more, k) {
      if k < |rounds| { RoundKept(g, rounds, x, k); } else { RoundNew(g, rounds, x, k); }
    }
  }

  // ----- What follows for the intervals -----

  /** A son whose cost is at most the work left to the first candidate in use gets one candidate. */
  lemma SmallIsSingle(g: Stage, rounds: seq<Round>, k: int)
    requires RoundsOk(g, rounds) && 0 <= k < |rounds|
    ensures RoundOk(g, rounds[k])
    ensures g.costs[rounds[k].son] <= rounds[k].before[rounds[k].use] ==>
              rounds[k].first == rounds[k].last == rounds[k].use
  {
    assert RoundAt(g, rounds, k);
  }

  /** A son of several candidates needs them all: the work left to all but the last is less than
      its cost. */
  lemma SeveralAreNeeded(g: Stage, rounds: seq<Round>, k: int)
    requires RoundsOk(g, rounds) && 0 <= k < |rounds| && g.epsilon >= 0.0 && rounds[k].first < rounds[k].last
    ensures RoundOk(g, rounds[k]) && 0 <= rounds[k].first < rounds[k].last < |rounds[k].before|
    ensures Sum(rounds[k].before[rounds[k].first..rounds[k].last]) < g.costs[rounds[k].son]
  {
    assert RoundAt(g, rounds, k);
    var x := rounds[k];
    NeedsAll(x.before, x.first, g.candnbr, x.last, g.costs[x.son], g.epsilon, g.nocross, x.last - 1);
  }

  lemma NeedsAll(s: seq<real>, first: int, candnbr: int, last: int, cost: real, epsilon: real, nocross: bool, q: int)
    requires StopsAt(s, first, candnbr, last, cost, epsilon, nocross) && first <= q == last - 1 && epsilon >= 0.0
    ensures Sum(s[first..last]) < cost
  {
    assert GoesOn(s, first, q, cost, epsilon, nocross);
    assert Threshold(nocross, q - first + 1, epsilon) >= 0.0;
    assert s[first..q + 1] == s[first..last];
  }

  lemma RoundBounds(g: Stage, x: Round)
    requires RoundOk(g, x)
    ensures 0 <= x.use <= x.first <= x.last < g.candnbr && |x.after| == |x.before|
    ensures x.last <= NextUse(g, x) && (g.nocross && MayFollow(g, x) ==> x.last < NextUse(g, x))
  {
  }

  /** A son that gets the candidates of its round and no others has their work: its share is its cost. */
  lemma ShareIsCost(g: Stage, x: Round)
    requires RoundOk(g, x) && !IsWhole(g, x)
    ensures Sum(ShareOf(g, x)) == g.costs[x.son] && Sum(x.after) == Sum(x.before) - g.costs[x.son]
  {
    SubSharesSum(x.before, x.first, x.last, g.costs[x.son]);
    RemainingSum(x.before, x.first, x.last, g.costs[x.son]);
  }

  lemma RoundGoesUp(g: Stage, rounds: seq<Round>, k: int, m: int)
    requires RoundsOk(g, rounds) && 0 <= k < m == k + 1 < |rounds|
    ensures rounds[k].first <= rounds[k].last <= rounds[m].first <= rounds[m].last
    ensures g.nocross ==> rounds[k].last < rounds[m].first
  {
    assert RoundAt(g, rounds, k) && RoundAt(g, rounds, m);
    RoundBounds(g, rounds[k]);
    RoundBounds(g, rounds[m]);
  }

  /** The candidates of a round do not come before those of an earlier one. */
  lemma {:induction false} RoundsGoUp(g: Stage, rounds: seq<Round>, k: int, m: int)
    requires RoundsOk(g, rounds) && 0 <= k < m < |rounds|
    ensures rounds[k].first <= rounds[k].last <= rounds[m].first <= rounds[m].last
    ensures g.nocross ==> rounds[k].last < rounds[m].first
    decreases m
  {
    RoundGoesUp(g, rounds, m - 1, m);
    if k < m - 1 { RoundsGoUp(g, rounds, k, m - 1); }
  }

  // ----- One node -----

  /** What the mapping of a node with sons on several candidates does. */
  datatype Plan = Plan(fcand0: int, candnbr: int, epsilon: real, rounds: seq<Round>, place: map<int, int>,
                       rest: seq<real>)

  /** The work left to the candidates of r without the cost of r itself. */
  function WithoutNode(t: Tree, r: int, entry: seq<real>): (s: seq<real>)
    requires t.Has(r) && entry != []
    ensures |s| == |entry|
  {
    Shifted(entry, -(t.At(r).total / |entry| as real))
  }

  ghost function StageOf(t: Tree, r: int, nocross: bool, entry: seq<real>, p: Plan): Stage
    requires ValidCosts(t) && t.Has(r) && entry != []
  {
    SonsAreInRange(t, r);
    Stage(SonCosts(t, r), WithoutNode(t, r, entry), p.fcand0, p.candnbr, nocross, p.epsilon)
  }

  /** The first and the last candidate are not in use when they have no work left. */
  ghost predicate Trims(start: seq<real>, fcand0: int, candnbr: int, epsilon: real)
    requires start != []
  {
    && fcand0 == (if start[0] <= 0.0 then 1 else 0)
    && candnbr == (if start[|start| - 1] <= 0.0 then |start| - 1 else |start|)
    && 0 <= fcand0 < candnbr <= |start| && epsilon > 0.0
    && epsilon == CROSS_TOLERANCE * Sum(start[fcand0..candnbr]) / candnbr as real
  }

  /** The sons of the first stage have the candidates of their rounds. */
  ghost predicate RoundMapped(t: Tree, cand: seq<Cand>, r: int, f: int, x: Round)
    requires ValidCosts(t) && t.Has(r) && |cand| == t.N() + 1
  {
    SonsAreInRange(t, r);
    0 <= x.son < t.At(r).sonsnbr && Interval(cand, SonI(t, r, x.son), f + x.first, f + x.last)
  }

  /** Entered with that work for its candidates, r shares it among its sons. */
  ghost predicate NodeOk(t: Tree, cand: seq<Cand>, nocross: bool, r: int, entry: seq<real>, p: Plan)
    requires ValidCosts(t) && t.Has(r) && |cand| == t.N() + 1
  {
    && |entry| == cand[r + 1].lcandnum - cand[r + 1].fcandnum + 1 >= 2 && Sum(entry) == t.At(r).subtree
    && var g, f := StageOf(t, r, nocross, entry, p), cand[r + 1].fcandnum;
       && Trims(g.start, p.fcand0, p.candnbr, p.epsilon) && RoundsOk(g, p.rounds) && Ended(g, p.rounds)
       && (forall k :: 0 <= k < |p.rounds| ==> RoundMapped(t, cand, r, f, p.rounds[k]))
       && p.place.Keys == Left(g, p.rounds) && Placed(t, cand, p.rest, p.candnbr, r, f, p.place)
       && Charges(g.costs, p.place, After(g, p.rounds), p.rest) && Sum(p.rest) == 0.0
  }

  /** The whole subtree of r: each son of the first stage goes on with its share. */
  ghost predicate Proportional(t: Tree, cand: seq<Cand>, nocross: bool, r: int, entry: seq<real>)
    requires ValidCosts(t) && t.Has(r) && |cand| == t.N() + 1
    decreases Below(t, r)
  {
    t.At(r).sonsnbr == 0 || cand[r + 1].fcandnum == cand[r + 1].lcandnum
    || exists p :: NodeOk(t, cand, nocross, r, entry, p)
                   && forall k :: 0 <= k < |p.rounds| ==>
                        (RoundRises(t, cand, nocross, r, entry, p, k);
                         Proportional(t, cand, nocross, SonI(t, r, p.rounds[k].son),
                                      ShareOf(StageOf(t, r, nocross, entry, p), p.rounds[k])))
  }

  lemma RoundRises(t: Tree, cand: seq<Cand>, nocross: bool, r: int, entry: seq<real>, p: Plan, k: int)
    requires ValidCosts(t) && t.Has(r) && |cand| == t.N() + 1 && NodeOk(t, cand, nocross, r, entry, p)
    requires 0 <= k < |p.rounds|
    ensures SlicesOk(t, r) && SonsInRange(t, r) && 0 <= p.rounds[k].son < t.At(r).sonsnbr
    ensures t.Has(SonI(t, r, p.rounds[k].son)) && Below(t, SonI(t, r, p.rounds[k].son)) < Below(t, r)
    ensures RoundOk(StageOf(t, r, nocross, entry, p), p.rounds[k])
  {
    SonsAreInRange(t, r);
    assert RoundAt(StageOf(t, r, nocross, entry, p), p.rounds, k);
    var i := p.rounds[k].son;
    assert EntryOk(t, r, i) && t.Rises(SonI(t, r, i));
  }

  // ----- Intervals of the sons of one node -----

  /** One candidate. */
  predicate Single(cand: seq<Cand>, d: int)
    requires -1 <= d < |cand| - 1
  {
    cand[d + 1].fcandnum == cand[d + 1].lcandnum
  }

  /** The intervals of d and e have at most one candidate in common, or none. */
  predicate ShareOne(cand: seq<Cand>, d: int, e: int)
    requires -1 <= d < |cand| - 1 && -1 <= e < |cand| - 1
  {
    cand[d + 1].lcandnum <= cand[e + 1].fcandnum || cand[e + 1].lcandnum <= cand[d + 1].fcandnum
    || Single(cand, d) || Single(cand, e)
  }
  predicate ShareNone(cand: seq<Cand>, d: int, e: int)
    requires -1 <= d < |cand| - 1 && -1 <= e < |cand| - 1
  {
    cand[d + 1].lcandnum < cand[e + 1].fcandnum || cand[e + 1].lcandnum < cand[d + 1].fcandnum
  }

  /** Two sons of r have at most one candidate in common, and with nocross none, but for sons of
      one candidate that cost no more than the others. */
  ghost predicate SonsSeparate(t: Tree, cand: seq<Cand>, nocross: bool, r: int)
    requires ValidCosts(t) && t.Has(r) && |cand| == t.N() + 1
  {
    exists small: set<int> :: SeparateBut(t, cand, nocross, r, small)
  }
  ghost predicate SeparateBut(t: Tree, cand: seq<Cand>, nocross: bool, r: int, small: set<int>)
    requires ValidCosts(t) && t.Has(r) && |cand| == t.N() + 1
  {
    && (forall i :: i in small ==> SmallSon(t, cand, r, small, i))
    && forall i, j :: 0 <= i < j < t.At(r).sonsnbr ==> PairSeparate(t, cand, nocross, r, small, i, j)
  }
  ghost predicate SmallSon(t: Tree, cand: seq<Cand>, r: int, small: set<int>, i: int)
    requires ValidCosts(t) && t.Has(r) && |cand| == t.N() + 1
  {
    SonsAreInRange(t, r);
    && 0 <= i < t.At(r).sonsnbr && Single(cand, SonI(t, r, i))
    && forall j :: 0 <= j < t.At(r).sonsnbr && j !in small ==> CostAtMost(SonCosts(t, r), i, SonCosts(t, r)[j])
  }
  ghost predicate PairSeparate(t: Tree, cand: seq<Cand>, nocross: bool, r: int, small: set<int>, i: int, j: int)
    requires ValidCosts(t) && t.Has(r) && |cand| == t.N() + 1
    requires 0 <= i < t.At(r).sonsnbr && 0 <= j < t.At(r).sonsnbr
  {
    SonsAreInRange(t, r);
    && ShareOne(cand, SonI(t, r, i), SonI(t, r, j))
    && (nocross && i !in small && j !in small ==> ShareNone(cand, SonI(t, r, i), SonI(t, r, j)))
  }

  /** The round of a son that is not in the second stage. */
  lemma RoundFor(t: Tree, cand: seq<Cand>, nocross: bool, r: int, entry: seq<real>, p: Plan, i: int) returns (k: int)
    requires ValidCosts(t) && t.Has(r) && |cand| == t.N() + 1 && NodeOk(t, cand, nocross, r, entry, p)
    requires 0 <= i < t.At(r).sonsnbr && i !in p.place
    ensures 0 <= k < |p.rounds| && p.rounds[k].son == i && RoundMapped(t, cand, r, cand[r + 1].fcandnum, p.rounds[k])
  {
    var g := StageOf(t, r, nocross, entry, p);
    assert i in Indices(|g.costs|) && i !in p.place.Keys;
    assert i in SonsOf(p.rounds);
    k :| 0 <= k < |p.rounds| && p.rounds[k].son == i;
  }

  lemma PlaceIsSmall(t: Tree, cand: seq<Cand>, nocross: bool, r: int, entry: seq<real>, p: Plan, i: int)
    requires ValidCosts(t) && t.Has(r) && |cand| == t.N() + 1 && NodeOk(t, cand, nocross, r, entry, p)
    requires i in p.place
    ensures SmallSon(t, cand, r, p.place.Keys, i)
  {
    SonsAreInRange(t, r);
    var g := StageOf(t, r, nocross, entry, p);
    assert PlacedOk(t, cand, p.rest, p.candnbr, r, cand[r + 1].fcandnum, p.place, i);
    forall j | 0 <= j < t.At(r).sonsnbr && j !in p.place.Keys
      ensures CostAtMost(SonCosts(t, r), i, SonCosts(t, r)[j]) {
      var k := RoundFor(t, cand, nocross, r, entry, p, j);
      assert RoundAt(g, p.rounds, k);
      StillLeft(g, p.rounds, k, i);
      assert CostAtMost(g.costs, i, g.costs[j]);
    }
  }

  /** A son that no round took was left before each of them. */
  lemma StillLeft(g: Stage, rounds: seq<Round>, k: int, i: int)
    requires 0 <= k <= |rounds| && i in Left(g, rounds)
    ensures i in Left(g, rounds[..k])
  {
  }

  lemma RoundPair(t: Tree, cand: seq<Cand>, nocross: bool, r: int, entry: seq<real>, p: Plan, i: int, j: int)
    requires ValidCosts(t) && t.Has(r) && |cand| == t.N() + 1 && NodeOk(t, cand, nocross, r, entry, p)
    requires 0 <= i < t.At(r).sonsnbr && 0 <= j < t.At(r).sonsnbr && i != j && i !in p.place && j !in p.place
    ensures PairSeparate(t, cand, nocross, r, p.place.Keys, i, j)
  {
    SonsAreInRange(t, r);
    var g := StageOf(t, r, nocross, entry, p);
    var k := RoundFor(t, cand, nocross, r, entry, p, i);
    var m := RoundFor(t, cand, nocross, r, entry, p, j);
    if k < m { RoundsGoUp(g, p.rounds, k, m); } else { RoundsGoUp(g, p.rounds, m, k); }
  }

  lemma NodeSeparates(t: Tree, cand: seq<Cand>, nocross: bool, r: int, entry: seq<real>, p: Plan)
    requires ValidCosts(t) && t.Has(r) && |cand| == t.N() + 1 && NodeOk(t, cand, nocross, r, entry, p)
    ensures SonsSeparate(t, cand, nocross, r)
  {
    SonsAreInRange(t, r);
    var small := p.place.Keys;
    forall i | i in small ensures SmallSon(t, cand, r, small, i) { PlaceIsSmall(t, cand, nocross, r, entry, p, i); }
    forall i, j | 0 <= i < j < t.At(r).sonsnbr ensures PairSeparate(t, cand, nocross, r, small, i, j) {
      if i in small {
        assert SmallSon(t, cand, r, small, i);
      } else if j in small {
        assert SmallSon(t, cand, r, small, j);
      } else {
        RoundPair(t, cand, nocross, r, entry, p, i, j);
      }
    }
    assert SeparateBut(t, cand, nocross, r, small);
  }

  predicate AllAtMost(costs: seq<real>, x: real) { forall j :: 0 <= j < |costs| ==> CostAtMost(costs, j, x) }

  /** Sons that all fit on the first candidate in use get one candidate each. */
  lemma SmallSonsAreSingle(t: Tree, cand: seq<Cand>, nocross: bool, r: int, entry: seq<real>, p: Plan, i: int)
    requires ValidCosts(t) && t.Has(r) && |cand| == t.N() + 1 && NodeOk(t, cand, nocross, r, entry, p)
    requires SlicesOk(t, r) && SonsInRange(t, r) && 0 <= i < t.At(r).sonsnbr
    requires AllAtMost(SonCosts(t, r), WithoutNode(t, r, entry)[p.fcand0])
    ensures Single(cand, SonI(t, r, i))
  {
    var g := StageOf(t, r, nocross, entry, p);
    if i in p.place {
      assert PlacedOk(t, cand, p.rest, p.candnbr, r, cand[r + 1].fcandnum, p.place, i);
    } else {
      var k := RoundFor(t, cand, nocross, r, entry, p, i);
      var zero := 0;
      assert RoundAt(g, p.rounds, zero);
      assert CostAtMost(g.costs, p.rounds[zero].son, g.start[p.fcand0]);
      assert p.rounds[..zero] == [];
      assert IsWhole(g, p.rounds[zero]);
      if k > 0 { NoneAfterWhole(g, p.rounds, zero, k); }
    }
  }

  /** No round follows one that took a whole son. */
  lemma NoneAfterWhole(g: Stage, rounds: seq<Round>, k: int, m: int)
    requires RoundsOk(g, rounds) && 0 <= k < m < |rounds|
    ensures MayFollow(g, rounds[k])
  {
    assert RoundAt(g, rounds, k + 1);
  }

  // ----- All the nodes -----

  /** Nodes that are mapped one by one, with the work they are entered with. */
  ghost predicate Entered(t: Tree, cand: seq<Cand>, nocross: bool, d: int, entry: seq<real>)
    requires ValidCosts(t) && t.Has(d) && |cand| == t.N() + 1
  {
    t.At(d).sonsnbr == 0 || Single(cand, d) || exists p :: NodeOk(t, cand, nocross, d, entry, p)
  }

  /** Every node of the tree whose father goes through the two stages does so too. */
  lemma {:induction false} EveryNode(t: Tree, cand: seq<Cand>, nocross: bool, l: int, whole: seq<real>, d: int)
    returns (entry: seq<real>)
    requires ValidCosts(t) && t.Has(d) && Nested(t, cand, l) && Proportional(t, cand, nocross, -1, whole)
    ensures Proportional(t, cand, nocross, d, entry) && Entered(t, cand, nocross, d, entry)
    decreases Above(t, d)
  {
    if d == -1 {
      entry := whole;
    } else {
      assert t.Rises(d) && Listed(t, d);
      var f := t.Father(d);
      var up := EveryNode(t, cand, nocross, l, whole, f);
      SonsAreInRange(t, f);
      var i :| 0 <= i < t.At(f).sonsnbr && SonI(t, f, i) == d;
      entry := SonEntered(t, cand, nocross, f, up, i, d);
    }
  }

  lemma PlaceIsSingle(t: Tree, cand: seq<Cand>, nocross: bool, r: int, entry: seq<real>, p: Plan, i: int)
    requires ValidCosts(t) && t.Has(r) && |cand| == t.N() + 1 && NodeOk(t, cand, nocross, r, entry, p)
    ensures SlicesOk(t, r) && (0 <= i < t.At(r).sonsnbr && i in p.place ==>
                                 -1 <= SonI(t, r, i) < t.N() && Single(cand, SonI(t, r, i)))
  {
    SonsAreInRange(t, r);
    if 0 <= i < t.At(r).sonsnbr && i in p.place {
      assert PlacedOk(t, cand, p.rest, p.candnbr, r, cand[r + 1].fcandnum, p.place, i);
    }
  }

  lemma SonEntered(t: Tree, cand: seq<Cand>, nocross: bool, f: int, up: seq<real>, i: int, d: int)
    returns (entry: seq<real>)
    requires ValidCosts(t) && t.Has(f) && 0 <= d < t.N() && |cand| == t.N() + 1 && Proportional(t, cand, nocross, f, up)
    requires SlicesOk(t, f) && 0 <= i < t.At(f).sonsnbr && SonI(t, f, i) == d && t.Rises(d) && t.Father(d) == f
    requires AllRise(t) && InFather(t, cand, d)
    ensures Proportional(t, cand, nocross, d, entry) && Entered(t, cand, nocross, d, entry)
  {
    entry := [];
    if !Single(cand, d) {
      var p :| NodeOk(t, cand, nocross, f, up, p)
               && forall k :: 0 <= k < |p.rounds| ==>
                    (RoundRises(t, cand, nocross, f, up, p, k);
                     Proportional(t, cand, nocross, SonI(t, f, p.rounds[k].son),
                                  ShareOf(StageOf(t, f, nocross, up, p), p.rounds[k])));
      PlaceIsSingle(t, cand, nocross, f, up, p, i);
      var k := RoundFor(t, cand, nocross, f, up, p, i);
      RoundRises(t, cand, nocross, f, up, p, k);
      entry := ShareOf(StageOf(t, f, nocross, up, p), p.rounds[k]);
      assert Proportional(t, cand, nocross, d, entry);
    }
  }

  /** The sons of a node on one candidate are there too. */
  lemma OneSeparates(t: Tree, cand: seq<Cand>, nocross: bool, l: int, d: int)
    requires ValidCosts(t) && t.Has(d) && Nested(t, cand, l) && (Single(cand, d) || t.At(d).sonsnbr == 0)
    ensures SonsSeparate(t, cand, nocross, d)
  {
    SonsAreInRange(t, d);
    var small := Indices(t.At(d).sonsnbr);
    forall i | i in small ensures SmallSon(t, cand, d, small, i) {
      assert EntryOk(t, d, i) && InFather(t, cand, SonI(t, d, i)) && Inside(cand, SonI(t, d, i), 0, l);
    }
    forall i, j | 0 <= i < j < t.At(d).sonsnbr ensures PairSeparate(t, cand, nocross, d, small, i, j) {
      assert SmallSon(t, cand, d, small, i);
    }
    assert SeparateBut(t, cand, nocross, d, small);
  }

  /** The intervals of the sons of every node. */
  lemma AllSeparate(t: Tree, cand: seq<Cand>, nocross: bool, l: int, whole: seq<real>, d: int)
    requires ValidCosts(t) && t.Has(d) && Nested(t, cand, l) && Proportional(t, cand, nocross, -1, whole)
    ensures SonsSeparate(t, cand, nocross, d)
  {
    var entry := EveryNode(t, cand, nocross, l, whole, d);
    if t.At(d).sonsnbr == 0 || Single(cand, d) {
      OneSeparates(t, cand, nocross, l, d);
    } else {
      var p :| NodeOk(t, cand, nocross, d, entry, p);
      NodeSeparates(t, cand, nocross, d, entry, p);
    }
  }

  /** If no son of the root costs more than an equal part of their costs, each son gets one candidate. */
  ghost predicate FairSonsAreSingle(t: Tree, cand: seq<Cand>, candnbr: int)
    requires ValidCosts(t) && |cand| == t.N() + 1 && candnbr >= 1
  {
    SonsAreInRange(t, -1);
    AllAtMost(SonCosts(t, -1), (t.At(-1).subtree - t.At(-1).total) / candnbr as real) ==>
      forall i :: 0 <= i < t.At(-1).sonsnbr ==> Single(cand, SonI(t, -1, i))
  }

  lemma EqualPart(a: real, b: real, n: int)
    requires n >= 1
    ensures a / n as real + -(b / n as real) == (a - b) / n as real
    ensures a - b > 0.0 ==> (a - b) / n as real > 0.0
  {
    DivTimes(n, a);
    DivTimes(n, b);
    DivTimes(n, a - b);
    assert n as real * (a / n as real + -(b / n as real)) == a - b;
  }

  lemma EqualStart(t: Tree, n: nat, k: int)
    requires ValidCosts(t) && n >= 1 && 0 <= k < n
    ensures WithoutNode(t, -1, Const(n, t.At(-1).subtree / n as real))[k]
            == (t.At(-1).subtree - t.At(-1).total) / n as real
  {
    EqualPart(t.At(-1).subtree, t.At(-1).total, n);
  }

  lemma FairSon(t: Tree, cand: seq<Cand>, nocross: bool, n: nat, entry: seq<real>, i: int)
    requires ValidCosts(t) && |cand| == t.N() + 1 && n >= 1 && Nested(t, cand, n - 1) && Interval(cand, -1, 0, n - 1)
    requires entry == Const(n, t.At(-1).subtree / n as real) && Proportional(t, cand, nocross, -1, entry)
    requires SlicesOk(t, -1) && SonsInRange(t, -1) && 0 <= i < t.At(-1).sonsnbr
    requires AllAtMost(SonCosts(t, -1), (t.At(-1).subtree - t.At(-1).total) / n as real)
    ensures Single(cand, SonI(t, -1, i))
  {
    if n == 1 {
      assert Inside(cand, SonI(t, -1, i), 0, n - 1);
    } else {
      var p :| NodeOk(t, cand, nocross, -1, entry, p);
      EqualStart(t, n, p.fcand0);
      SmallSonsAreSingle(t, cand, nocross, -1, entry, p, i);
    }
  }

  lemma RootIsFair(t: Tree, cand: seq<Cand>, nocross: bool, n: nat)
    requires ValidCosts(t) && |cand| == t.N() + 1 && n >= 1 && Nested(t, cand, n - 1) && Interval(cand, -1, 0, n - 1)
    requires Proportional(t, cand, nocross, -1, Const(n, t.At(-1).subtree / n as real))
    ensures FairSonsAreSingle(t, cand, n)
  {
    SonsAreInRange(t, -1);
    if AllAtMost(SonCosts(t, -1), (t.At(-1).subtree - t.At(-1).total) / n as real) {
      forall i | 0 <= i < t.At(-1).sonsnbr ensures Single(cand, SonI(t, -1, i)) {
        FairSon(t, cand, nocross, n, Const(n, t.At(-1).subtree / n as real), i);
      }
    }
  }

  // ----- Changes elsewhere in the tree -----

  lemma NodeKept(t: Tree, c: seq<Cand>, e: seq<Cand>, nocross: bool, r: int, entry: seq<real>, p: Plan)
    requires ValidCosts(t) && t.Has(r) && |c| == |e| == t.N() + 1 && NodeOk(t, c, nocross, r, entry, p)
    requires forall d :: d in SubSet(t, r) && t.Has(d) ==> SameCand(c, e, d)
    ensures NodeOk(t, e, nocross, r, entry, p)
  {
    SonsAreInRange(t, r);
    var f := c[r + 1].fcandnum;
    assert r in SubSet(t, r) && SameCand(c, e, r);
    forall i | 0 <= i < t.At(r).sonsnbr ensures SameCand(c, e, SonI(t, r, i)) { SonInSubSet(t, r, i); }
    forall k | 0 <= k < |p.rounds| ensures RoundMapped(t, e, r, f, p.rounds[k]) {
      assert RoundMapped(t, c, r, f, p.rounds[k]);
    }
    forall i | i in p.place ensures PlacedOk(t, e, p.rest, p.candnbr, r, f, p.place, i) {
      assert PlacedOk(t, c, p.rest, p.candnbr, r, f, p.place, i);
    }
  }

  lemma SonInSubSet(t: Tree, r: int, i: int)
    requires ValidTree(t) && t.Has(r) && SlicesOk(t, r) && 0 <= i < t.At(r).sonsnbr
    ensures t.Has(SonI(t, r, i)) && SonI(t, r, i) in SubSet(t, r) && SubSet(t, SonI(t, r, i)) <= SubSet(t, r)
  {
    assert EntryOk(t, r, i);
    var son := SonI(t, r, i);
    assert t.Rises(son) && Desc(t, son, r);
    forall d | d in SubSet(t, son) ensures d in SubSet(t, r) { DescTrans(t, d, son, r); }
  }

  lemma {:induction false} ProportionalKept(t: Tree, c: seq<Cand>, e: seq<Cand>, nocross: bool, r: int,
                                            entry: seq<real>)
    requires ValidCosts(t) && t.Has(r) && |c| == |e| == t.N() + 1 && Proportional(t, c, nocross, r, entry)
    requires forall d :: d in SubSet(t, r) && t.Has(d) ==> SameCand(c, e, d)
    ensures Proportional(t, e, nocross, r, entry)
    decreases Below(t, r)
  {
    assert r in SubSet(t, r) && SameCand(c, e, r);
    if t.At(r).sonsnbr != 0 && c[r + 1].fcandnum != c[r + 1].lcandnum {
      var p :| NodeOk(t, c, nocross, r, entry, p)
               && forall k :: 0 <= k < |p.rounds| ==>
                    (RoundRises(t, c, nocross, r, entry, p, k);
                     Proportional(t, c, nocross, SonI(t, r, p.rounds[k].son),
                                  ShareOf(StageOf(t, r, nocross, entry, p), p.rounds[k])));
      NodeKept(t, c, e, nocross, r, entry, p);
      forall k | 0 <= k < |p.rounds|
        ensures (RoundRises(t, e, nocross, r, entry, p, k);
                 Proportional(t, e, nocross, SonI(t, r, p.rounds[k].son),
                              ShareOf(StageOf(t, r, nocross, entry, p), p.rounds[k])))
      {
        RoundRises(t, c, nocross, r, entry, p, k);
        SonInSubSet(t, r, p.rounds[k].son);
        ProportionalKept(t, c, e, nocross, SonI(t, r, p.rounds[k].son),
                         ShareOf(StageOf(t, r, nocross, entry, p), p.rounds[k]));
      }
    }
  }

  /** The sons of the rounds have the candidates of their rounds, and go on with their shares. */
  ghost predicate Told(t: Tree, cand: seq<Cand>, r: int, f: int, g: Stage, rounds: seq<Round>)
    requires ValidCosts(t) && t.Has(r)
  {
    && |cand| == t.N() + 1 && RoundsOk(g, rounds)
    && forall k :: 0 <= k < |rounds| ==> ToldAt(t, cand, r, f, g, rounds[k])
  }
  ghost predicate ToldAt(t: Tree, cand: seq<Cand>, r: int, f: int, g: Stage, x: Round)
    requires ValidCosts(t) && t.Has(r) && |cand| == t.N() + 1
  {
    SonsAreInRange(t, r);
    && RoundOk(g, x) && RoundMapped(t, cand, r, f, x)
    && Proportional(t, cand, g.nocross, SonI(t, r, x.son), ShareOf(g, x))
  }

  /** The subtrees of other sons are not touched. */
  lemma NotUnder(t: Tree, r: int, i: int, q: set<int>, d: int)
    requires ValidTree(t) && t.Has(r) && SlicesOk(t, r) && 0 <= i < t.At(r).sonsnbr && i !in q
    requires t.Has(d) && t.Has(SonI(t, r, i)) && d in SubSet(t, SonI(t, r, i))
    ensures d !in Under(t, r, q)
  {
    if d in Under(t, r, q) {
      var j :| j in q && InBranch(t, d, r, j);
      if i < j { SonsApart(t, r, i, j, d); } else { SonsApart(t, r, j, i, d); }
    }
  }

  lemma ToldKeptAt(t: Tree, c: seq<Cand>, e: seq<Cand>, r: int, f: int, g: Stage, x: Round, q: set<int>)
    requires ValidCosts(t) && t.Has(r) && |c| == |e| == t.N() + 1 && ToldAt(t, c, r, f, g, x)
    requires x.son !in q && CandKept(c, e, Under(t, r, q))
    ensures ToldAt(t, e, r, f, g, x)
  {
    SonsAreInRange(t, r);
    SonInSubSet(t, r, x.son);
    var son := SonI(t, r, x.son);
    forall d | d in SubSet(t, son) && t.Has(d) ensures SameCand(c, e, d) { NotUnder(t, r, x.son, q, d); }
    assert son in SubSet(t, son) && SameCand(c, e, son);
    ProportionalKept(t, c, e, g.nocross, son, ShareOf(g, x));
  }

  lemma ToldKept(t: Tree, c: seq<Cand>, e: seq<Cand>, r: int, f: int, g: Stage, rounds: seq<Round>, q: set<int>)
    requires ValidCosts(t) && t.Has(r) && |e| == t.N() + 1 && Told(t, c, r, f, g, rounds)
    requires q !! SonsOf(rounds) && CandKept(c, e, Under(t, r, q))
    ensures Told(t, e, r, f, g, rounds)
  {
    forall k | 0 <= k < |rounds| ensures ToldAt(t, e, r, f, g, rounds[k]) {
      assert ToldAt(t, c, r, f, g, rounds[k]);
      assert rounds[k].son in SonsOf(rounds);
      ToldKeptAt(t, c, e, r, f, g, rounds[k], q);
    }
  }

  /** The subtree of a son changes, and no other. */
  lemma OneUnder(t: Tree, r: int, i: int)
    requires ValidTree(t) && t.Has(r) && 0 <= i < t.At(r).sonsnbr
    ensures SlicesOk(t, r) && t.Has(SonI(t, r, i)) && Under(t, r, {i}) == SubSet(t, SonI(t, r, i))
  {
    assert Under(t, r, {}) == {};
    UnderMore(t, r, {}, i);
    assert {} + {i} == {i};
    assert EntryOk(t, r, i);
  }

  lemma ToldNext(t: Tree, c: seq<Cand>, e: seq<Cand>, r: int, f: int, g: Stage, rounds: seq<Round>, x: Round)
    requires ValidCosts(t) && t.Has(r) && |e| == t.N() + 1 && Told(t, c, r, f, g, rounds) && Extends(g, rounds, x)
    requires ToldAt(t, e, r, f, g, x) && SlicesOk(t, r) && CandKept(c, e, SubSet(t, SonI(t, r, x.son)))
    ensures Told(t, e, r, f, g, rounds + [x]) && Left(g, rounds + [x]) == Left(g, rounds) - {x.son}
    ensures After(g, rounds + [x]) == x.after
  {
    SonsAreInRange(t, r);
    RoundsMore(g, rounds, x);
    OneUnder(t, r, x.son);
    ToldKept(t, c, e, r, f, g, rounds, {x.son});
  }

  /** What the two stages leave makes the node proportional. */
  lemma NodeDone(t: Tree, cand: seq<Cand>, nocross: bool, r: int, entry: seq<real>, p: Plan)
    requires ValidCosts(t) && t.Has(r) && |cand| == t.N() + 1 && NodeOk(t, cand, nocross, r, entry, p)
    requires Told(t, cand, r, cand[r + 1].fcandnum, StageOf(t, r, nocross, entry, p), p.rounds)
    ensures Proportional(t, cand, nocross, r, entry)
  {
    var g, f := StageOf(t, r, nocross, entry, p), cand[r + 1].fcandnum;
    forall k | 0 <= k < |p.rounds|
      ensures (RoundRises(t, cand, nocross, r, entry, p, k);
               Proportional(t, cand, nocross, SonI(t, r, p.rounds[k].son), ShareOf(g, p.rounds[k])))
    {
      RoundRises(t, cand, nocross, r, entry, p, k);
      assert ToldAt(t, cand, r, f, g, p.rounds[k]);
    }
  }

  /** Son i of r gets the candidates first..last, goes on with its share, and s becomes c. */
  ghost predicate Gets(t: Tree, before: seq<Cand>, cand: seq<Cand>, r: int, f: int, g: Stage, s: seq<real>,
                       c: seq<real>, first: int, last: int, i: int)
    requires ValidCosts(t) && t.Has(r)
  {
    SonsAreInRange(t, r);
    && 0 <= i < t.At(r).sonsnbr == |g.costs| && |cand| == t.N() + 1
    && StopsAt(s, first, g.candnbr, last, g.costs[i], g.epsilon, g.nocross)
    && c == Remaining(s, first, last, LeftOver(s, first, last, g.costs[i]))
    && Goes(t, before, cand, g.nocross, r, f, first, last, i,
            SubShares(s, first, last, LeftOver(s, first, last, g.costs[i])))
  }
  ghost predicate Goes(t: Tree, before: seq<Cand>, cand: seq<Cand>, nocross: bool, r: int, f: int, first: int,
                       last: int, i: int, share: seq<real>)
    requires ValidCosts(t) && t.Has(r)
  {
    SonsAreInRange(t, r);
    && 0 <= i < t.At(r).sonsnbr && |cand| == t.N() + 1 && Interval(cand, SonI(t, r, i), f + first, f + last)
    && Proportional(t, cand, nocross, SonI(t, r, i), share) && CandKept(before, cand, SubSet(t, SonI(t, r, i)))
  }

  /** Round x of the first stage changed the intervals of the subtree of its son, and no others. */
  ghost predicate Took(t: Tree, before: seq<Cand>, cand: seq<Cand>, r: int, f: int, g: Stage, x: Round)
    requires ValidCosts(t) && t.Has(r)
  {
    SonsAreInRange(t, r);
    && |cand| == t.N() + 1 && ToldAt(t, cand, r, f, g, x) && CandKept(before, cand, SubSet(t, SonI(t, r, x.son)))
  }

  lemma GetsIsRound(t: Tree, before: seq<Cand>, cand: seq<Cand>, r: int, f: int, g: Stage, x: Round)
    requires ValidCosts(t) && t.Has(r) && Gets(t, before, cand, r, f, g, x.before, x.after, x.first, x.last, x.son)
    requires 0 <= x.use < g.candnbr <= |x.before| == |g.start| && !IsWhole(g, x)
    requires x.first == if x.use < g.candnbr - 1 && x.before[x.use] <= g.epsilon then x.use + 1 else x.use
    ensures Took(t, before, cand, r, f, g, x)
  {
    GetsIsOk(t, before, cand, r, f, g, x);
    var share := ShareOf(g, x);
    assert Goes(t, before, cand, g.nocross, r, f, x.first, x.last, x.son, share);
  }

  lemma GetsIsOk(t: Tree, before: seq<Cand>, cand: seq<Cand>, r: int, f: int, g: Stage, x: Round)
    requires ValidCosts(t) && t.Has(r) && Gets(t, before, cand, r, f, g, x.before, x.after, x.first, x.last, x.son)
    requires 0 <= x.use < g.candnbr <= |x.before| == |g.start| && !IsWhole(g, x)
    requires x.first == if x.use < g.candnbr - 1 && x.before[x.use] <= g.epsilon then x.use + 1 else x.use
    ensures RoundOk(g, x)
  {
  }

  /** A subtree on one candidate. */
  lemma WholeIsRound(t: Tree, before: seq<Cand>, cand: seq<Cand>, r: int, f: int, g: Stage, x: Round)
    requires ValidCosts(t) && t.Has(r) && |cand| == t.N() + 1 && RoundOk(g, x) && IsWhole(g, x)
    requires SlicesOk(t, r) && SonsInRange(t, r) && |g.costs| == t.At(r).sonsnbr
    requires Interval(cand, SonI(t, r, x.son), f + x.use, f + x.use)
             && CandKept(before, cand, SubSet(t, SonI(t, r, x.son)))
    ensures Took(t, before, cand, r, f, g, x)
  {
  }

  /** Changes under sons of q, and then under one of them. */
  lemma KeptUnder(t: Tree, r: int, q: set<int>, i: int, a: seq<Cand>, b: seq<Cand>, c: seq<Cand>)
    requires ValidTree(t) && t.Has(r) && SlicesOk(t, r) && 0 <= i < t.At(r).sonsnbr && i in q
    requires |a| == |b| == |c| == t.N() + 1 && t.Has(SonI(t, r, i))
    requires CandKept(a, b, Under(t, r, q)) && CandKept(b, c, SubSet(t, SonI(t, r, i)))
    ensures CandKept(a, c, Under(t, r, q))
  {
    forall d | d in SubSet(t, SonI(t, r, i)) ensures d in Under(t, r, q) {
      assert InBranch(t, d, r, i) && InBranches(t, d, r, q);
    }
    forall d | -1 <= d < |a| - 1 && d !in Under(t, r, q) ensures SameCand(a, c, d) {
      assert SameCand(a, b, d) && SameCand(b, c, d);
    }
  }
}
