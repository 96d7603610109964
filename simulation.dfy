/**
 * The graph simulator's `Simulation`: it inserts humans and mosquitos at
 * random points of an environment, then runs a number of cycles, each made
 * of a movement along the adjacency, a contact step and a transition step.
 *
 * The human and mosquito containers are hashed sets keyed by id; the model
 * keeps each as a sequence with set-insertion by id, in insertion order.
 * Random draws are oracles: `draw(k)` is the point index drawn by the k-th
 * call of the position generator, and `pick(cycle, i, n)` the index in
 * [0, n) drawn for the i-th agent moved in that cycle.
 */
module GraphSimulation {
  import opened GraphEnvironment
  import AgentHuman
  import AgentMosquito
  import SimulatorHuman
  import SimulatorMosquito

  type Human = SimulatorHuman.Human
  type Mosquito = SimulatorMosquito.Mosquito

  /** The simulation parameters; rates are reals. */
  datatype Parameters = Parameters(
    runs: nat,
    cycles: nat,
    humanInfectionRate: real,
    humanInitialSusceptible: nat,
    humanInitialExposed: nat,
    humanInitialInfected: nat,
    humanInitialRecovered: nat,
    humanTransitionPeriodExposed: nat,
    humanTransitionPeriodInfected: nat,
    humanTransitionPeriodRecovered: nat,
    mosquitoInfectionRate: real,
    mosquitoInitialSusceptible: nat,
    mosquitoInitialInfected: nat,
    mosquitoInitialRecovered: nat,
    mosquitoTransitionPeriodInfected: nat,
    mosquitoTransitionPeriodRecovered: nat)

  function HumanCount(p: Parameters): nat {
    p.humanInitialSusceptible + p.humanInitialExposed + p.humanInitialInfected + p.humanInitialRecovered
  }

  function MosquitoCount(p: Parameters): nat {
    p.mosquitoInitialSusceptible + p.mosquitoInitialInfected + p.mosquitoInitialRecovered
  }

  // ------------------------------------------------------------ the containers

  /** `unordered_set::insert`: nothing happens when an equal (same-id) element is present. */
  function Insert<T>(xs: seq<T>, x: T, id: T -> nat): seq<T> {
    if HasId(xs, id(x), id) then xs else xs + [x]
  }

  /** Some element of xs has the id n. */
  predicate HasId<T>(xs: seq<T>, n: nat, id: T -> nat) {
    exists j :: 0 <= j < |xs| && id(xs[j]) == n
  }

  function HumanId(h: Human): nat { h.id }

  function MosquitoId(m: Mosquito): nat { m.id }

  /** Inserting the elements of ys one after the other. */
  function InsertAll<T>(xs: seq<T>, ys: seq<T>, id: T -> nat): seq<T> {
    if ys == [] then xs else Insert(InsertAll(xs, ys[..|ys| - 1], id), ys[|ys| - 1], id)
  }

  /** Inserting elements whose ids are new and pairwise distinct appends them all. */
  lemma {:induction false} InsertAllFresh<T>(xs: seq<T>, ys: seq<T>, id: T -> nat)
    requires forall i, j :: 0 <= i < |xs| && 0 <= j < |ys| ==> id(xs[i]) != id(ys[j])
    requires forall i, j :: 0 <= i < j < |ys| ==> id(ys[i]) != id(ys[j])
    ensures InsertAll(xs, ys, id) == xs + ys
  {
    if ys != [] {
      var pre := ys[..|ys| - 1];
      InsertAllFresh(xs, pre, id);
      assert xs + pre + [ys[|ys| - 1]] == xs + ys;
      var r := xs + pre;
      forall j | 0 <= j < |r|
        ensures id(r[j]) != id(ys[|ys| - 1])
      {
        if j >= |xs| {
          assert r[j] == ys[j - |xs|];
        }
      }
    }
  }

  // ----------------------------------------------------------------- insertion

  /** The state of the k-th human inserted: the four initial counts fill consecutive id blocks. */
  function HumanStateAt(p: Parameters, k: nat): AgentHuman.State {
    if k < p.humanInitialSusceptible then AgentHuman.Susceptible
    else if k < p.humanInitialSusceptible + p.humanInitialExposed then AgentHuman.Exposed
    else if k < p.humanInitialSusceptible + p.humanInitialExposed + p.humanInitialInfected then AgentHuman.Infected
    else AgentHuman.Recovered
  }

  /** The state of the k-th mosquito inserted: the three initial counts fill consecutive id blocks. */
  function MosquitoStateAt(p: Parameters, k: nat): AgentMosquito.State {
    if k < p.mosquitoInitialSusceptible then AgentMosquito.Susceptible
    else if k < p.mosquitoInitialSusceptible + p.mosquitoInitialInfected then AgentMosquito.Infected
    else AgentMosquito.Recovered
  }

  /** The draws the insertion makes are point indices below the size. */
  ghost predicate DrawsInRange(e: Environment, p: Parameters, draw: nat -> nat) {
    forall k :: 0 <= k < HumanCount(p) + MosquitoCount(p) ==> draw(k) < Size(e)
  }

  /**
   * `random_position_id`: the id of the point at the next drawn index of the
   * point order. It is made total by 0 for an index out of range, which the
   * insertion never draws.
   */
  function DrawnPoint(order: seq<nat>, draw: nat -> nat): nat -> nat {
    k => if draw(k) < |order| then order[draw(k)] else 0
  }

  /** For a draw in range the drawn point is the environment's n-th point id for the drawn n. */
  lemma DrawnPointIsNth(e: Environment, draw: nat -> nat, k: nat)
    requires Listed(e.points, e.order) && draw(k) < Size(e)
    ensures DrawnPoint(e.order, draw)(k) == NthPointId(e, draw(k))
    ensures DrawnPoint(e.order, draw)(k) in e.points
  {
    SizeIsOrderLength(e);
  }

  /** The first n humans the insertion builds: id k, its block's state, the k-th drawn point. */
  function HumanCohort(p: Parameters, position: nat -> nat, n: nat): seq<Human> {
    if n == 0 then []
    else HumanCohort(p, position, n - 1) + [SimulatorHuman.Human(HumanStateAt(p, n - 1), n - 1, position(n - 1))]
  }

  /**
   * The first n mosquitos the insertion builds: ids restart at 0, the counter
   * starts at 0, and the draws continue after the humans'.
   */
  function MosquitoCohort(p: Parameters, position: nat -> nat, n: nat): seq<Mosquito> {
    if n == 0 then []
    else MosquitoCohort(p, position, n - 1)
         + [SimulatorMosquito.Mosquito(MosquitoStateAt(p, n - 1), n - 1, position(HumanCount(p) + n - 1), 0)]
  }

  /** The humans container after the first n humans of the insertion went into `before`. */
  function HumansAfter(before: seq<Human>, p: Parameters, position: nat -> nat, n: nat): seq<Human> {
    if n == 0 then before
    else Insert(HumansAfter(before, p, position, n - 1), SimulatorHuman.Human(HumanStateAt(p, n - 1), n - 1, position(n - 1)), HumanId)
  }

  /** The mosquitos container after the first n mosquitos of the insertion went into `before`. */
  function MosquitosAfter(before: seq<Mosquito>, p: Parameters, position: nat -> nat, n: nat): seq<Mosquito> {
    if n == 0 then before
    else Insert(MosquitosAfter(before, p, position, n - 1),
                SimulatorMosquito.Mosquito(MosquitoStateAt(p, n - 1), n - 1, position(HumanCount(p) + n - 1), 0), MosquitoId)
  }

  /** hs is `before` after the first n humans of the insertion went in. */
  ghost predicate HumansInserted(hs: seq<Human>, before: seq<Human>, p: Parameters, position: nat -> nat, n: nat) {
    hs == HumansAfter(before, p, position, n)
  }

  /** ms is `before` after the first n mosquitos of the insertion went in. */
  ghost predicate MosquitosInserted(ms: seq<Mosquito>, before: seq<Mosquito>, p: Parameters, position: nat -> nat, n: nat) {
    ms == MosquitosAfter(before, p, position, n)
  }

  /** The k-th new human has id k, the k-th drawn point and the state of k's block. */
  lemma {:induction false} HumanCohortShape(p: Parameters, position: nat -> nat, n: nat)
    ensures |HumanCohort(p, position, n)| == n
    ensures forall k :: 0 <= k < n ==>
              HumanCohort(p, position, n)[k] == SimulatorHuman.Human(HumanStateAt(p, k), k, position(k))
  {
    if n > 0 {
      HumanCohortShape(p, position, n - 1);
    }
  }

  /** The k-th new mosquito has id k, counter 0, the point of draw `HumanCount + k` and the state of k's block. */
  lemma {:induction false} MosquitoCohortShape(p: Parameters, position: nat -> nat, n: nat)
    ensures |MosquitoCohort(p, position, n)| == n
    ensures forall k :: 0 <= k < n ==>
              MosquitoCohort(p, position, n)[k]
              == SimulatorMosquito.Mosquito(MosquitoStateAt(p, k), k, position(HumanCount(p) + k), 0)
  {
    if n > 0 {
      MosquitoCohortShape(p, position, n - 1);
    }
  }

  /** The number of humans in state s. */
  function CountHumans(hs: seq<Human>, s: AgentHuman.State): nat {
    if hs == [] then 0 else CountHumans(hs[..|hs| - 1], s) + (if hs[|hs| - 1].state == s then 1 else 0)
  }

  /** The number of mosquitos in state s. */
  function CountMosquitos(ms: seq<Mosquito>, s: AgentMosquito.State): nat {
    if ms == [] then 0 else CountMosquitos(ms[..|ms| - 1], s) + (if ms[|ms| - 1].state == s then 1 else 0)
  }

  function Min(a: nat, b: nat): nat {
    if a <= b then a else b
  }

  /** How many of 0..n-1 lie in [lo, hi). */
  function Clamp(n: nat, lo: nat, hi: nat): nat
    requires lo <= hi
  {
    Min(n, hi) - Min(n, lo)
  }

  /** When, among the first n ids, exactly those of [lo, hi) get state s, the first n humans hold that many in s. */
  lemma {:induction false} HumanCohortCounts(p: Parameters, position: nat -> nat, n: nat, s: AgentHuman.State, lo: nat, hi: nat)
    requires lo <= hi
    requires forall k: nat :: k < n ==> (HumanStateAt(p, k) == s <==> lo <= k < hi)
    ensures CountHumans(HumanCohort(p, position, n), s) == Clamp(n, lo, hi)
  {
    if n > 0 {
      HumanCohortCounts(p, position, n - 1, s, lo, hi);
      var h := SimulatorHuman.Human(HumanStateAt(p, n - 1), n - 1, position(n - 1));
      CountHumansSnoc(HumanCohort(p, position, n - 1), h, s);
      assert HumanCohort(p, position, n) == HumanCohort(p, position, n - 1) + [h];
      assert h.state == s <==> lo <= n - 1 < hi;
    }
  }

  /** When, among the first n ids, exactly those of [lo, hi) get state s, the first n mosquitos hold that many in s. */
  lemma {:induction false} MosquitoCohortCounts(p: Parameters, position: nat -> nat, n: nat, s: AgentMosquito.State, lo: nat, hi: nat)
    requires lo <= hi
    requires forall k: nat :: k < n ==> (MosquitoStateAt(p, k) == s <==> lo <= k < hi)
    ensures CountMosquitos(MosquitoCohort(p, position, n), s) == Clamp(n, lo, hi)
  {
    if n > 0 {
      MosquitoCohortCounts(p, position, n - 1, s, lo, hi);
      var m := SimulatorMosquito.Mosquito(MosquitoStateAt(p, n - 1), n - 1, position(HumanCount(p) + n - 1), 0);
      CountMosquitosSnoc(MosquitoCohort(p, position, n - 1), m, s);
      assert MosquitoCohort(p, position, n) == MosquitoCohort(p, position, n - 1) + [m];
      assert m.state == s <==> lo <= n - 1 < hi;
    }
  }

  lemma CountHumansSnoc(hs: seq<Human>, h: Human, s: AgentHuman.State)
    ensures CountHumans(hs + [h], s) == CountHumans(hs, s) + (if h.state == s then 1 else 0)
  {
    assert (hs + [h])[..|hs|] == hs;
  }

  lemma CountMosquitosSnoc(ms: seq<Mosquito>, m: Mosquito, s: AgentMosquito.State)
    ensures CountMosquitos(ms + [m], s) == CountMosquitos(ms, s) + (if m.state == s then 1 else 0)
  {
    assert (ms + [m])[..|ms|] == ms;
  }

  /** After the whole insertion the counts per state are the initial counts. */
  lemma InsertedCounts(p: Parameters, position: nat -> nat)
    ensures var hs := HumanCohort(p, position, HumanCount(p));
            && CountHumans(hs, AgentHuman.Susceptible) == p.humanInitialSusceptible
            && CountHumans(hs, AgentHuman.Exposed) == p.humanInitialExposed
            && CountHumans(hs, AgentHuman.Infected) == p.humanInitialInfected
            && CountHumans(hs, AgentHuman.Recovered) == p.humanInitialRecovered
    ensures var ms := MosquitoCohort(p, position, MosquitoCount(p));
            && CountMosquitos(ms, AgentMosquito.Susceptible) == p.mosquitoInitialSusceptible
            && CountMosquitos(ms, AgentMosquito.Infected) == p.mosquitoInitialInfected
            && CountMosquitos(ms, AgentMosquito.Recovered) == p.mosquitoInitialRecovered
  {
    var s, x, i, n := p.humanInitialSusceptible, p.humanInitialExposed, p.humanInitialInfected, HumanCount(p);
    HumanCohortCounts(p, position, n, AgentHuman.Susceptible, 0, s);
    HumanCohortCounts(p, position, n, AgentHuman.Exposed, s, s + x);
    HumanCohortCounts(p, position, n, AgentHuman.Infected, s + x, s + x + i);
    HumanCohortCounts(p, position, n, AgentHuman.Recovered, s + x + i, n);
    var ms, mi, m := p.mosquitoInitialSusceptible, p.mosquitoInitialInfected, MosquitoCount(p);
    MosquitoCohortCounts(p, position, m, AgentMosquito.Susceptible, 0, ms);
    MosquitoCohortCounts(p, position, m, AgentMosquito.Infected, ms, ms + mi);
    MosquitoCohortCounts(p, position, m, AgentMosquito.Recovered, ms + mi, m);
  }

  // ------------------------------------------------------------------ movement

  /** `*std::next(s.begin(), k)` on an ordered set: its k-th smallest element. */
  function NthSmallest(s: set<nat>, k: nat): (r: nat)
    requires k < |s|
    ensures r in s
    decreases k
  {
    var m := Least(s);
    if k == 0 then m else NthSmallest(s - {m}, k - 1)
  }

  /** The smallest element of a nonempty set. */
  function Least(s: set<nat>): (r: nat)
    requires s != {}
    ensures r in s && forall y :: y in s ==> r <= y
  {
    assert Minimum(s) in s;
    var m :| m in s && forall y :: y in s ==> m <= y;
    m
  }

  /** A smallest element, found by removing one element and comparing it with the rest's smallest. */
  ghost function Minimum(s: set<nat>): (r: nat)
    requires s != {}
    ensures r in s && forall y :: y in s ==> r <= y
    decreases |s|
  {
    var x :| x in s;
    if s == {x} then x
    else
      var m := Minimum(s - {x});
      assert forall y :: y in s ==> y == x || y in s - {x};
      if x < m then x else m
  }

  /** The ordered set is walked in increasing order: a later index gives a larger element. */
  lemma {:induction false} NthSmallestIncreasing(s: set<nat>, k: nat, k': nat)
    requires k < k' < |s|
    ensures NthSmallest(s, k) < NthSmallest(s, k')
    decreases k
  {
    var m := Least(s);
    if k == 0 {
      assert NthSmallest(s, k') == NthSmallest(s - {m}, k' - 1);
    } else {
      NthSmallestIncreasing(s - {m}, k - 1, k' - 1);
    }
  }

  /** The draws are in range: `uniform_int_distribution(0, n - 1)` with n > 0 yields below n. */
  ghost predicate PicksInRange(pick: (nat, nat, nat) -> nat) {
    forall c, i, n :: 0 < n ==> pick(c, i, n) < n
  }

  /** Every agent stands on a point that has an entry in the adjacency map. */
  ghost predicate OnGraph(e: Environment, hs: seq<Human>, ms: seq<Mosquito>) {
    && (forall i :: 0 <= i < |hs| ==> hs[i].position in e.edges)
    && (forall i :: 0 <= i < |ms| ==> ms[i].position in e.edges)
  }

  /** The neighbour of `position` at the drawn index `d` of its ordered edge set. */
  function Step(e: Environment, position: nat, d: nat): (r: nat)
    requires position in e.edges && d < |GetEdges(e, position)|
    ensures Adjacent(e.edges, position, r)
  {
    NthSmallest(GetEdges(e, position), d)
  }

  /** The draw for the agent moved i-th in the cycle at `position`. */
  function Draw(e: Environment, pick: (nat, nat, nat) -> nat, cycle: nat, i: nat, position: nat): nat
    requires position in e.edges
  {
    pick(cycle, i, |GetEdges(e, position)|)
  }

  /** One movement of every human: the i-th takes draw i of the cycle. */
  ghost function MoveHumans(e: Environment, hs: seq<Human>, cycle: nat, pick: (nat, nat, nat) -> nat): (r: seq<Human>)
    requires Valid(e) && PicksInRange(pick) && OnGraph(e, hs, [])
    ensures |r| == |hs|
  {
    seq(|hs|, i requires 0 <= i < |hs| =>
      hs[i].(position := Step(e, hs[i].position, Draw(e, pick, cycle, i, hs[i].position))))
  }

  /** One movement of every mosquito: the i-th takes draw `offset + i` of the cycle. */
  ghost function MoveMosquitos(e: Environment, ms: seq<Mosquito>, offset: nat, cycle: nat, pick: (nat, nat, nat) -> nat): (r: seq<Mosquito>)
    requires Valid(e) && PicksInRange(pick) && OnGraph(e, [], ms)
    ensures |r| == |ms|
  {
    seq(|ms|, i requires 0 <= i < |ms| =>
      ms[i].(position := Step(e, ms[i].position, Draw(e, pick, cycle, offset + i, ms[i].position))))
  }

  /**
   * A movement keeps every id and state and moves each agent to a neighbour
   * of its old point; by symmetry of the adjacency that neighbour has an
   * entry too, so the next movement can move it again.
   */
  lemma MovementShape(e: Environment, hs: seq<Human>, ms: seq<Mosquito>, offset: nat, cycle: nat, pick: (nat, nat, nat) -> nat)
    requires Valid(e) && PicksInRange(pick) && OnGraph(e, hs, ms)
    ensures var hs', ms' := MoveHumans(e, hs, cycle, pick), MoveMosquitos(e, ms, offset, cycle, pick);
            && (forall i :: 0 <= i < |hs| ==>
                  hs'[i].id == hs[i].id && hs'[i].state == hs[i].state && Adjacent(e.edges, hs[i].position, hs'[i].position))
            && (forall i :: 0 <= i < |ms| ==>
                  ms'[i].id == ms[i].id && ms'[i].state == ms[i].state && ms'[i].counter == ms[i].counter
                  && Adjacent(e.edges, ms[i].position, ms'[i].position))
            && OnGraph(e, hs', ms')
  {
    var hs', ms' := MoveHumans(e, hs, cycle, pick), MoveMosquitos(e, ms, offset, cycle, pick);
    forall i | 0 <= i < |hs| ensures hs'[i].position in e.edges {
      assert Adjacent(e.edges, hs[i].position, hs'[i].position);
    }
    forall i | 0 <= i < |ms| ensures ms'[i].position in e.edges {
      assert Adjacent(e.edges, ms[i].position, ms'[i].position);
    }
  }

  /** After a movement every agent still stands on a point with an adjacency entry. */
  lemma MovementOnGraph(e: Environment, hs: seq<Human>, ms: seq<Mosquito>, offset: nat, cycle: nat, pick: (nat, nat, nat) -> nat)
    requires Valid(e) && PicksInRange(pick) && OnGraph(e, hs, ms)
    ensures OnGraph(e, MoveHumans(e, hs, cycle, pick), MoveMosquitos(e, ms, offset, cycle, pick))
  {
    var hs', ms' := MoveHumans(e, hs, cycle, pick), MoveMosquitos(e, ms, offset, cycle, pick);
    forall i | 0 <= i < |hs| ensures hs'[i].position in e.edges {
      assert Adjacent(e.edges, hs[i].position, hs'[i].position);
    }
    forall i | 0 <= i < |ms| ensures ms'[i].position in e.edges {
      assert Adjacent(e.edges, ms[i].position, ms'[i].position);
    }
  }

  /** One round's movement of both populations; mosquitos take the draws after the humans'. */
  ghost function Round(e: Environment, hs: seq<Human>, ms: seq<Mosquito>, cycle: nat, pick: (nat, nat, nat) -> nat): (r: (seq<Human>, seq<Mosquito>))
    requires Valid(e) && PicksInRange(pick) && OnGraph(e, hs, ms)
    ensures OnGraph(e, r.0, r.1)
  {
    MovementOnGraph(e, hs, ms, |hs|, cycle, pick);
    (MoveHumans(e, hs, cycle, pick), MoveMosquitos(e, ms, |hs|, cycle, pick))
  }

  /** The populations after n cycles of movement from hs and ms. */
  ghost function Cycles(e: Environment, hs: seq<Human>, ms: seq<Mosquito>, n: nat, pick: (nat, nat, nat) -> nat): (r: (seq<Human>, seq<Mosquito>))
    requires Valid(e) && PicksInRange(pick) && OnGraph(e, hs, ms)
    ensures OnGraph(e, r.0, r.1)
  {
    if n == 0 then (hs, ms)
    else
      var prev := Cycles(e, hs, ms, n - 1, pick);
      Round(e, prev.0, prev.1, n - 1, pick)
  }

  /** Any number of cycles keeps the populations' sizes, ids and states. */
  lemma {:induction false} CyclesKeepIdentity(e: Environment, hs: seq<Human>, ms: seq<Mosquito>, n: nat, pick: (nat, nat, nat) -> nat)
    requires Valid(e) && PicksInRange(pick) && OnGraph(e, hs, ms)
    ensures var r := Cycles(e, hs, ms, n, pick);
            && |r.0| == |hs| && |r.1| == |ms|
            && (forall i :: 0 <= i < |hs| ==> r.0[i].id == hs[i].id && r.0[i].state == hs[i].state)
            && (forall i :: 0 <= i < |ms| ==> r.1[i].id == ms[i].id && r.1[i].state == ms[i].state)
  {
    if n > 0 {
      CyclesKeepIdentity(e, hs, ms, n - 1, pick);
      var prev := Cycles(e, hs, ms, n - 1, pick);
      MovementShape(e, prev.0, prev.1, |prev.0|, n - 1, pick);
    }
  }

  /** The human initial states in the order `insertion` takes them, and how many humans each gets. */
  function HumanStates(): seq<AgentHuman.State> {
    [AgentHuman.Susceptible, AgentHuman.Exposed, AgentHuman.Infected, AgentHuman.Recovered]
  }

  function HumanBlocks(p: Parameters): seq<nat> {
    [p.humanInitialSusceptible, p.humanInitialExposed, p.humanInitialInfected, p.humanInitialRecovered]
  }

  /** The mosquito initial states in the order `insertion` takes them, and how many mosquitos each gets. */
  function MosquitoStates(): seq<AgentMosquito.State> {
    [AgentMosquito.Susceptible, AgentMosquito.Infected, AgentMosquito.Recovered]
  }

  function MosquitoBlocks(p: Parameters): seq<nat> {
    [p.mosquitoInitialSusceptible, p.mosquitoInitialInfected, p.mosquitoInitialRecovered]
  }

  function Sum(xs: seq<nat>): nat {
    if xs == [] then 0 else Sum(xs[..|xs| - 1]) + xs[|xs| - 1]
  }

  /** The human blocks start at 0, S, S+E and S+E+I and end at the count. */
  lemma HumanStarts(p: Parameters)
    ensures var c := HumanBlocks(p);
            && Sum(c[..0]) == 0
            && Sum(c[..1]) == p.humanInitialSusceptible
            && Sum(c[..2]) == p.humanInitialSusceptible + p.humanInitialExposed
            && Sum(c[..3]) == p.humanInitialSusceptible + p.humanInitialExposed + p.humanInitialInfected
            && Sum(c[..4]) == HumanCount(p)
  {
    var c := HumanBlocks(p);
    assert c[..1][..0] == c[..0];
    assert c[..2][..1] == c[..1];
    assert c[..3][..2] == c[..2];
    assert c[..4][..3] == c[..3];
  }

  /** The mosquito blocks start at 0, S and S+I and end at the count. */
  lemma MosquitoStarts(p: Parameters)
    ensures var c := MosquitoBlocks(p);
            && Sum(c[..0]) == 0
            && Sum(c[..1]) == p.mosquitoInitialSusceptible
            && Sum(c[..2]) == p.mosquitoInitialSusceptible + p.mosquitoInitialInfected
            && Sum(c[..3]) == MosquitoCount(p)
  {
    var c := MosquitoBlocks(p);
    assert c[..1][..0] == c[..0];
    assert c[..2][..1] == c[..1];
    assert c[..3][..2] == c[..2];
  }

  /** Every id of the b-th human block gets the b-th state. */
  lemma HumanBlockStates(p: Parameters, b: nat)
    requires b < 4
    ensures forall k :: Sum(HumanBlocks(p)[..b]) <= k < Sum(HumanBlocks(p)[..b]) + HumanBlocks(p)[b] ==>
              HumanStateAt(p, k) == HumanStates()[b]
  {
    HumanStarts(p);
  }

  /** Every id of the b-th mosquito block gets the b-th state. */
  lemma MosquitoBlockStates(p: Parameters, b: nat)
    requires b < 3
    ensures forall k :: Sum(MosquitoBlocks(p)[..b]) <= k < Sum(MosquitoBlocks(p)[..b]) + MosquitoBlocks(p)[b] ==>
              MosquitoStateAt(p, k) == MosquitoStates()[b]
  {
    MosquitoStarts(p);
  }

  /**
   * One counting loop of `insertion` over humans: `count` humans in state
   * `state`, with the ids from `first` on, each at the next drawn point,
   * inserted into `hs`.
   */
  method InsertHumans(p: Parameters, position: nat -> nat, ghost before: seq<Human>, hs: seq<Human>,
                      state: AgentHuman.State, first: nat, count: nat) returns (hs': seq<Human>)
    requires forall k :: first <= k < first + count ==> HumanStateAt(p, k) == state
    requires HumansInserted(hs, before, p, position, first)
    ensures HumansInserted(hs', before, p, position, first + count)
  {
    hs' := hs;
    var humanId := first;
    for i := 0 to count
      invariant humanId == first + i
      invariant hs' == HumansAfter(before, p, position, humanId)
    {
      var h := SimulatorHuman.Human(state, humanId, position(humanId));
      hs' := Insert(hs', h, HumanId);
      humanId := humanId + 1;
    }
  }

  /**
   * One counting loop of `insertion` over mosquitos: `count` mosquitos in
   * state `state`, with the ids from `first` on, each at the next drawn
   * point, inserted into `ms`.
   */
  method InsertMosquitos(p: Parameters, position: nat -> nat, ghost before: seq<Mosquito>, ms: seq<Mosquito>,
                         state: AgentMosquito.State, first: nat, count: nat) returns (ms': seq<Mosquito>)
    requires forall k :: first <= k < first + count ==> MosquitoStateAt(p, k) == state
    requires MosquitosInserted(ms, before, p, position, first)
    ensures MosquitosInserted(ms', before, p, position, first + count)
  {
    var nh := HumanCount(p);
    ms' := ms;
    var mosquitoId := first;
    for i := 0 to count
      invariant mosquitoId == first + i
      invariant ms' == MosquitosAfter(before, p, position, mosquitoId)
    {
      var m := SimulatorMosquito.Mosquito(state, mosquitoId, position(nh + mosquitoId), 0);
      ms' := Insert(ms', m, MosquitoId);
      mosquitoId := mosquitoId + 1;
    }
  }

  /** The four human loops of `insertion`, one per initial state in order, with consecutive ids from 0. */
  method InsertHumanBlocks(p: Parameters, position: nat -> nat, hs: seq<Human>) returns (hs': seq<Human>)
    ensures hs' == HumansAfter(hs, p, position, HumanCount(p))
  {
    var states, counts := HumanStates(), HumanBlocks(p);
    hs' := hs;
    var humanId := 0;
    for b := 0 to 4
      invariant humanId == Sum(counts[..b])
      invariant HumansInserted(hs', hs, p, position, humanId)
    {
      HumanBlockStates(p, b);
      hs' := InsertHumans(p, position, hs, hs', states[b], humanId, counts[b]);
      assert counts[..b + 1][..b] == counts[..b];
      humanId := humanId + counts[b];
    }
    HumanStarts(p);
  }

  /** The three mosquito loops of `insertion`, one per initial state in order, with consecutive ids from 0. */
  method InsertMosquitoBlocks(p: Parameters, position: nat -> nat, ms: seq<Mosquito>) returns (ms': seq<Mosquito>)
    ensures ms' == MosquitosAfter(ms, p, position, MosquitoCount(p))
  {
    var states, counts := MosquitoStates(), MosquitoBlocks(p);
    ms' := ms;
    var mosquitoId := 0;
    for b := 0 to 3
      invariant mosquitoId == Sum(counts[..b])
      invariant MosquitosInserted(ms', ms, p, position, mosquitoId)
    {
      MosquitoBlockStates(p, b);
      ms' := InsertMosquitos(p, position, ms, ms', states[b], mosquitoId, counts[b]);
      assert counts[..b + 1][..b] == counts[..b];
      mosquitoId := mosquitoId + counts[b];
    }
    MosquitoStarts(p);
  }

  /** The human loop of `movement`: the i-th human takes draw i of the cycle. */
  method MoveAllHumans(e: Environment, hs: seq<Human>, cycle: nat, pick: (nat, nat, nat) -> nat) returns (hs': seq<Human>)
    requires Valid(e) && PicksInRange(pick) && OnGraph(e, hs, [])
    ensures hs' == MoveHumans(e, hs, cycle, pick)
  {
    hs' := hs;
    for i := 0 to |hs|
      invariant |hs'| == |hs|
      invariant forall j :: 0 <= j < i ==> hs'[j] == MoveHumans(e, hs, cycle, pick)[j]
      invariant forall j :: i <= j < |hs| ==> hs'[j] == hs[j]
    {
      var position := hs'[i].position;
      var edges := GetEdges(e, position);
      var d := pick(cycle, i, |edges|);
      hs' := hs'[i := hs'[i].(position := NthSmallest(edges, d))];
    }
  }

  /** The mosquito loop of `movement`: the i-th mosquito takes draw `offset + i` of the cycle. */
  method MoveAllMosquitos(e: Environment, ms: seq<Mosquito>, offset: nat, cycle: nat, pick: (nat, nat, nat) -> nat)
    returns (ms': seq<Mosquito>)
    requires Valid(e) && PicksInRange(pick) && OnGraph(e, [], ms)
    ensures ms' == MoveMosquitos(e, ms, offset, cycle, pick)
  {
    ms' := ms;
    for i := 0 to |ms|
      invariant |ms'| == |ms|
      invariant forall j :: 0 <= j < i ==> ms'[j] == MoveMosquitos(e, ms, offset, cycle, pick)[j]
      invariant forall j :: i <= j < |ms| ==> ms'[j] == ms[j]
    {
      var position := ms'[i].position;
      var edges := GetEdges(e, position);
      var d := pick(cycle, offset + i, |edges|);
      ms' := ms'[i := ms'[i].(position := NthSmallest(edges, d))];
    }
  }

  // ----------------------------------------------------------------- the class

  class Simulation {
    const environment: Environment
    const parameters: Parameters
    var humans: seq<Human>
    var mosquitos: seq<Mosquito>

    constructor(environment: Environment, parameters: Parameters)
      ensures this.environment == environment && this.parameters == parameters
      ensures humans == [] && mosquitos == []
    {
      this.environment := environment;
      this.parameters := parameters;
      humans := [];
      mosquitos := [];
    }

    /**
     * `insertion`: S susceptible, E exposed, I infected and R recovered
     * humans with ids counted from 0, then S susceptible, I infected and R
     * recovered mosquitos with ids counted from 0 again, each at the point of
     * the next position draw.
     */
    method Insertion(draw: nat -> nat)
      requires Listed(environment.points, environment.order)
      requires DrawsInRange(environment, parameters, draw)
      modifies this
      ensures humans == InsertAll(old(humans), HumanCohort(parameters, DrawnPoint(environment.order, draw), HumanCount(parameters)), HumanId)
      ensures mosquitos == InsertAll(old(mosquitos), MosquitoCohort(parameters, DrawnPoint(environment.order, draw), MosquitoCount(parameters)), MosquitoId)
      ensures old(humans) == [] ==> humans == HumanCohort(parameters, DrawnPoint(environment.order, draw), HumanCount(parameters))
      ensures old(mosquitos) == [] ==> mosquitos == MosquitoCohort(parameters, DrawnPoint(environment.order, draw), MosquitoCount(parameters))
    {
      var hs := InsertHumanBlocks(parameters, DrawnPoint(environment.order, draw), humans);
      humans := hs;
      var ms := InsertMosquitoBlocks(parameters, DrawnPoint(environment.order, draw), mosquitos);
      mosquitos := ms;
      InsertedFresh(old(humans), old(mosquitos), parameters, DrawnPoint(environment.order, draw));
    }

    /**
     * `movement`: every human, then every mosquito, moves to the neighbour at
     * a drawn index of its point's ordered edge set; nothing else changes.
     */
    method Movement(cycle: nat, pick: (nat, nat, nat) -> nat)
      requires Valid(environment) && PicksInRange(pick)
      requires OnGraph(environment, humans, mosquitos)
      modifies this
      ensures humans == MoveHumans(environment, old(humans), cycle, pick)
      ensures mosquitos == MoveMosquitos(environment, old(mosquitos), |old(humans)|, cycle, pick)
    {
      var hs := MoveAllHumans(environment, humans, cycle, pick);
      var ms := MoveAllMosquitos(environment, mosquitos, |humans|, cycle, pick);
      humans, mosquitos := hs, ms;
    }

    /** `contact`: it only lists the stored points, in iteration order; the agents are untouched. */
    method Contact() returns (listing: seq<(nat, Point)>)
      requires Listed(environment.points, environment.order)
      ensures |listing| == Size(environment)
      ensures forall k :: 0 <= k < |listing| ==>
                listing[k].0 == NthPointId(environment, k) && listing[k].1 == GetPoints(environment)[listing[k].0]
    {
      SizeIsOrderLength(environment);
      var points := GetPoints(environment);
      listing := [];
      for k := 0 to |environment.order|
        invariant |listing| == k
        invariant forall j :: 0 <= j < k ==>
                    listing[j].0 == NthPointId(environment, j) && listing[j].1 == points[listing[j].0]
      {
        var id := environment.order[k];
        listing := listing + [(id, points[id])];
      }
    }

    /** `transition`: its body is empty. */
    method Transition()
      ensures humans == old(humans) && mosquitos == old(mosquitos)
    {
    }

    /**
     * `run`: one insertion, then exactly `cycles` rounds of movement,
     * contact and transition.
     */
    method Run(draw: nat -> nat, pick: (nat, nat, nat) -> nat)
      requires Valid(environment) && PicksInRange(pick)
      requires DrawsInRange(environment, parameters, draw)
      requires parameters.cycles > 0 ==> OnGraph(environment, humans, mosquitos)
      requires parameters.cycles > 0 ==> PositionsOnGraph(environment, parameters, DrawnPoint(environment.order, draw))
      modifies this
      ensures var hs := InsertAll(old(humans), HumanCohort(parameters, DrawnPoint(environment.order, draw), HumanCount(parameters)), HumanId);
              var ms := InsertAll(old(mosquitos), MosquitoCohort(parameters, DrawnPoint(environment.order, draw), MosquitoCount(parameters)), MosquitoId);
              parameters.cycles > 0 ==> OnGraph(environment, hs, ms) && (humans, mosquitos) == Cycles(environment, hs, ms, parameters.cycles, pick)
      ensures parameters.cycles == 0 ==>
                humans == InsertAll(old(humans), HumanCohort(parameters, DrawnPoint(environment.order, draw), HumanCount(parameters)), HumanId)
                && mosquitos == InsertAll(old(mosquitos), MosquitoCohort(parameters, DrawnPoint(environment.order, draw), MosquitoCount(parameters)), MosquitoId)
    {
      var cycles := parameters.cycles;
      ghost var hs0, ms0 := humans, mosquitos;
      Insertion(draw);
      if cycles > 0 {
        InsertionOnGraph(environment, parameters, hs0, ms0, DrawnPoint(environment.order, draw));
      }
      ghost var hs, ms := humans, mosquitos;
      for i := 0 to cycles
        invariant cycles > 0 ==> OnGraph(environment, hs, ms)
        invariant cycles > 0 ==> (humans, mosquitos) == Cycles(environment, hs, ms, i, pick)
        invariant cycles == 0 ==> humans == hs && mosquitos == ms
      {
        Movement(i, pick);
        var _ := Contact();
        Transition();
      }
    }
  }

  /** Every point the insertion places an agent on has an adjacency entry. */
  ghost predicate PositionsOnGraph(e: Environment, p: Parameters, position: nat -> nat) {
    forall k :: 0 <= k < HumanCount(p) + MosquitoCount(p) ==> position(k) in e.edges
  }

  /** Agents inserted at drawn points with an adjacency entry join agents that have one. */
  lemma InsertionOnGraph(e: Environment, p: Parameters, hs0: seq<Human>, ms0: seq<Mosquito>, position: nat -> nat)
    requires OnGraph(e, hs0, ms0) && PositionsOnGraph(e, p, position)
    ensures OnGraph(e,
                    InsertAll(hs0, HumanCohort(p, position, HumanCount(p)), HumanId),
                    InsertAll(ms0, MosquitoCohort(p, position, MosquitoCount(p)), MosquitoId))
  {
    HumanCohortShape(p, position, HumanCount(p));
    MosquitoCohortShape(p, position, MosquitoCount(p));
    InsertAllKeeps(hs0, HumanCohort(p, position, HumanCount(p)), HumanId, (h: Human) => h.position in e.edges);
    InsertAllKeeps(ms0, MosquitoCohort(p, position, MosquitoCount(p)), MosquitoId, (m: Mosquito) => m.position in e.edges);
  }

  /** Into empty containers the cohorts, whose ids are distinct, go in whole and in order. */
  lemma InsertedFresh(hs0: seq<Human>, ms0: seq<Mosquito>, p: Parameters, position: nat -> nat)
    ensures HumansAfter(hs0, p, position, HumanCount(p)) == InsertAll(hs0, HumanCohort(p, position, HumanCount(p)), HumanId)
    ensures MosquitosAfter(ms0, p, position, MosquitoCount(p)) == InsertAll(ms0, MosquitoCohort(p, position, MosquitoCount(p)), MosquitoId)
    ensures hs0 == [] ==> InsertAll(hs0, HumanCohort(p, position, HumanCount(p)), HumanId) == HumanCohort(p, position, HumanCount(p))
    ensures ms0 == [] ==> InsertAll(ms0, MosquitoCohort(p, position, MosquitoCount(p)), MosquitoId) == MosquitoCohort(p, position, MosquitoCount(p))
  {
    HumansAfterInsertsCohort(hs0, p, position, HumanCount(p));
    MosquitosAfterInsertsCohort(ms0, p, position, MosquitoCount(p));
    HumanCohortShape(p, position, HumanCount(p));
    MosquitoCohortShape(p, position, MosquitoCount(p));
    if hs0 == [] {
      InsertAllFresh(hs0, HumanCohort(p, position, HumanCount(p)), HumanId);
    }
    if ms0 == [] {
      InsertAllFresh(ms0, MosquitoCohort(p, position, MosquitoCount(p)), MosquitoId);
    }
  }

  /** The containers the loops build are the cohorts inserted one by one. */
  lemma {:induction false} HumansAfterInsertsCohort(before: seq<Human>, p: Parameters, position: nat -> nat, n: nat)
    ensures HumansAfter(before, p, position, n) == InsertAll(before, HumanCohort(p, position, n), HumanId)
  {
    if n > 0 {
      HumansAfterInsertsCohort(before, p, position, n - 1);
      var h := SimulatorHuman.Human(HumanStateAt(p, n - 1), n - 1, position(n - 1));
      InsertStep(before, HumanCohort(p, position, n - 1), h, HumanId);
    }
  }

  /** The containers the loops build are the cohorts inserted one by one. */
  lemma {:induction false} MosquitosAfterInsertsCohort(before: seq<Mosquito>, p: Parameters, position: nat -> nat, n: nat)
    ensures MosquitosAfter(before, p, position, n) == InsertAll(before, MosquitoCohort(p, position, n), MosquitoId)
  {
    if n > 0 {
      MosquitosAfterInsertsCohort(before, p, position, n - 1);
      var m := SimulatorMosquito.Mosquito(MosquitoStateAt(p, n - 1), n - 1, position(HumanCount(p) + n - 1), 0);
      InsertStep(before, MosquitoCohort(p, position, n - 1), m, MosquitoId);
    }
  }

  /** One insertion step extends the inserted prefix by its next element. */
  lemma InsertStep<T>(xs: seq<T>, ys: seq<T>, y: T, id: T -> nat)
    ensures InsertAll(xs, ys + [y], id) == Insert(InsertAll(xs, ys, id), y, id)
  {
    assert (ys + [y])[..|ys|] == ys;
  }

  /** A property every present and every inserted element has holds after the insertions. */
  lemma {:induction false} InsertAllKeeps<T>(xs: seq<T>, ys: seq<T>, id: T -> nat, P: T -> bool)
    requires forall i :: 0 <= i < |xs| ==> P(xs[i])
    requires forall i :: 0 <= i < |ys| ==> P(ys[i])
    ensures forall i :: 0 <= i < |InsertAll(xs, ys, id)| ==> P(InsertAll(xs, ys, id)[i])
  {
    if ys != [] {
      InsertAllKeeps(xs, ys[..|ys| - 1], id, P);
    }
  }
}
