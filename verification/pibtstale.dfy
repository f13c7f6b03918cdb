/**
 * A run of the map-based MAPD step in which the planning loop calls `pibt` again for agents
 * that recursion has already planned, and two agents end up trading cells.
 *
 * Four agents on a 4 x 3 grid with cell (2, 2) blocked, already in priority order:
 * agent 0 carries to (0, 2) from (0, 0); agents 1, 2 and 3 head for the pickups (2, 1),
 * (3, 2) and (0, 0) from (0, 1), (1, 1) and (1, 2).
 *
 *  1. `pibt(0)` pushes 1, which pushes 2; 2 takes (2, 1), 1 takes (1, 1), 0 takes (0, 1).
 *  2. `pibt(1)` again: (1, 1) and (0, 1) are planned, so 1 re-plans to (0, 2), freeing (1, 1).
 *  3. `pibt(2)` again: (2, 1) is its own planned cell, so it pushes 3 off (1, 2); 3 skips
 *     (0, 2) and takes (1, 1), whose occupant 2 has a plan; 2 then re-plans to (1, 2).
 *  4. `pibt(3)` again: every candidate of 3 is planned, so nothing changes.
 *
 * Agents 2 and 3 now trade (1, 1) and (1, 2): the swap test of step 3 saw agent 2's stale
 * entry (1, 1) -> (2, 1), which the same call then overwrote.
 */
module PibtStale {
  import opened Wrappers
  import opened Decimal
  import opened PibtMaps
  import opened PibtPlanning
  import Ordering

  const G := Grid(4, 3, {"2,2"})

  const Fleet := [
    Agent(1, Vec(0, 0), Carrying, Some(10)),
    Agent(2, Vec(0, 1), ToPickup, Some(11)),
    Agent(3, Vec(1, 1), ToPickup, Some(12)),
    Agent(4, Vec(1, 2), ToPickup, Some(13))
  ]

  const Jobs := [
    Task(10, Vec(0, 0), Vec(0, 2), Some(1), true, false),
    Task(11, Vec(2, 1), Vec(3, 0), Some(2), false, false),
    Task(12, Vec(3, 2), Vec(3, 0), Some(3), false, false),
    Task(13, Vec(0, 0), Vec(3, 0), Some(4), false, false)
  ]

  /** The plan after the first call, `pibt(0)`. */
  const PlanA: map<nat, Vec> := map[0 := Vec(0, 1), 1 := Vec(1, 1), 2 := Vec(2, 1)]
  /** The plan after the second call, `pibt(1)`. */
  const PlanB: map<nat, Vec> := map[0 := Vec(0, 1), 1 := Vec(0, 2), 2 := Vec(2, 1)]
  /** The plan after the third call, `pibt(2)`, and after the fourth. */
  const PlanC: map<nat, Vec> := map[0 := Vec(0, 1), 1 := Vec(0, 2), 2 := Vec(1, 2), 3 := Vec(1, 1)]

  // Sorting small lists by an arbitrary key.

  lemma Cons<T>(x: T, t: seq<T>, key: T -> real)
    ensures Ordering.SortBy([x] + t, key) == Ordering.InsertBy(x, Ordering.SortBy(t, key), key)
  {
    assert ([x] + t)[1..] == t;
  }

  lemma Front<T>(x: T, s: seq<T>, key: T -> real)
    requires s == [] || key(x) <= key(s[0])
    ensures Ordering.InsertBy(x, s, key) == [x] + s
  {
  }

  lemma Past<T>(x: T, y: T, s: seq<T>, key: T -> real)
    requires key(x) > key(y)
    ensures Ordering.InsertBy(x, [y] + s, key) == [y] + Ordering.InsertBy(x, s, key)
  {
    assert ([y] + s)[1..] == s;
  }

  lemma One<T>(x: T, key: T -> real)
    ensures Ordering.SortBy([x], key) == [x]
  {
    Cons(x, [], key);
  }

  lemma Sort3<T>(x: T, y: T, z: T, key: T -> real)
    requires key(y) < key(z) < key(x)
    ensures Ordering.SortBy([x, y, z], key) == [y, z, x]
  {
    assert [x, y, z] == [x] + ([y] + [z]) && [y, z, x] == [y] + ([z] + ([x] + []));
    One(z, key);
    Cons(y, [z], key);
    Front(y, [z], key);
    Cons(x, [y] + [z], key);
    Past(x, y, [z], key);
    Past(x, z, [], key);
    Front(x, [], key);
  }

  lemma Sorted3<T>(x: T, y: T, z: T, key: T -> real)
    requires key(x) <= key(y) <= key(z)
    ensures Ordering.SortBy([x, y, z], key) == [x, y, z]
  {
    One(z, key);
    Cons(y, [z], key);
    Front(y, [z], key);
    assert [y] + [z] == [y, z];
    Cons(x, [y, z], key);
    Front(x, [y, z], key);
    assert [x] + [y, z] == [x, y, z];
  }

  lemma Lit4<T>(a: T, b: T, c: T, d: T)
    ensures [a, b, c, d] == [a] + ([b] + ([c] + [d]))
  {
  }

  lemma Lit5<T>(a: T, b: T, c: T, d: T, e: T)
    ensures [a, b, c, d, e] == [a] + ([b] + ([c] + ([d] + [e])))
  {
  }

  lemma Sort4<T>(a: T, b: T, c: T, d: T, key: T -> real)
    requires key(a) < key(d) < key(b) == key(c)
    ensures Ordering.SortBy([a, b, c, d], key) == [a, d, b, c]
  {
    Lit4(a, b, c, d);
    Lit4(a, d, b, c);
    One(d, key);
    Cons(c, [d], key);
    Past(c, d, [], key);
    Front(c, [], key);
    var cd := [d] + ([c] + []);
    assert Ordering.SortBy([c] + [d], key) == cd;
    Cons(b, [c] + [d], key);
    Past(b, d, [c] + [], key);
    Front(b, [c] + [], key);
    var bcd := [d] + ([b] + ([c] + []));
    assert Ordering.SortBy([b] + ([c] + [d]), key) == bcd;
    Cons(a, [b] + ([c] + [d]), key);
    Front(a, bcd, key);
    assert [c] + [] == [c];
  }

  lemma Sort5<T>(a: T, b: T, c: T, d: T, e: T, key: T -> real)
    requires key(a) == key(c) < key(e) < key(b) == key(d)
    ensures Ordering.SortBy([a, b, c, d, e], key) == [a, c, e, b, d]
  {
    Lit5(a, b, c, d, e);
    Lit5(a, c, e, b, d);
    One(e, key);
    Cons(d, [e], key);
    Past(d, e, [], key);
    Front(d, [], key);
    var ed := [e] + ([d] + []);
    assert Ordering.SortBy([d] + [e], key) == ed;
    Cons(c, [d] + [e], key);
    Front(c, ed, key);
    var ced := [c] + ed;
    assert Ordering.SortBy([c] + ([d] + [e]), key) == ced;
    Cons(b, [c] + ([d] + [e]), key);
    Past(b, c, ed, key);
    Past(b, e, [d] + [], key);
    Front(b, [d] + [], key);
    var cebd := [c] + ([e] + ([b] + ([d] + [])));
    assert Ordering.SortBy([b] + ([c] + ([d] + [e])), key) == cebd;
    Cons(a, [b] + ([c] + ([d] + [e])), key);
    Front(a, cebd, key);
    assert [d] + [] == [d];
  }

  // The grid.

  lemma BlockedKey()
    ensures K(Vec(2, 2)) == "2,2"
  {
    assert NatToString(2) == [DigitChar(2)];
  }

  lemma Blocked()
    ensures !Walkable(G, Vec(2, 2))
    ensures Kept(G, Vec(2, 2)) == []
  {
    BlockedKey();
  }

  lemma Open(q: Vec)
    requires Inb(G, q) && q != Vec(2, 2)
    ensures Walkable(G, q)
    ensures Kept(G, q) == [q]
  {
    BlockedKey();
    KeyInjective(q, Vec(2, 2));
  }

  lemma Outside(q: Vec)
    requires !Inb(G, q)
    ensures Kept(G, q) == []
  {
  }

  function Kept(g: Grid, q: Vec): seq<Vec>
  {
    if Walkable(g, q) then [q] else []
  }

  /** The filter over four cells, one cell at a time. */
  lemma Walk4(g: Grid, a: Vec, b: Vec, c: Vec, d: Vec)
    ensures Walkables(g, [a, b, c, d]) == Kept(g, a) + (Kept(g, b) + (Kept(g, c) + Kept(g, d)))
  {
    var s := [a, b, c, d];
    assert s[4..] == [];
    assert Walkables(g, s[3..]) == Kept(g, d) + Walkables(g, s[4..]) == Kept(g, d);
    assert Walkables(g, s[2..]) == Kept(g, c) + Walkables(g, s[3..]);
    assert Walkables(g, s[1..]) == Kept(g, b) + Walkables(g, s[2..]);
    assert Walkables(g, s) == Kept(g, a) + Walkables(g, s[1..]);
  }

  /** The walkable side neighbours of (0, 0): (-1, 0) and (0, -1) lie outside. */
  lemma Sides0()
    ensures Walkables(G, Sides(Vec(0, 0))) == [Vec(1, 0), Vec(0, 1)]
  {
    Walk4(G, Vec(1, 0), Vec(-1, 0), Vec(0, 1), Vec(0, -1));
    Open(Vec(1, 0));
    Outside(Vec(-1, 0));
    Open(Vec(0, 1));
    Outside(Vec(0, -1));
  }

  lemma Sides1()
    ensures Walkables(G, Sides(Vec(0, 1))) == [Vec(1, 1), Vec(0, 2), Vec(0, 0)]
  {
    Walk4(G, Vec(1, 1), Vec(-1, 1), Vec(0, 2), Vec(0, 0));
    Open(Vec(1, 1));
    Outside(Vec(-1, 1));
    Open(Vec(0, 2));
    Open(Vec(0, 0));
  }

  lemma Sides2()
    ensures Walkables(G, Sides(Vec(1, 1))) == [Vec(2, 1), Vec(0, 1), Vec(1, 2), Vec(1, 0)]
  {
    Walk4(G, Vec(2, 1), Vec(0, 1), Vec(1, 2), Vec(1, 0));
    Open(Vec(2, 1));
    Open(Vec(0, 1));
    Open(Vec(1, 2));
    Open(Vec(1, 0));
  }

  /** (2, 2) is blocked and (1, 3) lies outside. */
  lemma Sides3()
    ensures Walkables(G, Sides(Vec(1, 2))) == [Vec(0, 2), Vec(1, 1)]
  {
    Walk4(G, Vec(2, 2), Vec(0, 2), Vec(1, 3), Vec(1, 1));
    Blocked();
    Open(Vec(0, 2));
    Outside(Vec(1, 3));
    Open(Vec(1, 1));
  }

  lemma Neigh0()
    ensures Neigh(G, Vec(0, 0)) == [Vec(1, 0), Vec(0, 1), Vec(0, 0)]
  {
    Sides0();
  }

  lemma Neigh1()
    ensures Neigh(G, Vec(0, 1)) == [Vec(1, 1), Vec(0, 2), Vec(0, 0), Vec(0, 1)]
  {
    Sides1();
  }

  lemma Neigh2()
    ensures Neigh(G, Vec(1, 1)) == [Vec(2, 1), Vec(0, 1), Vec(1, 2), Vec(1, 0), Vec(1, 1)]
  {
    Sides2();
  }

  lemma Neigh3()
    ensures Neigh(G, Vec(1, 2)) == [Vec(0, 2), Vec(1, 1), Vec(1, 2)]
  {
    Sides3();
  }

  /** The sort key of `q` towards `goal` is their distance, `dx` across plus `dy` along. */
  lemma Dist(gx: int, gy: int, qx: int, qy: int, dx: nat, dy: nat)
    requires qx - gx == dx || gx - qx == dx
    requires qy - gy == dy || gy - qy == dy
    ensures GoalKey(Vec(gx, gy))(Vec(qx, qy)) == (dx + dy) as real
  {
    assert Abs(qx - gx) == dx && Abs(qy - gy) == dy;
  }

  /** `chooseOrder` from the offered cells `n` of `cur` and their sorted order `r`. */
  lemma Chosen(cur: Vec, goal: Vec, n: seq<Vec>, r: seq<Vec>)
    requires Neigh(G, cur) == n && Ordering.SortBy(n, GoalKey(goal)) == r
    ensures ChooseOrder(G, cur, goal) == r
  {
  }

  // The candidate orders of the four agents, by distance to their targets.

  lemma Sorted0()
    ensures Ordering.SortBy([Vec(1, 0), Vec(0, 1), Vec(0, 0)], GoalKey(Vec(0, 2))) == [Vec(0, 1), Vec(0, 0), Vec(1, 0)]
  {
    Dist(0, 2, 1, 0, 1, 2);
    Dist(0, 2, 0, 1, 0, 1);
    Dist(0, 2, 0, 0, 0, 2);
    Sort3(Vec(1, 0), Vec(0, 1), Vec(0, 0), GoalKey(Vec(0, 2)));
  }

  lemma Sorted1()
    ensures Ordering.SortBy([Vec(1, 1), Vec(0, 2), Vec(0, 0), Vec(0, 1)], GoalKey(Vec(2, 1)))
      == [Vec(1, 1), Vec(0, 1), Vec(0, 2), Vec(0, 0)]
  {
    Dist(2, 1, 1, 1, 1, 0);
    Dist(2, 1, 0, 2, 2, 1);
    Dist(2, 1, 0, 0, 2, 1);
    Dist(2, 1, 0, 1, 2, 0);
    Sort4(Vec(1, 1), Vec(0, 2), Vec(0, 0), Vec(0, 1), GoalKey(Vec(2, 1)));
  }

  lemma Sorted2()
    ensures Ordering.SortBy([Vec(2, 1), Vec(0, 1), Vec(1, 2), Vec(1, 0), Vec(1, 1)], GoalKey(Vec(3, 2)))
      == [Vec(2, 1), Vec(1, 2), Vec(1, 1), Vec(0, 1), Vec(1, 0)]
  {
    Dist(3, 2, 2, 1, 1, 1);
    Dist(3, 2, 0, 1, 3, 1);
    Dist(3, 2, 1, 2, 2, 0);
    Dist(3, 2, 1, 0, 2, 2);
    Dist(3, 2, 1, 1, 2, 1);
    Sort5(Vec(2, 1), Vec(0, 1), Vec(1, 2), Vec(1, 0), Vec(1, 1), GoalKey(Vec(3, 2)));
  }

  lemma Sorted3Cells()
    ensures Ordering.SortBy([Vec(0, 2), Vec(1, 1), Vec(1, 2)], GoalKey(Vec(0, 0))) == [Vec(0, 2), Vec(1, 1), Vec(1, 2)]
  {
    Dist(0, 0, 0, 2, 0, 2);
    Dist(0, 0, 1, 1, 1, 1);
    Dist(0, 0, 1, 2, 1, 2);
    Sorted3(Vec(0, 2), Vec(1, 1), Vec(1, 2), GoalKey(Vec(0, 0)));
  }

  lemma Order0()
    ensures ChooseOrder(G, Vec(0, 0), Vec(0, 2)) == [Vec(0, 1), Vec(0, 0), Vec(1, 0)]
  {
    Neigh0();
    Sorted0();
    Chosen(Vec(0, 0), Vec(0, 2), [Vec(1, 0), Vec(0, 1), Vec(0, 0)], [Vec(0, 1), Vec(0, 0), Vec(1, 0)]);
  }

  lemma Order1()
    ensures ChooseOrder(G, Vec(0, 1), Vec(2, 1)) == [Vec(1, 1), Vec(0, 1), Vec(0, 2), Vec(0, 0)]
  {
    Neigh1();
    Sorted1();
    Chosen(Vec(0, 1), Vec(2, 1), [Vec(1, 1), Vec(0, 2), Vec(0, 0), Vec(0, 1)], [Vec(1, 1), Vec(0, 1), Vec(0, 2), Vec(0, 0)]);
  }

  lemma Order2()
    ensures ChooseOrder(G, Vec(1, 1), Vec(3, 2)) == [Vec(2, 1), Vec(1, 2), Vec(1, 1), Vec(0, 1), Vec(1, 0)]
  {
    Neigh2();
    Sorted2();
    Chosen(Vec(1, 1), Vec(3, 2), [Vec(2, 1), Vec(0, 1), Vec(1, 2), Vec(1, 0), Vec(1, 1)],
      [Vec(2, 1), Vec(1, 2), Vec(1, 1), Vec(0, 1), Vec(1, 0)]);
  }

  lemma Order3()
    ensures ChooseOrder(G, Vec(1, 2), Vec(0, 0)) == [Vec(0, 2), Vec(1, 1), Vec(1, 2)]
  {
    Neigh3();
    Sorted3Cells();
    Chosen(Vec(1, 2), Vec(0, 0), [Vec(0, 2), Vec(1, 1), Vec(1, 2)], [Vec(0, 2), Vec(1, 1), Vec(1, 2)]);
  }

  // The fleet.

  lemma Fleet0()
    ensures Spread(Fleet)
    ensures forall i :: 0 <= i < |Fleet| ==> Known(Fleet[i], Jobs)
  {
    assert Jobs[0].id == 10 && Jobs[1].id == 11 && Jobs[2].id == 12 && Jobs[3].id == 13;
  }

  lemma Targets()
    ensures forall i :: 0 <= i < |Fleet| ==> Known(Fleet[i], Jobs)
    ensures TargetOf(Fleet[0], Jobs) == Vec(0, 2)
    ensures TargetOf(Fleet[1], Jobs) == Vec(2, 1)
    ensures TargetOf(Fleet[2], Jobs) == Vec(3, 2)
    ensures TargetOf(Fleet[3], Jobs) == Vec(0, 0)
  {
    Fleet0();
    assert TaskOf(Jobs, 10) == Some(0);
    assert TaskOf(Jobs, 11) == Some(1);
    assert TaskOf(Jobs, 12) == Some(2);
    assert TaskOf(Jobs, 13) == Some(3);
  }

  /** Each agent outranks the next, so a push always goes down the list. */
  lemma Ranks()
    ensures forall i :: 0 <= i < |Fleet| ==> Known(Fleet[i], Jobs)
    ensures Higher(Priority(Fleet[0], Jobs), Priority(Fleet[1], Jobs))
    ensures Higher(Priority(Fleet[1], Jobs), Priority(Fleet[2], Jobs))
    ensures Higher(Priority(Fleet[2], Jobs), Priority(Fleet[3], Jobs))
  {
    Targets();
    assert Priority(Fleet[0], Jobs) == Prio(3, 2, 1);
    assert Priority(Fleet[1], Jobs) == Prio(2, 2, 2);
    assert Priority(Fleet[2], Jobs) == Prio(2, 3, 3);
    assert Priority(Fleet[3], Jobs) == Prio(2, 3, 4);
  }

  lemma Occupants()
    ensures OccupantAt(Vec(0, 1), Fleet) == Some(1)
    ensures OccupantAt(Vec(1, 1), Fleet) == Some(2)
    ensures OccupantAt(Vec(1, 2), Fleet) == Some(3)
    ensures OccupantAt(Vec(2, 1), Fleet).None? && OccupantAt(Vec(0, 2), Fleet).None?
  {
  }

  // The outcomes of one candidate test, for any fleet.

  lemma SkipPlanned(aid: nat, c: Vec, agents: seq<Agent>, tasks: seq<Task>, plan: map<nat, Vec>, id: nat)
    requires aid < |agents| && forall i :: 0 <= i < |agents| ==> Known(agents[i], tasks)
    requires id in plan && plan[id] == c
    ensures Verdict(aid, c, agents, tasks, plan) == Skip
  {
  }

  lemma TakeOpen(aid: nat, c: Vec, agents: seq<Agent>, tasks: seq<Task>, plan: map<nat, Vec>)
    requires aid < |agents| && forall i :: 0 <= i < |agents| ==> Known(agents[i], tasks)
    requires c !in plan.Values && !Swap(agents[aid].pos, c, plan, agents)
    requires OccupantAt(c, agents).None? || OccupantAt(c, agents).value in plan
    ensures Verdict(aid, c, agents, tasks, plan) == Take
  {
  }

  lemma PushDown(aid: nat, c: Vec, agents: seq<Agent>, tasks: seq<Task>, plan: map<nat, Vec>, o: nat)
    requires aid < |agents| && forall i :: 0 <= i < |agents| ==> Known(agents[i], tasks)
    requires c !in plan.Values && !Swap(agents[aid].pos, c, plan, agents)
    requires OccupantAt(c, agents) == Some(o) && o !in plan
    requires Higher(Priority(agents[aid], tasks), Priority(agents[o], tasks))
    ensures Verdict(aid, c, agents, tasks, plan) == Push(o)
  {
  }

  // The cells each call finds free of planned moves.

  lemma FreeA()
    ensures Vec(0, 2) !in PlanA.Values && !Swap(Vec(0, 1), Vec(0, 2), PlanA, Fleet)
  {
    assert forall id :: id in PlanA ==> id == 0 || id == 1 || id == 2;
  }

  lemma FreeB()
    ensures Vec(1, 2) !in PlanB.Values && !Swap(Vec(1, 1), Vec(1, 2), PlanB, Fleet)
    ensures Vec(1, 1) !in PlanB.Values && !Swap(Vec(1, 2), Vec(1, 1), PlanB, Fleet)
  {
    KeysB();
  }

  // The four calls of the planning loop.

  predicate Fit()
  {
    forall i :: 0 <= i < |Fleet| ==> Known(Fleet[i], Jobs)
  }

  /** The candidate orders of the four agents. */
  const Cand0 := [Vec(0, 1), Vec(0, 0), Vec(1, 0)]
  const Cand1 := [Vec(1, 1), Vec(0, 1), Vec(0, 2), Vec(0, 0)]
  const Cand2 := [Vec(2, 1), Vec(1, 2), Vec(1, 1), Vec(0, 1), Vec(1, 0)]
  const Cand3 := [Vec(0, 2), Vec(1, 1), Vec(1, 2)]

  /** The agents' targets, and the candidate orders `chooseOrder` gives them. */
  predicate Offers()
  {
    && Fit()
    && TargetOf(Fleet[0], Jobs) == Vec(0, 2) && ChooseOrder(G, Fleet[0].pos, Vec(0, 2)) == Cand0
    && TargetOf(Fleet[1], Jobs) == Vec(2, 1) && ChooseOrder(G, Fleet[1].pos, Vec(2, 1)) == Cand1
    && TargetOf(Fleet[2], Jobs) == Vec(3, 2) && ChooseOrder(G, Fleet[2].pos, Vec(3, 2)) == Cand2
    && TargetOf(Fleet[3], Jobs) == Vec(0, 0) && ChooseOrder(G, Fleet[3].pos, Vec(0, 0)) == Cand3
  }

  /**
   * `pibt(0)` on the empty plan: 0 pushes 1 off its first candidate (0, 1), 1 pushes 2 off its
   * first candidate (1, 1), and 2 takes its first candidate (2, 1); the plan becomes `PlanA`.
   */
  predicate FirstCall()
  {
    && Fit()
    && Verdict(0, Cand0[0], Fleet, Jobs, map[]) == Push(1)
    && Verdict(1, Cand1[0], Fleet, Jobs, map[]) == Push(2)
    && Verdict(2, Cand2[0], Fleet, Jobs, map[]) == Take
    && PlanA == map[2 := Cand2[0]][1 := Cand1[0]][0 := Cand0[0]]
  }

  /** `pibt(1)` again: its first two candidates are planned cells, the third is free. */
  predicate SecondCall()
  {
    && Fit()
    && Verdict(1, Cand1[0], Fleet, Jobs, PlanA) == Skip
    && Verdict(1, Cand1[1], Fleet, Jobs, PlanA) == Skip
    && Verdict(1, Cand1[2], Fleet, Jobs, PlanA) == Take
    && PlanB == PlanA[1 := Cand1[2]]
  }

  /**
   * `pibt(2)` again: its own planned cell is skipped, 3 is pushed off (1, 2), 3 skips the
   * planned (0, 2) and takes (1, 1) because 2 has a plan, and 2 re-plans onto (1, 2).
   */
  predicate ThirdCall()
  {
    && Pushed()
    && Taken()
    && PlanC == PlanB[3 := Cand3[1]][2 := Cand2[1]]
  }

  /** Agent 2 skips its own planned cell and pushes 3 off the next. */
  predicate Pushed()
  {
    && Fit()
    && Verdict(2, Cand2[0], Fleet, Jobs, PlanB) == Skip
    && Verdict(2, Cand2[1], Fleet, Jobs, PlanB) == Push(3)
  }

  /** Agent 3 skips the planned (0, 2) and takes (1, 1), whose occupant 2 has a plan. */
  predicate Taken()
  {
    && Fit()
    && Verdict(3, Cand3[0], Fleet, Jobs, PlanB) == Skip
    && Verdict(3, Cand3[1], Fleet, Jobs, PlanB) == Take
  }

  /** `pibt(3)` again: every candidate is planned, so the call fails and the plan stays. */
  predicate FourthCall()
  {
    && Fit()
    && forall k :: 0 <= k < |Cand3| ==> Verdict(3, Cand3[k], Fleet, Jobs, PlanC) == Skip
  }

  lemma Offered()
    ensures Offers()
  {
    Fleet0();
    Targets();
    Order0();
    Order1();
    Order2();
    Order3();
  }

  lemma First()
    ensures FirstCall()
  {
    FirstPushes();
    FirstTake();
    PlanABuilt();
  }

  lemma PlanABuilt()
    ensures PlanA == map[2 := Cand2[0]][1 := Cand1[0]][0 := Cand0[0]]
  {
  }

  lemma FirstPushes()
    ensures Fit()
    ensures Verdict(0, Vec(0, 1), Fleet, Jobs, map[]) == Push(1)
    ensures Verdict(1, Vec(1, 1), Fleet, Jobs, map[]) == Push(2)
  {
    FirstPush(0, Vec(0, 1), 1);
    FirstPush(1, Vec(1, 1), 2);
  }

  /** On the empty plan agent `aid` pushes the next agent `aid + 1` off `c`. */
  lemma FirstPush(aid: nat, c: Vec, o: nat)
    requires aid < 2 && o == aid + 1 && c == Fleet[o].pos
    ensures Fit()
    ensures Verdict(aid, c, Fleet, Jobs, map[]) == Push(o)
  {
    Ranks();
    Fleet0();
    OccupantOfOwnCell(Fleet, o);
    assert !Swap(Fleet[aid].pos, c, map[], Fleet);
    PushDown(aid, c, Fleet, Jobs, map[], o);
  }

  lemma FirstTake()
    ensures Fit()
    ensures Verdict(2, Vec(2, 1), Fleet, Jobs, map[]) == Take
  {
    Fleet0();
    Occupants();
    TakeOpen(2, Vec(2, 1), Fleet, Jobs, map[]);
  }

  lemma Second()
    ensures SecondCall()
  {
    Fleet0();
    SkipPlanned(1, Vec(1, 1), Fleet, Jobs, PlanA, 1);
    SkipPlanned(1, Vec(0, 1), Fleet, Jobs, PlanA, 0);
    SecondTake();
    PlanBBuilt();
  }

  lemma SecondTake()
    ensures Fit()
    ensures Verdict(1, Vec(0, 2), Fleet, Jobs, PlanA) == Take
  {
    Fleet0();
    Occupants();
    FreeA();
    TakeOpen(1, Vec(0, 2), Fleet, Jobs, PlanA);
  }

  lemma PlanBBuilt()
    ensures PlanB == PlanA[1 := Cand1[2]]
  {
  }

  lemma Third()
    ensures ThirdCall()
  {
    ThirdPush();
    ThirdTake();
    PlanCBuilt();
  }

  lemma PlanCBuilt()
    ensures PlanC == PlanB[3 := Cand3[1]][2 := Cand2[1]]
  {
  }

  lemma ThirdPush()
    ensures Pushed()
  {
    Fleet0();
    SkipPlanned(2, Vec(2, 1), Fleet, Jobs, PlanB, 2);
    ThirdPushDown();
  }

  lemma ThirdPushDown()
    ensures Fit()
    ensures Verdict(2, Vec(1, 2), Fleet, Jobs, PlanB) == Push(3)
  {
    Ranks();
    Occupants();
    FreeB();
    KeysB();
    assert 3 !in PlanB && Fleet[2].pos == Vec(1, 1);
    PushDown(2, Vec(1, 2), Fleet, Jobs, PlanB, 3);
  }

  lemma ThirdTake()
    ensures Taken()
  {
    Fleet0();
    SkipPlanned(3, Vec(0, 2), Fleet, Jobs, PlanB, 1);
    ThirdTakeOpen();
  }

  lemma ThirdTakeOpen()
    ensures Fit()
    ensures Verdict(3, Vec(1, 1), Fleet, Jobs, PlanB) == Take
  {
    Fleet0();
    Occupants();
    FreeB();
    TakeOpen(3, Vec(1, 1), Fleet, Jobs, PlanB);
  }

  lemma Fourth()
    ensures FourthCall()
  {
    Fleet0();
    SkipPlanned(3, Vec(0, 2), Fleet, Jobs, PlanC, 1);
    SkipPlanned(3, Vec(1, 1), Fleet, Jobs, PlanC, 3);
    SkipPlanned(3, Vec(1, 2), Fleet, Jobs, PlanC, 2);
  }

  lemma KeysB()
    ensures forall id :: id in PlanB ==> id == 0 || id == 1 || id == 2
  {
  }

  lemma KeysC()
    ensures forall id :: id in PlanC ==> id == 0 || id == 1 || id == 2 || id == 3
  {
  }

  lemma In0(c: Vec)
    requires c == Vec(0, 1)
    ensures c in Neigh(G, Fleet[0].pos)
  {
    Neigh0();
  }

  lemma In1(c: Vec)
    requires c == Vec(1, 1) || c == Vec(0, 2)
    ensures c in Neigh(G, Fleet[1].pos)
  {
    Neigh1();
  }

  lemma In2(c: Vec)
    requires c == Vec(2, 1) || c == Vec(1, 2)
    ensures c in Neigh(G, Fleet[2].pos)
  {
    Neigh2();
  }

  lemma In3(c: Vec)
    requires c == Vec(1, 1)
    ensures c in Neigh(G, Fleet[3].pos)
  {
    Neigh3();
  }

  lemma StepsB()
    ensures Steps(G, Fleet, PlanB)
  {
    forall i | i in PlanB
      ensures i < |Fleet| && PlanB[i] in Neigh(G, Fleet[i].pos)
    {
      KeysB();
      if i == 0 {
        In0(PlanB[0]);
      } else if i == 1 {
        In1(PlanB[1]);
      } else {
        In2(PlanB[2]);
      }
    }
  }

  lemma StepsC()
    ensures Steps(G, Fleet, PlanC)
  {
    forall i | i in PlanC
      ensures i < |Fleet| && PlanC[i] in Neigh(G, Fleet[i].pos)
    {
      KeysC();
      if i == 0 {
        In0(PlanC[0]);
      } else if i == 1 {
        In1(PlanC[1]);
      } else if i == 2 {
        In2(PlanC[2]);
      } else {
        In3(PlanC[3]);
      }
    }
  }

  lemma InjectiveB()
    ensures Injective(PlanB)
  {
    KeysB();
  }

  lemma InjectiveC()
    ensures Injective(PlanC)
  {
    KeysC();
  }

  lemma FollowsB()
    ensures Injective(PlanB) && Follows(Fleet, PlanB)
  {
    InjectiveB();
    forall i | i in PlanB
      ensures OccupantAt(PlanB[i], Fleet).None? || OccupantAt(PlanB[i], Fleet).value in PlanB
    {
      KeysB();
      Occupants();
      if i == 0 {
        assert PlanB[i] == Vec(0, 1);
      } else if i == 1 {
        assert PlanB[i] == Vec(0, 2);
      } else {
        assert PlanB[i] == Vec(2, 1);
      }
    }
  }

  lemma FollowsC()
    ensures Injective(PlanC) && Follows(Fleet, PlanC)
  {
    InjectiveC();
    forall i | i in PlanC
      ensures OccupantAt(PlanC[i], Fleet).None? || OccupantAt(PlanC[i], Fleet).value in PlanC
    {
      KeysC();
      Occupants();
      if i == 0 {
        assert PlanC[i] == Vec(0, 1);
      } else if i == 1 {
        assert PlanC[i] == Vec(0, 2);
      } else if i == 2 {
        assert PlanC[i] == Vec(1, 2);
      } else {
        assert PlanC[i] == Vec(1, 1);
      }
    }
  }

  /** Before the third call the plan is sound and swap-free. */
  lemma BeforeThird()
    ensures Planned(G, Fleet, PlanB) && NoSwap(Fleet, PlanB)
  {
    StepsB();
    FollowsB();
    KeysB();
  }

  /** Agents 2 and 3 move onto each other's cells. */
  lemma Traded()
    ensures !NoSwap(Fleet, PlanC)
  {
    assert 2 in PlanC && 3 in PlanC;
    assert PlanC[2] == Fleet[3].pos && PlanC[3] == Fleet[2].pos;
  }

  /** After it the plan is still sound, but agents 2 and 3 trade cells. */
  lemma AfterThird()
    ensures Planned(G, Fleet, PlanC) && !NoSwap(Fleet, PlanC)
  {
    StepsC();
    FollowsC();
    Traded();
  }

  /**
   * The planning loop as written, calling `pibt` for agents 0, 1, 2 and 3 in turn with a fresh
   * `visiting` each time, ends with agents 2 and 3 trading cells, although every plan entry is
   * an offered cell, no two agents share a cell and the plan was swap-free before the third call.
   */
  lemma StaleReplanSwaps()
    ensures Offers()
    ensures FirstCall() && SecondCall() && ThirdCall() && FourthCall()
    ensures Planned(G, Fleet, PlanB) && NoSwap(Fleet, PlanB)
    ensures Planned(G, Fleet, PlanC) && !NoSwap(Fleet, PlanC)
  {
    Offered();
    First();
    Second();
    Third();
    Fourth();
    BeforeThird();
    AfterThird();
  }
}
