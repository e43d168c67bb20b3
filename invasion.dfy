/** calculate_invasion: the distribution over the terminal states of an
    invasion, computed by a sweep over a grid of troop counts.

    Cell (x, y) of the grid stands for the state (aMin + x, dMin + y). The
    cells are visited diagonal by diagonal in decreasing x + y; a cell on the
    x == 0 or y == 0 edge is terminal and its mass is recorded as an outcome,
    any other cell is battled once and its mass is pushed to its successors:
    into their cells, or straight into the outcomes when a successor falls
    below a threshold and so has no cell. */
module Invasion {
  import opened Mass
  import opened Battle
  import opened Grid
  import opened Folds

  type Key = (int, int)

  /** The attacking force: one known count, or a distribution over counts. */
  datatype Start = Count(attackers: int) | Odds(odds: map<int, real>)

  /** What the grid needs of the start: no count below the retreat threshold,
      no negative mass. */
  predicate ValidStart(start: Start, aMin: int)
  {
    match start
    case Count(n) => n >= aMin
    case Odds(m) => forall a :: a in m ==> a >= aMin && m[a] >= 0.0
  }

  /** The mass the start puts on the attacker count a. */
  function SeedValue(start: Start, a: int): real
  {
    match start
    case Count(n) => if a == n then 1.0 else 0.0
    case Odds(m) => if a in m then m[a] else 0.0
  }

  /** The total mass the start puts into the grid. */
  ghost function SeedMass(start: Start): real
  {
    match start
    case Count(_) => 1.0
    case Odds(m) => Total(m)
  }

  /** The attacker count a is at most one of the starting counts. */
  ghost predicate WithinStart(start: Start, a: int)
  {
    match start
    case Count(n) => a <= n
    case Odds(m) => exists c :: c in m && a <= c
  }

  /** The highest starting attacker count, which sizes the grid. */
  method MaxAttackers(start: Start, aMin: int) returns (r: int)
    ensures start.Count? ==> r == start.attackers
    ensures start.Odds? && start.odds.Keys != {} ==>
      r in start.odds && forall a :: a in start.odds ==> a <= r
    ensures start.Odds? && start.odds.Keys == {} ==> r == aMin
    ensures r == TopCount(start, aMin)
  {
    match start
    case Count(n) =>
      r := n;
    case Odds(m) =>
      if m.Keys == {} {
        r := aMin;
      } else {
        var rest := m.Keys;
        r := Pick(rest);
        while rest != {}
          invariant rest <= m.Keys && r in m
          invariant forall a :: a in m && a !in rest ==> a <= r
          decreases rest
        {
          var a := Pick(rest);
          if a > r {
            r := a;
          }
          rest := rest - {a};
        }
      }
  }

  // ---- the maximum as written for a distribution start ----

  datatype Option<T> = None | Some(value: T)

  /** The keys of a distribution, each once, in some iteration order. */
  ghost function KeyList(m: map<int, real>): (r: seq<int>)
    ensures |r| == |m.Keys|
    ensures forall a :: a in r <==> a in m
    decreases |m.Keys|
  {
    if m.Keys == {} then []
    else
      var k := AnyOf(m.Keys);
      assert (m - {k}).Keys < m.Keys;
      [k] + KeyList(m - {k})
  }

  /** The largest of a non-empty list of counts. */
  function Largest(args: seq<int>): (r: int)
    requires args != []
    ensures r in args && forall a :: a in args ==> a <= r
  {
    if |args| == 1 then args[0]
    else
      var rest := Largest(args[1..]);
      assert args == [args[0]] + args[1..];
      if args[0] >= rest then args[0] else rest
  }

  /** Python's max with the keys of a distribution spread as separate
      arguments. Two or more arguments are compared with each other; a
      single argument is itself iterated, which a count cannot be, and no
      argument at all leaves nothing to compare: both raise a TypeError,
      modelled as None. */
  function StarMax(args: seq<int>): (r: Option<int>)
    ensures r.Some? <==> |args| >= 2
  {
    if |args| >= 2 then Some(Largest(args)) else None
  }

  /** With two or more counts the maximum as written is the maximum over
      the keys that MaxAttackers computes. */
  lemma StarMaxOfSeveral(m: map<int, real>)
    requires |m.Keys| >= 2
    ensures StarMax(KeyList(m)).Some?
    ensures StarMax(KeyList(m)).value in m
    ensures forall a :: a in m ==> a <= StarMax(KeyList(m)).value
  {
    var args := KeyList(m);
    assert StarMax(args) == Some(Largest(args));
  }

  /** With fewer than two counts the maximum as written raises. */
  lemma StarMaxOfFew(m: map<int, real>)
    requires |m.Keys| < 2
    ensures StarMax(KeyList(m)) == None
  {
    assert |KeyList(m)| < 2;
  }

  // ---- the grid seeded from the start ----

  /** The top row holds the mass of every key of m outside rest, and every
      other cell holds 0. */
  ghost predicate SeededBy(g: Cells, m: map<int, real>, rest: set<int>, aMin: int, xMax: nat, yMax: nat)
    requires Shaped(g, xMax, yMax)
  {
    forall i, j :: 0 <= i <= xMax && 0 <= j <= yMax ==>
      g[i][j] == if j == yMax && aMin + i in m && aMin + i !in rest then m[aMin + i] else 0.0
  }

  /** Seeding the cell of one more key adds exactly its mass. */
  lemma SeedStep(g: Cells, m: map<int, real>, rest: set<int>, a: int, aMin: int, xMax: nat, yMax: nat)
    requires Shaped(g, xMax, yMax) && a in rest && rest <= m.Keys && aMin <= a <= aMin + xMax
    requires SeededBy(g, m, rest, aMin, xMax, yMax)
    requires PendingMass(g, xMax + yMax + 1, 0) == Total(Seen(m, rest))
    ensures Shaped(Put(g, a - aMin, yMax, m[a]), xMax, yMax)
    ensures SeededBy(Put(g, a - aMin, yMax, m[a]), m, rest - {a}, aMin, xMax, yMax)
    ensures PendingMass(Put(g, a - aMin, yMax, m[a]), xMax + yMax + 1, 0) == Total(Seen(m, rest - {a}))
  {
    assert g[a - aMin][yMax] == 0.0;
    PendingPut(g, a - aMin, yMax, m[a], xMax + yMax + 1, 0);
    TotalSeenStep(m, rest, a);
  }

  /** Writes the starting mass into the top row (y == yMax) of a zeroed grid. */
  method SeedGrid(start: Start, aMin: int, xMax: nat, yMax: nat) returns (g: Cells)
    requires ValidStart(start, aMin)
    requires start.Count? ==> start.attackers == aMin + xMax
    requires start.Odds? ==> forall a :: a in start.odds ==> a <= aMin + xMax
    ensures Shaped(g, xMax, yMax)
    ensures forall i, j :: 0 <= i <= xMax && 0 <= j <= yMax ==>
      g[i][j] == if j == yMax then SeedValue(start, aMin + i) else 0.0
    ensures PendingMass(g, xMax + yMax + 1, 0) == SeedMass(start)
    ensures g == SeedCells(start, aMin, xMax, yMax)
  {
    g := seq(xMax + 1, i => seq(yMax + 1, j => 0.0));
    PendingEmpty(g, xMax + yMax + 1, 0);
    match start {
      case Count(n) =>
        PendingPut(g, xMax, yMax, 1.0, xMax + yMax + 1, 0);
        g := Put(g, xMax, yMax, 1.0);
      case Odds(m) =>
        var rest := m.Keys;
        assert Seen(m, rest) == map[];
        while rest != {}
          invariant rest <= m.Keys
          invariant Shaped(g, xMax, yMax)
          invariant SeededBy(g, m, rest, aMin, xMax, yMax)
          invariant PendingMass(g, xMax + yMax + 1, 0) == Total(Seen(m, rest))
          decreases rest
        {
          var a := Pick(rest);
          SeedStep(g, m, rest, a, aMin, xMax, yMax);
          g := Put(g, a - aMin, yMax, m[a]);
          rest := rest - {a};
        }
        assert Seen(m, rest) == m;
    }
    assert forall i, j :: 0 <= i <= xMax && 0 <= j <= yMax ==>
      g[i][j] == if j == yMax then SeedValue(start, aMin + i) else 0.0;
    SameCells(g, SeedCells(start, aMin, xMax, yMax), xMax, yMax);
  }

  // ---- the state of the sweep ----

  /** The thresholds and the extent of the grid. */
  datatype Bounds = Bounds(aMin: int, dMin: int, xMax: nat, yMax: nat)

  predicate InGrid(b: Bounds, i: int, j: int)
  {
    0 <= i <= b.xMax && 0 <= j <= b.yMax
  }

  /** A key the sweep may record: a terminal cell of the grid (on the x == 0
      or the y == 0 edge), an attacker count one below the retreat threshold,
      or a defender count one below the goal. */
  predicate ReachableKey(b: Bounds, k: Key)
  {
    && k.0 >= 0 && k.1 >= 0
    && ReachableShape(b, k)
  }

  predicate ReachableShape(b: Bounds, k: Key)
  {
    || (b.aMin <= k.0 <= b.aMin + b.xMax && b.dMin <= k.1 <= b.dMin + b.yMax
        && (k.0 == b.aMin || k.1 == b.dMin))
    || (k.0 == b.aMin - 1 && b.dMin < k.1 <= b.dMin + b.yMax && 1 <= b.xMax)
    || (k.1 == b.dMin - 1 && b.aMin < k.0 <= b.aMin + b.xMax && 1 <= b.yMax)
  }

  /** The only cell whose visit can record key k. */
  function Source(b: Bounds, k: Key): (int, int)
  {
    if k.0 == b.aMin - 1 then (1, k.1 - b.dMin)
    else if k.1 == b.dMin - 1 then (k.0 - b.aMin, 1)
    else (k.0 - b.aMin, k.1 - b.dMin)
  }

  /** Every cell has at least the mass it was seeded with, and that is not negative. */
  ghost predicate AboveSeed(b: Bounds, g: Cells, g0: Cells)
  {
    && Shaped(g, b.xMax, b.yMax) && Shaped(g0, b.xMax, b.yMax)
    && forall i, j {:trigger g[i][j]} :: InGrid(b, i, j) ==> g[i][j] >= g0[i][j] >= 0.0
  }

  /** Every recorded key is reachable, was recorded by a visited cell, and
      holds positive mass. */
  ghost predicate Settled(b: Bounds, out: map<Key, real>, s: int, x: int)
  {
    forall k :: k in out ==>
      && ReachableKey(b, k)
      && !Pending(Source(b, k).0, Source(b, k).1, s, x)
      && out[k] > 0.0
  }

  /** Every visited terminal cell that holds mass appears in the outcomes
      with exactly that mass. */
  ghost predicate EdgesRecorded(b: Bounds, g: Cells, out: map<Key, real>, s: int, x: int)
    requires Shaped(g, b.xMax, b.yMax)
  {
    forall i, j {:trigger g[i][j]} :: InGrid(b, i, j) && (i == 0 || j == 0) && !Pending(i, j, s, x) && g[i][j] != 0.0 ==>
      (b.aMin + i, b.dMin + j) in out && out[(b.aMin + i, b.dMin + j)] == g[i][j]
  }

  /** The sweep invariant at position (s, x): mass still in pending cells
      plus mass already recorded is the seeded mass. */
  ghost predicate Sweep(b: Bounds, g: Cells, g0: Cells, out: map<Key, real>, s: int, x: int, seeded: real)
  {
    && AboveSeed(b, g, g0)
    && PendingMass(g, s, x) + Total(out) == seeded
    && Settled(b, out, s, x)
    && EdgesRecorded(b, g, out, s, x)
  }

  /** The first column visited on diagonal s. */
  function Lo(b: Bounds, s: int): int
  {
    if s - b.yMax > 0 then s - b.yMax else 0
  }

  /** Once diagonal s is finished, the sweep stands at the start of diagonal s - 1. */
  lemma NextDiagonal(b: Bounds, g: Cells, g0: Cells, out: map<Key, real>, s: int, seeded: real)
    requires Sweep(b, g, g0, out, s, Min(b.xMax, s) + 1, seeded)
    ensures Sweep(b, g, g0, out, s - 1, Lo(b, s - 1), seeded)
  {
    var x, x' := Min(b.xMax, s) + 1, Lo(b, s - 1);
    assert forall i, j :: InGrid(b, i, j) ==> (Pending(i, j, s, x) <==> Pending(i, j, s - 1, x'));
    PendingSame(g, s, x, s - 1, x');
  }

  // ---- what the sweep computes ----

  /** A successor either falls below a threshold or has its own cell. */
  predicate Fits(b: Bounds, st: Successor)
  {
    st.attackers < b.aMin || st.defenders < b.dMin || InGrid(b, st.attackers - b.aMin, st.defenders - b.dMin)
  }

  /** One successor of a battle: below a threshold it is written into the
      outcomes under its own state, otherwise its mass is added to its cell.
      A successor with neither, which no battle produces (BattleFits), leaves
      everything as it is. */
  function PushOne(b: Bounds, g: Cells, out: map<Key, real>, st: Successor): (r: (Cells, map<Key, real>))
    requires Shaped(g, b.xMax, b.yMax)
    ensures Shaped(r.0, b.xMax, b.yMax)
  {
    if st.attackers < b.aMin || st.defenders < b.dMin then
      (g, out[(st.attackers, st.defenders) := st.chance])
    else if InGrid(b, st.attackers - b.aMin, st.defenders - b.dMin) then
      var i, j := st.attackers - b.aMin, st.defenders - b.dMin;
      (Put(g, i, j, g[i][j] + st.chance), out)
    else
      (g, out)
  }

  /** The successors of a battle pushed one after the other, in order. */
  function PushAll(b: Bounds, g: Cells, out: map<Key, real>, states: seq<Successor>): (r: (Cells, map<Key, real>))
    requires Shaped(g, b.xMax, b.yMax)
    ensures Shaped(r.0, b.xMax, b.yMax)
    decreases |states|
  {
    if states == [] then (g, out)
    else
      var p := PushAll(b, g, out, states[..|states| - 1]);
      PushOne(b, p.0, p.1, states[|states| - 1])
  }

  /** Every successor of an inner cell fits the grid or falls below a threshold. */
  lemma BattleFits(b: Bounds, x: int, y: int, prob: real)
    requires 0 <= b.aMin && 0 <= b.dMin && InGrid(b, x, y) && 1 <= x && 1 <= y
    ensures forall st :: st in Successors(b.aMin + x, b.dMin + y, prob) ==> Fits(b, st)
  {
    SuccessorsDecrease(b.aMin + x, b.dMin + y, prob);
  }

  /** The visit of cell (x, y): a cell without mass is skipped, an edge cell
      is recorded under its state, and an inner cell is battled and its
      successors pushed. */
  function VisitCell(b: Bounds, g: Cells, out: map<Key, real>, x: int, y: int): (r: (Cells, map<Key, real>))
    requires 0 <= b.aMin && 0 <= b.dMin
    requires Shaped(g, b.xMax, b.yMax) && InGrid(b, x, y)
    ensures Shaped(r.0, b.xMax, b.yMax)
  {
    var prob := g[x][y];
    if prob == 0.0 then (g, out)
    else if x == 0 || y == 0 then (g, out[(b.aMin + x, b.dMin + y) := prob])
    else
      PushAll(b, g, out, Successors(b.aMin + x, b.dMin + y, prob))
  }

  /** The visit of cell c from state p; a cell off the grid, which the
      sweep order never holds, is passed over. */
  function Step(b: Bounds, p: (Cells, map<Key, real>), c: (int, int)): (Cells, map<Key, real>)
  {
    if 0 <= b.aMin && 0 <= b.dMin && Shaped(p.0, b.xMax, b.yMax) && InGrid(b, c.0, c.1)
    then VisitCell(b, p.0, p.1, c.0, c.1)
    else p
  }

  /** The visit of one cell, as a step to fold over a list of cells. */
  function Visits(b: Bounds): ((Cells, map<Key, real>), (int, int)) -> (Cells, map<Key, real>)
  {
    (p: (Cells, map<Key, real>), c: (int, int)) => Step(b, p, c)
  }

  /** The visits of the given cells, one after the other. */
  function Run(b: Bounds, g: Cells, out: map<Key, real>, cells: seq<(int, int)>): (Cells, map<Key, real>)
  {
    Fold(Visits(b), (g, out), cells)
  }

  /** The cells of diagonal s in visiting order: x rising from Lo(b, s),
      y falling, while both stay in the grid. */
  function DiagonalCells(b: Bounds, s: int): seq<(int, int)>
    requires 0 <= s <= b.xMax + b.yMax
  {
    seq(Min(b.xMax, s) + 1 - Lo(b, s), k => (Lo(b, s) + k, s - (Lo(b, s) + k)))
  }

  /** The cells of the diagonals above s, from the top diagonal down. */
  function Done(b: Bounds, s: int): seq<(int, int)>
    requires -1 <= s <= b.xMax + b.yMax
    decreases b.xMax + b.yMax - s
  {
    if s == b.xMax + b.yMax then [] else Done(b, s + 1) + DiagonalCells(b, s + 1)
  }

  /** Every cell of the grid in the order the sweep visits them. */
  function SweepOrder(b: Bounds): seq<(int, int)>
  {
    Done(b, -1)
  }

  /** The diagonals of the grid from the top one down. */
  function Blocks(b: Bounds): seq<seq<(int, int)>>
  {
    seq(b.xMax + b.yMax + 1, i requires 0 <= i <= b.xMax + b.yMax => DiagonalCells(b, b.xMax + b.yMax - i))
  }

  /** The seeded grid: the starting mass in the top row, 0 elsewhere. */
  function SeedCells(start: Start, aMin: int, xMax: nat, yMax: nat): (g: Cells)
    ensures Shaped(g, xMax, yMax)
  {
    seq(xMax + 1, i => seq(yMax + 1, j => if j == yMax then SeedValue(start, aMin + i) else 0.0))
  }

  /** The largest starting count, or aMin for a start without counts. */
  ghost function TopCount(start: Start, aMin: int): int
  {
    match start
    case Count(n) => n
    case Odds(m) => if m.Keys == {} then aMin else Largest(KeyList(m))
  }

  /** What calculate_invasion computes: the outcomes of the sweep over the
      seeded grid. The grid has TopCount - aMin + 1 columns, which a valid
      start never makes fewer than one. */
  ghost function InvasionOutcomes(start: Start, defenders: int, aMin: int, dMin: int): map<Key, real>
    requires 0 <= aMin && 0 <= dMin <= defenders
  {
    var top := TopCount(start, aMin);
    var b := Bounds(aMin, dMin, if top >= aMin then top - aMin else 0, defenders - dMin);
    Run(b, SeedCells(start, aMin, b.xMax, b.yMax), map[], SweepOrder(b)).1
  }

  /** A sweep over the seeded grid of the start's own size computes the
      invasion's outcomes. */
  lemma SweepIsInvasion(start: Start, defenders: int, b: Bounds, g: Cells, g': Cells, out: map<Key, real>)
    requires 0 <= b.aMin && 0 <= b.dMin <= defenders
    requires b.xMax == TopCount(start, b.aMin) - b.aMin >= 0 && b.yMax == defenders - b.dMin
    requires g == SeedCells(start, b.aMin, b.xMax, b.yMax)
    requires (g', out) == Run(b, g, map[], SweepOrder(b))
    ensures out == InvasionOutcomes(start, defenders, b.aMin, b.dMin)
  {
    var top := TopCount(start, b.aMin);
    assert b == Bounds(b.aMin, b.dMin, if top >= b.aMin then top - b.aMin else 0, defenders - b.dMin);
  }

  // ---- one cell ----

  /** Visited cells stay visited as the sweep moves on. */
  lemma SettledLater(b: Bounds, out: map<Key, real>, s: int, x: int)
    requires Settled(b, out, s, x)
    ensures Settled(b, out, s, x + 1)
  {
  }

  /** A key recorded by a visited cell keeps the outcomes settled. */
  lemma SettledInsert(b: Bounds, out: map<Key, real>, s: int, x: int, key: Key, v: real)
    requires Settled(b, out, s, x)
    requires ReachableKey(b, key) && !Pending(Source(b, key).0, Source(b, key).1, s, x) && v > 0.0
    ensures Settled(b, out[key := v], s, x)
  {
    var out' := out[key := v];
    forall k | k in out'
      ensures ReachableKey(b, k) && !Pending(Source(b, k).0, Source(b, k).1, s, x) && out'[k] > 0.0
    {
      if k != key {
        assert k in out;
      }
    }
  }

  /** A key below a threshold is not the key of any grid cell. */
  lemma EdgesInsertBelow(b: Bounds, g: Cells, out: map<Key, real>, s: int, x: int, key: Key, v: real)
    requires Shaped(g, b.xMax, b.yMax)
    requires EdgesRecorded(b, g, out, s, x)
    requires key.0 < b.aMin || key.1 < b.dMin
    ensures EdgesRecorded(b, g, out[key := v], s, x)
  {
  }

  /** Recording terminal cell (x, y) with its mass. */
  lemma EdgesInsertCell(b: Bounds, g: Cells, out: map<Key, real>, s: int, x: int, y: int)
    requires Shaped(g, b.xMax, b.yMax)
    requires InGrid(b, x, y) && x + y == s
    requires EdgesRecorded(b, g, out, s, x)
    ensures EdgesRecorded(b, g, out[(b.aMin + x, b.dMin + y) := g[x][y]], s, x + 1)
  {
  }

  /** Skipping a cell without mass keeps the invariant. */
  lemma SkipEmpty(b: Bounds, g: Cells, g0: Cells, out: map<Key, real>, s: int, x: int, y: int, seeded: real)
    requires InGrid(b, x, y) && x + y == s
    requires Sweep(b, g, g0, out, s, x, seeded)
    requires g[x][y] == 0.0
    ensures Sweep(b, g, g0, out, s, x + 1, seeded)
  {
    PendingStep(g, s, x);
    SettledLater(b, out, s, x);
    EdgesSkip(b, g, out, s, x);
  }

  /** Passing over a cell without mass records nothing and needs nothing recorded. */
  lemma EdgesSkip(b: Bounds, g: Cells, out: map<Key, real>, s: int, x: int)
    requires Shaped(g, b.xMax, b.yMax) && InGrid(b, x, s - x) && g[x][s - x] == 0.0
    requires EdgesRecorded(b, g, out, s, x)
    ensures EdgesRecorded(b, g, out, s, x + 1)
  {
  }

  /** Recording a terminal cell writes a key that no earlier visit wrote, and
      keeps the invariant. */
  lemma RecordTerminal(b: Bounds, g: Cells, g0: Cells, out: map<Key, real>, s: int, x: int, y: int, seeded: real)
    requires 0 <= b.aMin && 0 <= b.dMin
    requires InGrid(b, x, y) && x + y == s && (x == 0 || y == 0)
    requires Sweep(b, g, g0, out, s, x, seeded)
    requires g[x][y] != 0.0
    ensures (b.aMin + x, b.dMin + y) !in out
    ensures Sweep(b, g, g0, out[(b.aMin + x, b.dMin + y) := g[x][y]], s, x + 1, seeded)
  {
    var key := (b.aMin + x, b.dMin + y);
    assert Source(b, key) == (x, y);
    assert Pending(x, y, s, x);
    assert g[x][y] > 0.0 by { assert g[x][y] >= g0[x][y] >= 0.0; }
    PendingStep(g, s, x);
    TotalAdd(out, key, g[x][y]);
    SettledLater(b, out, s, x);
    SettledInsert(b, out, s, x + 1, key, g[x][y]);
    EdgesInsertCell(b, g, out, s, x, y);
  }

  /** Before a cell is battled: its mass is positive and has left the pending mass. */
  lemma BeginBattle(b: Bounds, g: Cells, g0: Cells, out: map<Key, real>, s: int, x: int, y: int, seeded: real)
    requires InGrid(b, x, y) && x + y == s && 1 <= x && 1 <= y
    requires Sweep(b, g, g0, out, s, x, seeded)
    requires g[x][y] != 0.0
    ensures g[x][y] > 0.0
    ensures PendingMass(g, s, x + 1) + g[x][y] + Total(out) == seeded
    ensures EdgesRecorded(b, g, out, s, x + 1)
  {
    PendingStep(g, s, x);
  }

  /** The losses a successor of (a, d) can show. */
  ghost predicate Loss(a: int, d: int, st: Successor)
  {
    && st.chance > 0.0
    && st.attackers >= 0 && st.defenders >= 0
    && a - 2 <= st.attackers <= a && d - 2 <= st.defenders <= d
    && 1 <= (a - st.attackers) + (d - st.defenders) <= 2
  }

  /** What the sweep needs of one round from (a, d) carrying mass prob: the
      successors carry all of it, each loses one or two units in all, and no
      two share an attacker count. */
  ghost predicate Round(a: int, d: int, states: seq<Successor>, prob: real)
  {
    && WeightSum(states) == prob
    && (forall i :: 0 <= i < |states| ==> Loss(a, d, states[i]))
    && (forall i, j :: 0 <= i < j < |states| ==> states[i].attackers != states[j].attackers)
  }

  lemma BattleRound(a: int, d: int, prob: real)
    requires a >= 1 && d >= 1 && prob > 0.0
    ensures Round(a, d, Successors(a, d, prob), prob)
  {
    var states := Successors(a, d, prob);
    SuccessorsDecrease(a, d, prob);
    SuccessorsDistinct(a, d, prob);
    BattleConservesMass(a, d, prob);
    forall i | 0 <= i < |states|
      ensures Loss(a, d, states[i])
    {
      assert states[i] in states;
    }
  }

  /** The invariant while the successors of cell (x, y) are pushed: the first
      i of them have gone to their cells or into the outcomes. */
  ghost predicate Pushing(b: Bounds, g: Cells, g0: Cells, out0: map<Key, real>, out: map<Key, real>,
                          s: int, x: int, states: seq<Successor>, i: int, seeded: real)
    requires 0 <= i <= |states|
  {
    && AboveSeed(b, g, g0)
    && PendingMass(g, s, x + 1) + WeightSum(states[i..]) + Total(out) == seeded
    && Settled(b, out, s, x + 1)
    && EdgesRecorded(b, g, out, s, x + 1)
    && NewFrom(out0, out, Pushed(states, i))
  }

  /** Every key written since out0 has one of the given attacker counts. */
  ghost predicate NewFrom(out0: map<Key, real>, out: map<Key, real>, counts: set<int>)
  {
    forall k :: k in out && k !in out0 ==> k.0 in counts
  }

  /** Writing a key with a further attacker count. */
  lemma NewFromInsert(out0: map<Key, real>, out: map<Key, real>, counts: set<int>, key: Key, v: real)
    requires NewFrom(out0, out, counts)
    ensures NewFrom(out0, out[key := v], counts + {key.0})
  {
  }

  /** The attacker counts of the first i successors. */
  function Pushed(states: seq<Successor>, i: int): set<int>
    requires 0 <= i <= |states|
  {
    if i == 0 then {} else Pushed(states, i - 1) + {states[i - 1].attackers}
  }

  /** With pairwise different attacker counts, successor i has a count that
      none of the first j successors has, for j up to i. */
  lemma {:induction false} NotPushed(states: seq<Successor>, i: int, j: int)
    requires 0 <= j <= i < |states|
    requires forall p, q :: 0 <= p < q < |states| ==> states[p].attackers != states[q].attackers
    ensures states[i].attackers !in Pushed(states, j)
  {
    if j > 0 {
      NotPushed(states, i, j - 1);
    }
  }

  lemma WeightSumStep(states: seq<Successor>, i: int)
    requires 0 <= i < |states|
    ensures WeightSum(states[i..]) == states[i].chance + WeightSum(states[i + 1..])
  {
    assert states[i..][1..] == states[i + 1..];
  }

  /** A successor of cell (x, y) that falls below a threshold has a key the
      sweep may record, and (x, y) is the only cell that can record it. */
  lemma BelowKey(b: Bounds, x: int, y: int, st: Successor)
    requires InGrid(b, x, y) && 1 <= x && 1 <= y
    requires Loss(b.aMin + x, b.dMin + y, st)
    requires st.attackers < b.aMin || st.defenders < b.dMin
    ensures Source(b, (st.attackers, st.defenders)) == (x, y)
    ensures ReachableKey(b, (st.attackers, st.defenders))
  {
  }

  /** A successor below a threshold goes straight into the outcomes, under a
      key that nothing has written before. */
  lemma PushBelow(b: Bounds, g: Cells, g0: Cells, out0: map<Key, real>, out: map<Key, real>,
                  s: int, x: int, y: int, states: seq<Successor>, i: int, seeded: real)
    requires InGrid(b, x, y) && x + y == s && 1 <= x && 1 <= y
    requires 0 <= i < |states| && Pushing(b, g, g0, out0, out, s, x, states, i, seeded)
    requires Settled(b, out0, s, x)
    requires Loss(b.aMin + x, b.dMin + y, states[i])
    requires states[i].attackers !in Pushed(states, i)
    requires states[i].attackers < b.aMin || states[i].defenders < b.dMin
    ensures (states[i].attackers, states[i].defenders) !in out
    ensures Pushing(b, g, g0, out0, out[(states[i].attackers, states[i].defenders) := states[i].chance],
                    s, x, states, i + 1, seeded)
  {
    var st := states[i];
    var key := (st.attackers, st.defenders);
    BelowKey(b, x, y, st);
    assert key !in out0;
    assert key.0 !in Pushed(states, i);
    assert key !in out;
    assert Pushed(states, i + 1) == Pushed(states, i) + {st.attackers};
    NewFromInsert(out0, out, Pushed(states, i), key, st.chance);
    WeightSumStep(states, i);
    TotalAdd(out, key, st.chance);
    SettledInsert(b, out, s, x + 1, key, st.chance);
    EdgesInsertBelow(b, g, out, s, x + 1, key, st.chance);
  }

  /** Raising one cell keeps every cell at or above its seed. */
  lemma AboveSeedPut(b: Bounds, g: Cells, g0: Cells, i: int, j: int, v: real)
    requires AboveSeed(b, g, g0) && InGrid(b, i, j) && v >= g[i][j]
    ensures AboveSeed(b, Put(g, i, j, v), g0)
  {
  }

  /** Writing a pending cell leaves what is recorded about visited cells alone. */
  lemma EdgesPut(b: Bounds, g: Cells, out: map<Key, real>, s: int, x: int, i: int, j: int, v: real)
    requires Shaped(g, b.xMax, b.yMax) && InGrid(b, i, j) && Pending(i, j, s, x)
    requires EdgesRecorded(b, g, out, s, x)
    ensures EdgesRecorded(b, Put(g, i, j, v), out, s, x)
  {
    var g' := Put(g, i, j, v);
    forall k, l | InGrid(b, k, l) && (k == 0 || l == 0) && !Pending(k, l, s, x) && g'[k][l] != 0.0
      ensures (b.aMin + k, b.dMin + l) in out && out[(b.aMin + k, b.dMin + l)] == g'[k][l]
    {
      assert g'[k][l] == g[k][l];
    }
  }

  /** A successor within the thresholds adds its mass to its own cell, which
      lies on a later diagonal and so is still pending. */
  lemma PushCell(b: Bounds, g: Cells, g0: Cells, out0: map<Key, real>, out: map<Key, real>,
                 s: int, x: int, y: int, states: seq<Successor>, i: int, seeded: real)
    requires InGrid(b, x, y) && x + y == s && 1 <= x && 1 <= y
    requires 0 <= i < |states| && Pushing(b, g, g0, out0, out, s, x, states, i, seeded)
    requires Loss(b.aMin + x, b.dMin + y, states[i])
    requires states[i].attackers >= b.aMin && states[i].defenders >= b.dMin
    ensures InGrid(b, states[i].attackers - b.aMin, states[i].defenders - b.dMin)
    ensures Pending(states[i].attackers - b.aMin, states[i].defenders - b.dMin, s, x + 1)
    ensures
      var i', j' := states[i].attackers - b.aMin, states[i].defenders - b.dMin;
      Pushing(b, Put(g, i', j', g[i'][j'] + states[i].chance), g0, out0, out, s, x, states, i + 1, seeded)
  {
    var st := states[i];
    var i', j' := st.attackers - b.aMin, st.defenders - b.dMin;
    var v := g[i'][j'] + st.chance;
    assert Pending(i', j', s, x + 1);
    assert Pushed(states, i) <= Pushed(states, i + 1);
    WeightSumStep(states, i);
    PendingPut(g, i', j', v, s, x + 1);
    AboveSeedPut(b, g, g0, i', j', v);
    EdgesPut(b, g, out, s, x + 1, i', j', v);
  }

  /** Pushes the successors of a battled cell to their cells or, when they
      fall below a threshold, into the outcomes. */
  method Distribute(b: Bounds, g: Cells, out: map<Key, real>, states: seq<Successor>)
    returns (g': Cells, out': map<Key, real>)
    requires Shaped(g, b.xMax, b.yMax)
    requires forall st :: st in states ==> Fits(b, st)
    ensures (g', out') == PushAll(b, g, out, states)
  {
    assert states[..0] == [];
    g', out' := g, out;
    for i := 0 to |states|
      invariant (g', out') == PushAll(b, g, out, states[..i])
    {
      var st := states[i];
      assert st in states;
      PushAllStep(b, g, out, states, i);
      if st.attackers < b.aMin || st.defenders < b.dMin {
        out' := out'[(st.attackers, st.defenders) := st.chance];
      } else {
        var i', j' := st.attackers - b.aMin, st.defenders - b.dMin;
        g' := Put(g', i', j', g'[i'][j'] + st.chance);
      }
    }
    assert states[..|states|] == states;
  }

  /** The first i successors of a battled cell (x, y), pushed in order, keep
      the invariant of the push loop. */
  lemma {:induction false} PushingAll(b: Bounds, g: Cells, g0: Cells, out: map<Key, real>, s: int, x: int, y: int,
                                      states: seq<Successor>, i: int, prob: real, seeded: real)
    requires InGrid(b, x, y) && 1 <= x && 1 <= y && x + y == s
    requires Round(b.aMin + x, b.dMin + y, states, prob)
    requires forall st :: st in states ==> Fits(b, st)
    requires AboveSeed(b, g, g0)
    requires PendingMass(g, s, x + 1) + prob + Total(out) == seeded
    requires Settled(b, out, s, x)
    requires EdgesRecorded(b, g, out, s, x + 1)
    requires 0 <= i <= |states|
    ensures Pushing(b, PushAll(b, g, out, states[..i]).0, g0, out, PushAll(b, g, out, states[..i]).1,
                    s, x, states, i, seeded)
  {
    if i == 0 {
      SettledLater(b, out, s, x);
      assert states[0..] == states;
      assert states[..0] == [];
    } else {
      PushingAll(b, g, g0, out, s, x, y, states, i - 1, prob, seeded);
      PushingNext(b, g, g0, out, s, x, y, states, i, prob, seeded);
    }
  }

  /** Pushing successor i - 1 after the first i - 1 keeps the invariant of
      the push loop. */
  lemma PushingNext(b: Bounds, g: Cells, g0: Cells, out: map<Key, real>, s: int, x: int, y: int,
                    states: seq<Successor>, i: int, prob: real, seeded: real)
    requires InGrid(b, x, y) && 1 <= x && 1 <= y && x + y == s
    requires Round(b.aMin + x, b.dMin + y, states, prob)
    requires forall st :: st in states ==> Fits(b, st)
    requires Shaped(g, b.xMax, b.yMax) && Settled(b, out, s, x)
    requires 0 < i <= |states|
    requires Pushing(b, PushAll(b, g, out, states[..i - 1]).0, g0, out, PushAll(b, g, out, states[..i - 1]).1,
                     s, x, states, i - 1, seeded)
    ensures Pushing(b, PushAll(b, g, out, states[..i]).0, g0, out, PushAll(b, g, out, states[..i]).1,
                    s, x, states, i, seeded)
  {
    PushAllStep(b, g, out, states, i - 1);
    var p := PushAll(b, g, out, states[..i - 1]);
    assert states[i - 1] in states;
    PushStep(b, g0, out, p.0, p.1, s, x, y, states, i - 1, prob, seeded);
    assert PushAll(b, g, out, states[..i]) == PushOne(b, p.0, p.1, states[i - 1]);
  }

  /** Pushing successor i keeps the invariant of the push loop. */
  lemma PushStep(b: Bounds, g0: Cells, out: map<Key, real>, gp: Cells, outp: map<Key, real>, s: int, x: int, y: int,
                 states: seq<Successor>, i: int, prob: real, seeded: real)
    requires InGrid(b, x, y) && 1 <= x && 1 <= y && x + y == s
    requires Round(b.aMin + x, b.dMin + y, states, prob)
    requires Settled(b, out, s, x)
    requires 0 <= i < |states| && Pushing(b, gp, g0, out, outp, s, x, states, i, seeded)
    requires Fits(b, states[i])
    ensures Pushing(b, PushOne(b, gp, outp, states[i]).0, g0, out, PushOne(b, gp, outp, states[i]).1,
                    s, x, states, i + 1, seeded)
  {
    var st := states[i];
    assert Loss(b.aMin + x, b.dMin + y, st);
    if st.attackers < b.aMin || st.defenders < b.dMin {
      NotPushed(states, i, i);
      PushBelow(b, gp, g0, out, outp, s, x, y, states, i, seeded);
    } else {
      PushCell(b, gp, g0, out, outp, s, x, y, states, i, seeded);
    }
  }

  /** Pushing one more successor. */
  lemma PushAllStep(b: Bounds, g: Cells, out: map<Key, real>, states: seq<Successor>, i: int)
    requires Shaped(g, b.xMax, b.yMax) && 0 <= i < |states|
    ensures PushAll(b, g, out, states[..i + 1])
         == PushOne(b, PushAll(b, g, out, states[..i]).0, PushAll(b, g, out, states[..i]).1, states[i])
  {
    assert states[..i + 1][..i] == states[..i];
  }

  /** Visits cell (x, y): an empty cell is skipped, a cell on the retreat
      or goal edge is recorded as an outcome, an inner cell is battled. */
  method Visit(b: Bounds, g: Cells, out: map<Key, real>, x: int, y: int)
    returns (g': Cells, out': map<Key, real>)
    requires 0 <= b.aMin && 0 <= b.dMin
    requires Shaped(g, b.xMax, b.yMax) && InGrid(b, x, y)
    ensures (g', out') == VisitCell(b, g, out, x, y)
  {
    var prob := g[x][y];
    if prob == 0.0 {
      return g, out;
    }
    var a := b.aMin + x;
    var d := b.dMin + y;
    if x == 0 || y == 0 {
      return g, out[(a, d) := prob];
    }
    g', out' := BattleCell(b, g, out, x, y);
  }

  /** Visiting the cell next in sweep order keeps the sweep invariant one
      cell on. */
  lemma VisitKeeps(b: Bounds, g: Cells, g0: Cells, out: map<Key, real>, s: int, x: int, y: int, seeded: real)
    requires 0 <= b.aMin && 0 <= b.dMin
    requires InGrid(b, x, y) && x + y == s
    requires Sweep(b, g, g0, out, s, x, seeded)
    ensures Sweep(b, VisitCell(b, g, out, x, y).0, g0, VisitCell(b, g, out, x, y).1, s, x + 1, seeded)
  {
    if g[x][y] == 0.0 {
      SkipEmpty(b, g, g0, out, s, x, y, seeded);
    } else if x == 0 || y == 0 {
      RecordTerminal(b, g, g0, out, s, x, y, seeded);
    } else {
      BeginBattle(b, g, g0, out, s, x, y, seeded);
      BattleKeeps(b, g, g0, out, s, x, y, seeded);
    }
  }

  /** Battles an inner cell holding mass and pushes the successors on. */
  method BattleCell(b: Bounds, g: Cells, out: map<Key, real>, x: int, y: int)
    returns (g': Cells, out': map<Key, real>)
    requires 0 <= b.aMin && 0 <= b.dMin
    requires Shaped(g, b.xMax, b.yMax) && InGrid(b, x, y) && 1 <= x && 1 <= y && g[x][y] != 0.0
    ensures (g', out') == VisitCell(b, g, out, x, y)
  {
    var prob := g[x][y];
    var a, d := b.aMin + x, b.dMin + y;
    var states := CalculateBattle(a, d, prob);
    BattleFits(b, x, y, prob);
    g', out' := Distribute(b, g, out, states);
    VisitInner(b, g, out, x, y, states);
  }

  /** Battling an inner cell with mass keeps the sweep invariant one cell on. */
  lemma BattleKeeps(b: Bounds, g: Cells, g0: Cells, out: map<Key, real>, s: int, x: int, y: int, seeded: real)
    requires 0 <= b.aMin && 0 <= b.dMin
    requires InGrid(b, x, y) && 1 <= x && 1 <= y && x + y == s
    requires AboveSeed(b, g, g0)
    requires g[x][y] > 0.0
    requires PendingMass(g, s, x + 1) + g[x][y] + Total(out) == seeded
    requires Settled(b, out, s, x)
    requires EdgesRecorded(b, g, out, s, x + 1)
    ensures Sweep(b, VisitCell(b, g, out, x, y).0, g0, VisitCell(b, g, out, x, y).1, s, x + 1, seeded)
  {
    var prob := g[x][y];
    var states := Successors(b.aMin + x, b.dMin + y, prob);
    BattleRound(b.aMin + x, b.dMin + y, prob);
    BattleFits(b, x, y, prob);
    PushingAll(b, g, g0, out, s, x, y, states, |states|, prob, seeded);
    assert states[..|states|] == states;
    assert states[|states|..] == [];
    VisitInner(b, g, out, x, y, states);
  }

  /** Visiting an inner cell with mass pushes the successors of its battle. */
  lemma VisitInner(b: Bounds, g: Cells, out: map<Key, real>, x: int, y: int, states: seq<Successor>)
    requires 0 <= b.aMin && 0 <= b.dMin
    requires Shaped(g, b.xMax, b.yMax) && InGrid(b, x, y) && 1 <= x && 1 <= y && g[x][y] != 0.0
    requires states == Successors(b.aMin + x, b.dMin + y, g[x][y])
    ensures VisitCell(b, g, out, x, y) == PushAll(b, g, out, states)
  {
  }

  // ---- the invasion ----

  /** Before the first visit every cell is pending and nothing is recorded. */
  lemma StartSweep(b: Bounds, g: Cells, seeded: real)
    requires Shaped(g, b.xMax, b.yMax)
    requires forall i, j {:trigger g[i][j]} :: InGrid(b, i, j) ==> g[i][j] >= 0.0
    requires PendingMass(g, b.xMax + b.yMax + 1, 0) == seeded
    ensures Sweep(b, g, g, map[], b.xMax + b.yMax, Lo(b, b.xMax + b.yMax), seeded)
  {
    PendingSame(g, b.xMax + b.yMax + 1, 0, b.xMax + b.yMax, Lo(b, b.xMax + b.yMax));
  }

  /** After the last diagonal nothing is pending: the outcomes hold all the
      seeded mass, and every terminal cell's mass, at least its seed, is
      recorded under its own key. */
  lemma EndSweep(b: Bounds, g: Cells, g0: Cells, out: map<Key, real>, seeded: real)
    requires Sweep(b, g, g0, out, -1, Lo(b, -1), seeded)
    ensures Total(out) == seeded
    ensures forall k :: k in out ==> ReachableKey(b, k) && out[k] > 0.0
    ensures forall j :: 0 <= j <= b.yMax && g0[0][j] > 0.0 ==>
      (b.aMin, b.dMin + j) in out && out[(b.aMin, b.dMin + j)] >= g0[0][j]
  {
    PendingEmpty(g, -1, 0);
    SeedsFound(b, g, g0, out);
  }

  /** After the sweep, every seeded cell of column 0 is in the outcomes
      with at least its seed. */
  lemma SeedsFound(b: Bounds, g: Cells, g0: Cells, out: map<Key, real>)
    requires AboveSeed(b, g, g0)
    requires EdgesRecorded(b, g, out, -1, 0)
    ensures forall j :: 0 <= j <= b.yMax && g0[0][j] > 0.0 ==>
      (b.aMin, b.dMin + j) in out && out[(b.aMin, b.dMin + j)] >= g0[0][j]
  {
    forall j | 0 <= j <= b.yMax && g0[0][j] > 0.0
      ensures (b.aMin, b.dMin + j) in out && out[(b.aMin, b.dMin + j)] >= g0[0][j]
    {
      assert InGrid(b, 0, j) && g[0][j] >= g0[0][j];
      assert !Pending(0, j, -1, 0);
    }
  }

  /** What the recorded keys say in terms of the thresholds and the start. */
  lemma KeysOfOutcomes(b: Bounds, attackers: Start, defenders: int, maxAttackers: int, out: map<Key, real>)
    requires b.xMax == maxAttackers - b.aMin && b.yMax == defenders - b.dMin
    requires attackers.Count? ==> maxAttackers == attackers.attackers
    requires attackers.Odds? && attackers.odds.Keys != {} ==> maxAttackers in attackers.odds
    requires attackers.Odds? && attackers.odds.Keys == {} ==> out == map[]
    requires forall k :: k in out ==> ReachableKey(b, k)
    ensures forall k :: k in out ==> k.0 <= b.aMin || k.1 <= b.dMin
    ensures forall k :: k in out ==>
      || (k.0 >= b.aMin && k.1 >= b.dMin && (k.0 == b.aMin || k.1 == b.dMin))
      || (k.0 == b.aMin - 1 && k.1 > b.dMin)
      || (k.1 == b.dMin - 1 && k.0 > b.aMin)
    ensures forall k :: k in out ==> k.1 <= defenders && WithinStart(attackers, k.0)
    ensures forall k :: k in out ==> k.0 >= 0 && k.1 >= 0
  {
    forall k | k in out
      ensures k.1 <= defenders && WithinStart(attackers, k.0)
    {
      assert ReachableKey(b, k);
    }
  }

  // ---- the order of the visits ----

  /** Cell c is visited before cell e: on a later diagonal of the sweep, or
      on the same diagonal further left. */
  predicate Before(c: (int, int), e: (int, int))
  {
    c.0 + c.1 > e.0 + e.1 || (c.0 + c.1 == e.0 + e.1 && c.0 < e.0)
  }

  /** The cells visited so far, in visiting order, are exactly the cells of
      the grid that are no longer pending at (s, x). */
  ghost predicate Visited(b: Bounds, trace: seq<(int, int)>, s: int, x: int)
  {
    && (forall c :: c in trace <==> InGrid(b, c.0, c.1) && !Pending(c.0, c.1, s, x))
    && (forall p, q :: 0 <= p < q < |trace| ==> Before(trace[p], trace[q]))
  }

  lemma VisitedStart(b: Bounds)
    ensures Visited(b, [], b.xMax + b.yMax, Lo(b, b.xMax + b.yMax))
  {
  }

  /** Visiting cell (x, s - x) appends it to the trace. */
  lemma VisitedStep(b: Bounds, trace: seq<(int, int)>, s: int, x: int)
    requires Visited(b, trace, s, x) && InGrid(b, x, s - x)
    ensures Visited(b, trace + [(x, s - x)], s, x + 1)
  {
    var t := trace + [(x, s - x)];
    forall p, q | 0 <= p < q < |t| ensures Before(t[p], t[q]) {
      if q == |trace| {
        assert t[p] in trace;
      }
    }
  }

  lemma VisitedNextDiagonal(b: Bounds, trace: seq<(int, int)>, s: int)
    requires Visited(b, trace, s, Min(b.xMax, s) + 1)
    ensures Visited(b, trace, s - 1, Lo(b, s - 1))
  {
    var x, x' := Min(b.xMax, s) + 1, Lo(b, s - 1);
    assert forall i, j :: InGrid(b, i, j) ==> (Pending(i, j, s, x) <==> Pending(i, j, s - 1, x'));
  }

  /** After the last diagonal every cell has been visited. */
  lemma VisitedAll(b: Bounds, trace: seq<(int, int)>)
    requires Visited(b, trace, -1, Lo(b, -1))
    ensures forall c :: c in trace <==> InGrid(b, c.0, c.1)
    ensures forall p, q :: 0 <= p < q < |trace| ==> trace[p] != trace[q]
  {
  }

  /** Every cell of the grid is in the sweep order once, and the order runs
      through the diagonals in decreasing x + y and along each diagonal in
      increasing x. */
  lemma SweepOrderCells(b: Bounds)
    ensures forall c :: c in SweepOrder(b) <==> InGrid(b, c.0, c.1)
    ensures forall p, q :: 0 <= p < q < |SweepOrder(b)| ==>
      SweepOrder(b)[p] != SweepOrder(b)[q] && Before(SweepOrder(b)[p], SweepOrder(b)[q])
  {
    DoneVisited(b, -1);
    VisitedAll(b, Done(b, -1));
  }

  /** The diagonals above s are the cells visited before the sweep reaches
      diagonal s. */
  lemma {:induction false} DoneVisited(b: Bounds, s: int)
    requires -1 <= s <= b.xMax + b.yMax
    ensures Visited(b, Done(b, s), s, Lo(b, s))
    decreases b.xMax + b.yMax - s
  {
    if s == b.xMax + b.yMax {
      VisitedStart(b);
    } else {
      var d := DiagonalCells(b, s + 1);
      DoneVisited(b, s + 1);
      DiagonalVisited(b, Done(b, s + 1), s + 1, |d|);
      assert d[..|d|] == d;
      VisitedNextDiagonal(b, Done(b, s) , s + 1);
    }
  }

  /** The first k cells of diagonal s extend the cells visited before it. */
  lemma {:induction false} DiagonalVisited(b: Bounds, trace: seq<(int, int)>, s: int, k: int)
    requires 0 <= s <= b.xMax + b.yMax && Visited(b, trace, s, Lo(b, s))
    requires 0 <= k <= |DiagonalCells(b, s)|
    ensures Visited(b, trace + DiagonalCells(b, s)[..k], s, Lo(b, s) + k)
  {
    var d := DiagonalCells(b, s);
    if k == 0 {
      assert trace + d[..0] == trace;
    } else {
      DiagonalVisited(b, trace, s, k - 1);
      assert trace + d[..k] == trace + d[..k - 1] + [(Lo(b, s) + k - 1, s - (Lo(b, s) + k - 1))];
      VisitedStep(b, trace + d[..k - 1], s, Lo(b, s) + k - 1);
    }
  }

  /** The diagonals above s, one after the other, are the cells of the
      diagonals above s. */
  lemma {:induction false} DoneBlocks(b: Bounds, n: int)
    requires 0 <= n <= b.xMax + b.yMax + 1
    ensures Done(b, b.xMax + b.yMax - n) == Concat(Blocks(b)[..n])
    decreases n
  {
    if n > 0 {
      DoneBlocks(b, n - 1);
      assert Blocks(b)[..n][..n - 1] == Blocks(b)[..n - 1];
    }
  }

  /** The sweep order is the diagonals one after the other. */
  lemma SweepOrderBlocks(b: Bounds)
    ensures SweepOrder(b) == Concat(Blocks(b))
  {
    DoneBlocks(b, b.xMax + b.yMax + 1);
    assert Blocks(b)[..b.xMax + b.yMax + 1] == Blocks(b);
  }

  /** VisitKeeps, for a visit whose result and next column are given. */
  lemma VisitKeepsAt(b: Bounds, g: Cells, g0: Cells, out: map<Key, real>, s: int, x: int, seeded: real,
                     r: (Cells, map<Key, real>), next: int)
    requires 0 <= b.aMin && 0 <= b.dMin
    requires InGrid(b, x, s - x) && next == x + 1
    requires Sweep(b, g, g0, out, s, x, seeded)
    requires r == VisitCell(b, g, out, x, s - x)
    ensures Sweep(b, r.0, g0, r.1, s, next, seeded)
  {
    VisitKeeps(b, g, g0, out, s, x, s - x, seeded);
  }

  // ---- the sweep invariant along a chain of states ----

  /** ds lists the states at the start of each diagonal, from the top one
      down, and after the last; chains[i] lists the states along diagonal i
      from the top. */
  ghost predicate Diagonals(b: Bounds, ds: seq<(Cells, map<Key, real>)>, chains: seq<seq<(Cells, map<Key, real>)>>)
  {
    && |ds| == b.xMax + b.yMax + 2 && |chains| == b.xMax + b.yMax + 1
    && forall i :: 0 <= i < |chains| ==>
      && Chain(Visits(b), chains[i], Blocks(b)[i])
      && chains[i][0] == ds[i]
      && chains[i][|Blocks(b)[i]|] == ds[i + 1]
  }

  /** Along diagonal s the sweep invariant moves one cell per state. */
  lemma {:induction false} StepsKeep(b: Bounds, g0: Cells, seeded: real, s: int, st: seq<(Cells, map<Key, real>)>, k: int)
    requires 0 <= b.aMin && 0 <= b.dMin && 0 <= s <= b.xMax + b.yMax
    requires Chain(Visits(b), st, DiagonalCells(b, s))
    requires Sweep(b, st[0].0, g0, st[0].1, s, Lo(b, s), seeded)
    requires 0 <= k < |st|
    ensures Sweep(b, st[k].0, g0, st[k].1, s, Lo(b, s) + k, seeded)
  {
    if k > 0 {
      StepsKeep(b, g0, seeded, s, st, k - 1);
      StepKeeps(b, g0, seeded, s, st, k);
    }
  }

  /** The same for one step of a run over the diagonal s. */
  lemma StepKeeps(b: Bounds, g0: Cells, seeded: real, s: int, st: seq<(Cells, map<Key, real>)>, k: int)
    requires 0 <= b.aMin && 0 <= b.dMin && 0 <= s <= b.xMax + b.yMax
    requires Chain(Visits(b), st, DiagonalCells(b, s))
    requires 0 < k < |st|
    requires Sweep(b, st[k - 1].0, g0, st[k - 1].1, s, Lo(b, s) + (k - 1), seeded)
    ensures Sweep(b, st[k].0, g0, st[k].1, s, Lo(b, s) + k, seeded)
  {
    var g, out := st[k - 1].0, st[k - 1].1;
    assert AboveSeed(b, g, g0);
    var x := ChainVisit(b, s, st, k);
    VisitKeepsAt(b, g, g0, out, s, x, seeded, st[k], x + 1);
  }

  /** Step k of a run over the diagonal s visits the cell (x, s - x) with x
      the k-th column of the diagonal. */
  lemma ChainVisit(b: Bounds, s: int, st: seq<(Cells, map<Key, real>)>, k: int) returns (x: int)
    requires 0 <= b.aMin && 0 <= b.dMin && 0 <= s <= b.xMax + b.yMax
    requires Chain(Visits(b), st, DiagonalCells(b, s))
    requires 0 < k < |st| && Shaped(st[k - 1].0, b.xMax, b.yMax)
    ensures x == Lo(b, s) + (k - 1) && InGrid(b, x, s - x)
    ensures st[k] == VisitCell(b, st[k - 1].0, st[k - 1].1, x, s - x)
  {
    x := Lo(b, s) + (k - 1);
    assert DiagonalCells(b, s)[k - 1] == (x, s - x);
  }

  /** The sweep invariant holds at the start of every diagonal. */
  lemma {:induction false} DiagonalsKeep(b: Bounds, g: Cells, seeded: real, ds: seq<(Cells, map<Key, real>)>,
                                         chains: seq<seq<(Cells, map<Key, real>)>>, i: int)
    requires 0 <= b.aMin && 0 <= b.dMin
    requires Shaped(g, b.xMax, b.yMax)
    requires forall i, j {:trigger g[i][j]} :: InGrid(b, i, j) ==> g[i][j] >= 0.0
    requires PendingMass(g, b.xMax + b.yMax + 1, 0) == seeded
    requires Diagonals(b, ds, chains) && ds[0] == (g, map[])
    requires 0 <= i <= b.xMax + b.yMax + 1
    ensures Sweep(b, ds[i].0, g, ds[i].1, b.xMax + b.yMax - i, Lo(b, b.xMax + b.yMax - i), seeded)
  {
    if i == 0 {
      StartSweep(b, g, seeded);
    } else {
      var s := b.xMax + b.yMax - (i - 1);
      var st := chains[i - 1];
      assert Blocks(b)[i - 1] == DiagonalCells(b, s);
      DiagonalsKeep(b, g, seeded, ds, chains, i - 1);
      DiagonalKeeps(b, g, seeded, s, st);
      assert s - 1 == b.xMax + b.yMax - i;
    }
  }

  /** The sweep invariant moves from the start of diagonal s to the start
      of the next one, s - 1. */
  lemma DiagonalKeeps(b: Bounds, g0: Cells, seeded: real, s: int, st: seq<(Cells, map<Key, real>)>)
    requires 0 <= b.aMin && 0 <= b.dMin && 0 <= s <= b.xMax + b.yMax
    requires Chain(Visits(b), st, DiagonalCells(b, s))
    requires Sweep(b, st[0].0, g0, st[0].1, s, Lo(b, s), seeded)
    ensures Sweep(b, st[|st| - 1].0, g0, st[|st| - 1].1, s - 1, Lo(b, s - 1), seeded)
  {
    StepsKeep(b, g0, seeded, s, st, |st| - 1);
    assert Lo(b, s) + (|st| - 1) == Min(b.xMax, s) + 1;
    NextDiagonal(b, st[|st| - 1].0, g0, st[|st| - 1].1, s, seeded);
  }

  /** What the whole chain of diagonals records, from the sweep invariant
      after the last diagonal. */
  lemma SweepLayer(b: Bounds, g: Cells, seeded: real, ds: seq<(Cells, map<Key, real>)>,
                   chains: seq<seq<(Cells, map<Key, real>)>>)
    requires 0 <= b.aMin && 0 <= b.dMin
    requires Shaped(g, b.xMax, b.yMax)
    requires forall i, j {:trigger g[i][j]} :: InGrid(b, i, j) ==> g[i][j] >= 0.0
    requires PendingMass(g, b.xMax + b.yMax + 1, 0) == seeded
    requires Diagonals(b, ds, chains) && ds[0] == (g, map[])
    ensures Total(ds[b.xMax + b.yMax + 1].1) == seeded
    ensures forall k :: k in ds[b.xMax + b.yMax + 1].1 ==>
      ReachableKey(b, k) && ds[b.xMax + b.yMax + 1].1[k] > 0.0
    ensures forall j :: 0 <= j <= b.yMax && g[0][j] > 0.0 ==>
      (b.aMin, b.dMin + j) in ds[b.xMax + b.yMax + 1].1
      && ds[b.xMax + b.yMax + 1].1[(b.aMin, b.dMin + j)] >= g[0][j]
  {
    var n := b.xMax + b.yMax + 1;
    DiagonalsKeep(b, g, seeded, ds, chains, n);
    assert b.xMax + b.yMax - n == -1;
    EndSweep(b, ds[n].0, g, ds[n].1, seeded);
  }

  // ---- the sweep as the source runs it ----

  /** The visit of (x, y) as the next step of a run over its diagonal. */
  method VisitNext(b: Bounds, g: Cells, out: map<Key, real>, x: int, y: int,
                   ghost s: int, ghost st: seq<(Cells, map<Key, real>)>)
    returns (g': Cells, out': map<Key, real>)
    requires 0 <= b.aMin && 0 <= b.dMin && 0 <= s <= b.xMax + b.yMax && x + y == s
    requires Chain(Visits(b), st, DiagonalCells(b, s))
    requires 0 <= x - Lo(b, s) < |st| - 1 && (g, out) == st[x - Lo(b, s)] && Shaped(g, b.xMax, b.yMax)
    ensures Shaped(g', b.xMax, b.yMax) && (g', out') == st[x - Lo(b, s) + 1]
  {
    ghost var column := ChainVisit(b, s, st, x - Lo(b, s) + 1);
    g', out' := Visit(b, g, out, x, y);
  }

  /** One diagonal of the sweep: visits the cells (x, s - x) from x = Lo(b, s)
      rightwards while the cell is in the grid. */
  method SweepDiagonal(b: Bounds, g: Cells, out: map<Key, real>, s: int, xStart: int, yStart: int)
    returns (g': Cells, out': map<Key, real>)
    requires 0 <= b.aMin && 0 <= b.dMin && Shaped(g, b.xMax, b.yMax)
    requires 0 <= s <= b.xMax + b.yMax && xStart == Lo(b, s) && xStart + yStart == s
    ensures Shaped(g', b.xMax, b.yMax) && (g', out') == Run(b, g, out, DiagonalCells(b, s))
  {
    ghost var cells := DiagonalCells(b, s);
    ghost var st := FoldStates(Visits(b), (g, out), cells);
    g', out' := g, out;
    var x, y := xStart, yStart;
    while x <= b.xMax && y >= 0
      invariant x + y == s && Lo(b, s) <= x <= Min(b.xMax, s) + 1
      invariant Shaped(g', b.xMax, b.yMax) && (g', out') == st[x - Lo(b, s)]
      decreases b.xMax - x
    {
      g', out' := VisitNext(b, g', out', x, y, s, st);
      x, y := x + 1, y - 1;
    }
    assert x - Lo(b, s) == |cells|;
  }

  /** The diagonal sweep: visits every cell once, in decreasing x + y and
      along each diagonal in increasing x, and with it records every outcome
      with the mass that reaches it. */
  method SweepGrid(b: Bounds, g: Cells, ghost seeded: real)
    returns (g': Cells, out: map<Key, real>)
    requires 0 <= b.aMin && 0 <= b.dMin
    requires Shaped(g, b.xMax, b.yMax)
    requires forall i, j {:trigger g[i][j]} :: InGrid(b, i, j) ==> g[i][j] >= 0.0
    requires PendingMass(g, b.xMax + b.yMax + 1, 0) == seeded
    ensures (g', out) == Run(b, g, map[], SweepOrder(b))
    ensures Total(out) == seeded
    ensures forall k :: k in out ==> ReachableKey(b, k) && out[k] > 0.0
    ensures forall j :: 0 <= j <= b.yMax && g[0][j] > 0.0 ==>
      (b.aMin, b.dMin + j) in out && out[(b.aMin, b.dMin + j)] >= g[0][j]
  {
    var xMax, yMax := b.xMax, b.yMax;
    ghost var ds, chains := FoldBlocks(Visits(b), (g, map[]), Blocks(b));
    g' := g;
    out := map[];
    for distance := 0 to xMax + yMax + 1
      invariant Shaped(g', xMax, yMax) && (g', out) == ds[distance]
    {
      var xStart := if xMax - distance > 0 then xMax - distance else 0;
      var yStart := Min(yMax, yMax - (distance - xMax));
      var s := xMax + yMax - distance;
      assert Blocks(b)[distance] == DiagonalCells(b, s);
      g', out := SweepDiagonal(b, g', out, s, xStart, yStart);
    }
    SweepOrderBlocks(b);
    SweepLayer(b, g, seeded, ds, chains);
  }

  /** calculate_invasion. The outcomes carry exactly the seeded mass (1 for
      a single count, the sum of the distribution otherwise); every outcome
      is terminal (attackers at or below the retreat threshold, or defenders
      at or below the goal) and has positive mass; a seed at exactly the
      retreat threshold is never battled and is found again, with at least
      its mass, at (aMin, defenders). */
  method CalculateInvasion(attackers: Start, defenders: int, aMin: int := 0, dMin: int := 0)
    returns (outcomes: map<Key, real>)
    requires 0 <= aMin && 0 <= dMin <= defenders
    requires ValidStart(attackers, aMin)
    ensures Total(outcomes) == SeedMass(attackers)
    ensures forall k :: k in outcomes ==> outcomes[k] > 0.0
    ensures forall k :: k in outcomes ==> k.0 <= aMin || k.1 <= dMin
    ensures forall k :: k in outcomes ==>
      || (k.0 >= aMin && k.1 >= dMin && (k.0 == aMin || k.1 == dMin))
      || (k.0 == aMin - 1 && k.1 > dMin)
      || (k.1 == dMin - 1 && k.0 > aMin)
    ensures forall k :: k in outcomes ==> k.1 <= defenders && WithinStart(attackers, k.0)
    ensures forall k :: k in outcomes ==> k.0 >= 0 && k.1 >= 0
    ensures SeedValue(attackers, aMin) > 0.0 ==>
      (aMin, defenders) in outcomes && outcomes[(aMin, defenders)] >= SeedValue(attackers, aMin)
    ensures outcomes == InvasionOutcomes(attackers, defenders, aMin, dMin)
  {
    var maxAttackers := MaxAttackers(attackers, aMin);
    var xMax := maxAttackers - aMin;
    var yMax := defenders - dMin;
    var odds_grid := SeedGrid(attackers, aMin, xMax, yMax);
    var b := Bounds(aMin, dMin, xMax, yMax);
    ghost var g0 := odds_grid;
    odds_grid, outcomes := SweepGrid(b, odds_grid, SeedMass(attackers));
    if attackers.Odds? && attackers.odds.Keys == {} && outcomes != map[] {
      TotalPositive(outcomes);
    }
    KeysOfOutcomes(b, attackers, defenders, maxAttackers, outcomes);
    assert g0[0][yMax] == SeedValue(attackers, aMin + 0);
    SweepIsInvasion(attackers, defenders, b, g0, odds_grid, outcomes);
  }

  // ---- a worked example ----

  /** The grid seeded with one attacker against one defender. */
  lemma OneOnOneSeed() returns (g0: Cells)
    ensures g0 == SeedCells(Count(1), 0, 1, 1) && g0 == [[0.0, 0.0], [0.0, 1.0]]
  {
    g0 := SeedCells(Count(1), 0, 1, 1);
    assert g0[0] == [0.0, 0.0];
    assert g0[1] == [0.0, 1.0];
  }

  /** The four visits of that grid, in sweep order. */
  lemma OneOnOneVisits(b: Bounds, g0: Cells)
    requires b == Bounds(0, 0, 1, 1) && g0 == [[0.0, 0.0], [0.0, 1.0]]
    ensures Visits(b)((g0, map[]), (1, 1)) == ([[0.0, 7.0 / 12.0], [5.0 / 12.0, 1.0]], map[])
    ensures Visits(b)(([[0.0, 7.0 / 12.0], [5.0 / 12.0, 1.0]], map[]), (0, 1))
      == ([[0.0, 7.0 / 12.0], [5.0 / 12.0, 1.0]], map[(0, 1) := 7.0 / 12.0])
    ensures Visits(b)(([[0.0, 7.0 / 12.0], [5.0 / 12.0, 1.0]], map[(0, 1) := 7.0 / 12.0]), (1, 0))
      == ([[0.0, 7.0 / 12.0], [5.0 / 12.0, 1.0]], map[(0, 1) := 7.0 / 12.0, (1, 0) := 5.0 / 12.0])
    ensures Visits(b)(([[0.0, 7.0 / 12.0], [5.0 / 12.0, 1.0]], map[(0, 1) := 7.0 / 12.0, (1, 0) := 5.0 / 12.0]), (0, 0))
      == ([[0.0, 7.0 / 12.0], [5.0 / 12.0, 1.0]], map[(0, 1) := 7.0 / 12.0, (1, 0) := 5.0 / 12.0])
  {
    var g1 := [[0.0, 7.0 / 12.0], [5.0 / 12.0, 1.0]];
    var o1 := map[(0, 1) := 7.0 / 12.0];
    var o2 := map[(0, 1) := 7.0 / 12.0, (1, 0) := 5.0 / 12.0];
    assert Shaped(g0, 1, 1) && Shaped(g1, 1, 1);
    OneOnOneBattle(b, g0);
    OneOnOneRecords(b, g1);
    VisitsCell(b, g0, map[], 1, 1);
    VisitsCell(b, g1, map[], 0, 1);
    VisitsCell(b, g1, o1, 1, 0);
    VisitsCell(b, g1, o2, 0, 0);
  }

  /** A step of the fold over a grid cell is the visit of that cell. */
  lemma VisitsCell(b: Bounds, g: Cells, out: map<Key, real>, x: int, y: int)
    requires 0 <= b.aMin && 0 <= b.dMin
    requires Shaped(g, b.xMax, b.yMax) && InGrid(b, x, y)
    ensures Visits(b)((g, out), (x, y)) == VisitCell(b, g, out, x, y)
  {
  }

  /** The visits of the three lower cells once the battle has filled them. */
  lemma OneOnOneRecords(b: Bounds, g1: Cells)
    requires b == Bounds(0, 0, 1, 1) && g1 == [[0.0, 7.0 / 12.0], [5.0 / 12.0, 1.0]]
    ensures VisitCell(b, g1, map[], 0, 1) == (g1, map[(0, 1) := 7.0 / 12.0])
    ensures VisitCell(b, g1, map[(0, 1) := 7.0 / 12.0], 1, 0) == (g1, map[(0, 1) := 7.0 / 12.0, (1, 0) := 5.0 / 12.0])
    ensures VisitCell(b, g1, map[(0, 1) := 7.0 / 12.0, (1, 0) := 5.0 / 12.0], 0, 0)
      == (g1, map[(0, 1) := 7.0 / 12.0, (1, 0) := 5.0 / 12.0])
  {
  }

  /** The battle in the top cell of that grid. */
  lemma OneOnOneBattle(b: Bounds, g0: Cells)
    requires b == Bounds(0, 0, 1, 1) && g0 == [[0.0, 0.0], [0.0, 1.0]]
    ensures VisitCell(b, g0, map[], 1, 1) == ([[0.0, 7.0 / 12.0], [5.0 / 12.0, 1.0]], map[])
  {
    assert BattleRow(1, 1) == [Casualty(0, 1, 5.0 / 12.0), Casualty(1, 0, 7.0 / 12.0)];
    var row := Successors(1, 1, 1.0);
    assert row == [Successor(1, 0, 5.0 / 12.0), Successor(0, 1, 7.0 / 12.0)];
    var half := [[0.0, 0.0], [5.0 / 12.0, 1.0]];
    var g1 := [[0.0, 7.0 / 12.0], [5.0 / 12.0, 1.0]];
    assert Put(g0, 1, 0, 0.0 + 5.0 / 12.0) == half by {
      assert Put(g0, 1, 0, 0.0 + 5.0 / 12.0)[1] == half[1];
    }
    assert Put(half, 0, 1, 0.0 + 7.0 / 12.0) == g1 by {
      assert Put(half, 0, 1, 0.0 + 7.0 / 12.0)[0] == g1[0];
    }
    assert row[..1] == [Successor(1, 0, 5.0 / 12.0)];
    assert PushAll(b, g0, map[], row[..1]) == (half, map[]);
  }

  /** The sweep order of that grid. */
  lemma OneOnOneOrder(b: Bounds)
    requires b == Bounds(0, 0, 1, 1)
    ensures SweepOrder(b) == [(1, 1), (0, 1), (1, 0), (0, 0)]
  {
    assert Done(b, 1) == [(1, 1)];
    assert Done(b, 0) == [(1, 1), (0, 1), (1, 0)];
  }

  /** The run of those four visits. */
  lemma OneOnOneRun(b: Bounds, g0: Cells)
    requires b == Bounds(0, 0, 1, 1) && g0 == [[0.0, 0.0], [0.0, 1.0]]
    ensures Run(b, g0, map[], [(1, 1), (0, 1), (1, 0), (0, 0)]).1
      == map[(0, 1) := 7.0 / 12.0, (1, 0) := 5.0 / 12.0]
  {
    OneOnOneVisits(b, g0);
    FoldFour(Visits(b), (g0, map[]), (1, 1), (0, 1), (1, 0), (0, 0));
  }

  /** One attacker that must stay at zero invading one defender: one round
      settles it, the attacker winning (one attacker and no defender left)
      with chance 5/12 and losing (no attacker and one defender left) with
      chance 7/12. */
  lemma OneRoundInvasion()
    ensures InvasionOutcomes(Count(1), 1, 0, 0) == map[(1, 0) := 5.0 / 12.0, (0, 1) := 7.0 / 12.0]
  {
    var b := Bounds(0, 0, 1, 1);
    var g0 := OneOnOneSeed();
    OneOnOneOrder(b);
    OneOnOneRun(b, g0);
    assert map[(0, 1) := 7.0 / 12.0, (1, 0) := 5.0 / 12.0] == map[(1, 0) := 5.0 / 12.0, (0, 1) := 7.0 / 12.0];
  }

  /** The grid seeded with the distribution {1: 1} against one defender: the
      same as for the count 1. */
  lemma OneOnOneSeedOdds() returns (g0: Cells)
    ensures TopCount(Odds(map[1 := 1.0]), 0) == 1
    ensures g0 == SeedCells(Odds(map[1 := 1.0]), 0, 1, 1) && g0 == [[0.0, 0.0], [0.0, 1.0]]
  {
    var m := map[1 := 1.0];
    assert Largest(KeyList(m)) in KeyList(m);
    g0 := SeedCells(Odds(m), 0, 1, 1);
    assert g0[0] == [0.0, 0.0];
    assert g0[1] == [0.0, 1.0];
  }

  /** The same invasion from the distribution {1: 1} instead of the count 1
      has the same outcomes. */
  lemma OneRoundFromDistribution()
    ensures InvasionOutcomes(Odds(map[1 := 1.0]), 1, 0, 0) == map[(1, 0) := 5.0 / 12.0, (0, 1) := 7.0 / 12.0]
  {
    var b := Bounds(0, 0, 1, 1);
    var g0 := OneOnOneSeedOdds();
    OneOnOneOrder(b);
    OneOnOneRun(b, g0);
    assert map[(0, 1) := 7.0 / 12.0, (1, 0) := 5.0 / 12.0] == map[(1, 0) := 5.0 / 12.0, (0, 1) := 7.0 / 12.0];
  }
}
