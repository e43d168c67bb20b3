# Exact odds for Risk battles, invasions and campaigns

This project models the odds engine of a Risk calculator (`probability.py`) and
proves properties of it. The engine computes the exact probability distribution
over the outcomes of:

- one round of combat (`calculate_battle`, driven by the constant casualty
  table `casualty_odds`);
- an invasion fought round after round until the attacker is down to the
  retreat threshold or the defender is down to the goal (`calculate_invasion`);
- a campaign of invasions through a sequence of territories, in which one unit
  is left behind in each conquered territory (`calculate_campaign`).

It also covers the two functions that read a chance of success off those
distributions (`sum_invasion_odds`, `sum_campaign_odds`).

Probabilities are exact `real`s. A distribution is a `map` from a state to its
mass, and `Mass.Total` is the sum of its values. The modules follow the
structure of the source:

- `Mass` (mass.dfy): the sum of a map and how it changes under insertion,
  update, restriction and splitting.
- `Battle` (battle.dfy):
  - `Casualties`, the table, and `CasualtyRows`, what each row satisfies;
  - `Successors`, the specification of one round;
  - `CalculateBattle`, the list-building loop.
- `Grid` (grid.dfy): the invasion grid as a `seq<seq<real>>`, and
  `PendingMass`, the mass of the cells the diagonal sweep has not yet visited.
- `Folds` (fold.dfy): a step function folded over a list of cells, and the
  chain of states such a fold passes through.
- `Invasion` (invasion.dfy):
  - the grid sizing (`MaxAttackers`) and seeding (`SeedGrid`);
  - the sweep (`SweepGrid`, `SweepDiagonal`, `Visit`, `BattleCell`,
    `Distribute`);
  - `CalculateInvasion`.
- `Campaign` (campaign.dfy):
  - `Strand`, the mass that cannot attack;
  - `Decrement`, leaving the garrison unit behind;
  - `Partition`, splitting an invasion's outcomes into conquests and failures;
  - `Advance`, one territory;
  - `CalculateCampaign`.
- `Summary` (summary.dfy): `SumInvasionOdds` and `SumCampaignOdds`, with their
  bounds.

Each method is proved against a reference definition written as functions:

- `Invasion.VisitCell` is the visit of one cell, in the three cases of the
  source: a cell without mass is skipped, an edge cell is recorded, an inner
  cell is battled and its successors are pushed (`PushOne`, `PushAll`).
- `Invasion.SweepOrder` lists the cells in the order of the diagonal sweep,
  and `Invasion.Run` folds `VisitCell` over a list of cells.
- `Invasion.InvasionOutcomes` is the run over the sweep order of the seeded
  grid (`SeedCells`), sized by the largest starting count (`TopCount`).
- `Campaign.Stranded`, `Campaign.Remaining`, `Campaign.Decremented`,
  `Campaign.Failures` and `Campaign.Conquests` are the steps of one territory.
  `Campaign.Territory` puts them together, and `Campaign.CampaignFrom` chains
  territories.

The methods' `ensures` state that they compute exactly these definitions. The
lemmas then state what the definitions satisfy: conservation of mass, the
shape of the outcome keys, the order of the sweep, and worked examples with
their exact values.

The sweep invariant `Sweep` says four things:

- no cell falls below its seed;
- pending mass plus recorded mass is the seeded mass;
- every recorded key is terminal and was written by a visited cell;
- every visited edge cell is recorded.

`Invasion.VisitKeeps` proves that one visit keeps it. `Invasion.SweepLayer`
carries it over the whole sweep order.

Every loop over a Python dictionary is modelled as a loop that takes the keys
in some order (`Mass.Pick`), and every contract holds whatever that order is.
The reference definitions take the keys in an unspecified order too
(`Mass.AnyOf`). What they compute does not depend on that order.

The worked examples give exact values. `Battle.OneDieEach` and
`Battle.TwoDiceEach` are single rounds. `Invasion.OneRoundInvasion` is an
invasion of one attacker, with retreat threshold 0, against one defender. The
attacker wins, leaving (1, 0), with chance 5/12. The attacker loses, leaving
(0, 1), with chance 7/12. `Campaign.OneTerritoryCampaign` is a campaign of two
attackers against one territory of one defender.

The casualty table lists losses: the one-on-one row holds (0, 1) with 5/12
and (1, 0) with 7/12. A round does not return those pairs. It returns the
counts left after the losses (`probability.py:60`), so one attacker against
one defender gives (1, 0) with 5/12 and (0, 1) with 7/12, and so does the
model.

The source's default arguments are kept as Dafny default parameter values:
`chance := 1.0` on `Battle.CalculateBattle`, `aMin := 0` and `dMin := 0` on
`Invasion.CalculateInvasion`, `dMin := 0` on `Summary.SumInvasionOdds` and
`aMin := 0` on `Campaign.CalculateCampaign`.

## Model

| member | source | states |
|---|---|---|
| Battle.Casualties | probability.py:10-40 | Reference definition of the casualty table: for each of the six dice pairings, its (attacker loss, defender loss, chance) entries in the table's order. Its properties are stated by `Battle.CasualtyRows`. |
| Battle.CasualtyRows | probability.py:10-40 | Each of the six rows of the table sums to exactly 1. In every entry the two losses add up to min(attacker dice, defender dice), and every chance is positive. A row has three entries (a tie is possible) exactly when at least two attacking dice meet two defending dice, and two entries otherwise. The attacker losses within a row are pairwise different. |
| Battle.CalculateBattle | probability.py:42-64 | The result is `Successors`: one successor per entry of the row for dice (min(a,3), min(d,2)), in table order, each (a − attacker loss, d − defender loss, chance × weight). Their weights sum to the incoming chance. |
| Battle.Successors | probability.py:51-61 | Reference definition of one round: the dice are clamped to at most 3 and 2, and each entry of that table row, in order, gives the counts left after its losses at the incoming weight times its chance. |
| Battle.BattleConservesMass | probability.py:51-61 | The weights of the successors of one round sum to the incoming weight. |
| Battle.SuccessorsDecrease | probability.py:51-60 | From a ≥ 1, d ≥ 1, every successor has non-negative counts and each side loses at most two units. The losses total min(min(a,3), min(d,2)), so a + d strictly decreases, and positive incoming mass gives every successor positive mass. |
| Battle.SuccessorsDistinct | probability.py:55-61 | No two successors of one round have the same attacker count, so no two name the same state. |
| Battle.OneDieEach | probability.py:51-61 | From (1, 1) with mass 1 the round yields exactly (1, 0) with 5/12, then (0, 1) with 7/12. |
| Battle.TwoDiceEach | probability.py:51-61 | From (2, 2) with mass 1 the round yields exactly (2, 0) with 295/1296, (0, 2) with 581/1296 and (1, 1) with 420/1296, in that order. |
| Battle.ThreeDiceAgainstTwo | probability.py:51-61 | From (3, 2) with mass 1 the round yields exactly (3, 0) with 2890/7776, (1, 2) with 2275/7776 and (2, 1) with 2611/7776, in that order. |
| Invasion.MaxAttackers | probability.py:78-82 | For a single count it returns that count. For a non-empty distribution it returns a key that is at least every key (the intended maximum; see Findings). For an empty distribution it returns the retreat threshold. The result is `TopCount`, the size the reference definition uses. |
| Invasion.StarMax | probability.py:82 | The as-written `max(*attackers)`: it yields a value exactly when it receives two or more counts, and raises otherwise. |
| Invasion.StarMaxOfSeveral | probability.py:82 | With two or more keys, the as-written maximum is a key of the distribution and is at least every key, so it agrees with MaxAttackers. |
| Invasion.StarMaxOfFew | probability.py:82 | With fewer than two keys, the as-written maximum raises. |
| Invasion.SeedCells | probability.py:92-101 | Reference definition of the seeded grid: x_max + 1 columns of y_max + 1 cells, the top cell of column x holding the starting mass of count a_min + x (1 at the single count, the distribution's mass at each key) and every other cell 0. |
| Invasion.SeedGrid | probability.py:90-101 | The grid has x_max + 1 columns of y_max + 1 cells. The top row holds the starting mass: 1 for a count, the distribution's mass per key otherwise. Every other cell holds 0, and the whole grid holds the starting mass. The grid is `SeedCells`, the seeded grid of the reference definition. |
| Invasion.PushOne | probability.py:130-140 | Reference definition of pushing one successor: below either threshold it is written into the outcomes under its own state, overwriting any earlier entry; otherwise its chance is added to its own grid cell. |
| Invasion.PushAll | probability.py:130-140 | Reference definition of pushing the successors of one battle: `PushOne` applied to each in list order. |
| Invasion.VisitCell | probability.py:115-140 | Reference definition of visiting cell (x, y): a cell with mass 0 is skipped; an edge cell (x = 0 or y = 0) is written into the outcomes under (a_min + x, d_min + y) with its mass; an inner cell is battled at its counts and its mass, and its successors are pushed with `PushAll`. |
| Invasion.Visit | probability.py:113-140 | The new grid and outcomes are exactly those of `VisitCell`, the reference visit of one cell, whose three cases are the source's: skip a cell without mass, record an edge cell under its state, battle an inner cell. |
| Invasion.VisitKeeps | probability.py:113-140 | The visit of the cell next in sweep order keeps the sweep invariant and moves it one cell on. |
| Invasion.BattleCell | probability.py:128-140 | For an inner cell with mass, the new grid and outcomes are those of `VisitCell`, which here is the round's successors pushed in order. |
| Invasion.VisitInner | probability.py:128-140 | The visit of an inner cell with mass is the push of exactly the successors `CalculateBattle` returns for it. |
| Invasion.Distribute | probability.py:130-140 | The new grid and outcomes are `PushAll` of the successors: in order, a successor below a threshold is written into the outcomes under its state, any other is added to its own cell. |
| Invasion.BattleFits | probability.py:128-140 | Every successor of an inner cell either falls below a threshold or lies in the grid, so the push never indexes outside it. |
| Invasion.BattleKeeps | probability.py:128-140 | Battling an inner cell with positive mass and pushing every successor restores the sweep invariant one cell further on: the cell's mass is all in later cells or in the outcomes. |
| Invasion.SkipEmpty | probability.py:114-118 | Skipping an empty cell keeps the invariant and removes nothing from the pending mass. |
| Invasion.RecordTerminal | probability.py:124-127 | An edge cell writes its key for the first time, never overwriting, with exactly its mass, and the invariant is kept. |
| Invasion.PushBelow | probability.py:130-134 | A successor below a threshold writes a key that no earlier visit and no earlier successor of this round wrote. |
| Invasion.PushCell | probability.py:136-140 | A successor within the thresholds lands in a grid cell that is still pending, and raises the pending mass by exactly its weight. |
| Invasion.BelowKey | probability.py:130-134 | A successor of inner cell (x, y) below a threshold has a key of one of the three terminal shapes, with non-negative counts, and (x, y) is the only cell whose visit can write that key. |
| Invasion.NotPushed | probability.py:129-134 | Since the successors of one round have pairwise different attacker counts, successor i shares its count with none of the successors pushed before it, so no write of this round overwrites another. |
| Invasion.NextDiagonal | probability.py:108-113 | Ending diagonal s leaves exactly the pending cells of the start of diagonal s − 1, with x_start = max(0, s − 1 − y_max), the start of the next pass of the loop at probability.py:110. |
| Invasion.DiagonalCells | probability.py:108-113 | Reference definition of diagonal s (cells with x + y = s): x rising from max(0, s − y_max) to min(x_max, s), y = s − x falling, as the `zip` of the two ranges pairs them. |
| Invasion.SweepOrder | probability.py:108-113 | Reference definition of the sweep order: the diagonals from s = x_max + y_max down to 0, each in `DiagonalCells` order. Its properties are stated by `Invasion.SweepOrderCells`. |
| Invasion.SweepOrderCells | probability.py:106-113 | The sweep order holds every grid cell exactly once, in decreasing x + y, and in increasing x within one diagonal. |
| Invasion.DoneBlocks | probability.py:108-113 | The cells of the diagonals above s are the first diagonals of the grid, one after the other. |
| Invasion.SweepOrderBlocks | probability.py:108-113 | The sweep order is the diagonals of the grid one after the other, from the top one down. |
| Invasion.ChainVisit | probability.py:112-113 | Step k of a run along diagonal s visits cell (x, s − x) with x = x_start + k − 1, a cell of the grid. |
| Invasion.StepKeeps | probability.py:112-140 | One step of a run along a diagonal keeps the sweep invariant one cell further on. |
| Invasion.StepsKeep | probability.py:112-140 | Every state of a run along a diagonal satisfies the sweep invariant at its own position. |
| Invasion.VisitNext | probability.py:113-140 | One visit of the diagonal loop moves to the next state of the reference run along that diagonal, and the grid keeps its shape. |
| Invasion.SweepDiagonal | probability.py:109-140 | The new grid and outcomes are the reference run over the cells of diagonal s, from x_start = max(0, s − y_max) in increasing x, and the grid keeps its shape. |
| Invasion.DiagonalsKeep | probability.py:106-140 | After the first i diagonals of the reference run, the sweep invariant holds at the start of the next diagonal. |
| Invasion.SweepLayer | probability.py:106-143 | At the end of the reference run, the outcomes hold exactly the seeded mass, every key is terminal with positive mass, and each column-0 seed is found with at least its mass. |
| Invasion.StartSweep | probability.py:103-108 | Before any visit, with no outcomes, the seeded grid satisfies the sweep invariant at the top diagonal. |
| Invasion.EndSweep | probability.py:106-143 | With no cell pending, the outcomes hold all the seeded mass, and each edge cell of column 0 is found with at least its seed. |
| Invasion.SeedsFound | probability.py:97-101 | Once every edge cell is recorded, each column-0 seed is found at (a_min, d_min + j) with at least its mass. |
| Invasion.SweepGrid | probability.py:106-143 | The new grid and outcomes are the reference run over the whole sweep order. The outcomes hold exactly the seeded mass, every key is a terminal state with positive mass, and each column-0 seed is found with at least its mass. |
| Invasion.KeysOfOutcomes | probability.py:78-101 | Sized by the largest starting count and the defender count, the reachable keys are terminal, have non-negative counts and one of the three shapes, never more defenders than the start, and never more attackers than some starting count. |
| Invasion.InvasionOutcomes | probability.py:66-143 | Reference definition of what `calculate_invasion` returns: the outcomes after visiting every cell of the seeded grid, sized by the largest starting count, in sweep order, starting from no outcomes. |
| Invasion.SweepIsInvasion | probability.py:66-143 | The run over the seeded grid of the start's own size is `InvasionOutcomes`. |
| Invasion.CalculateInvasion | probability.py:66-143 | The outcomes are exactly `InvasionOutcomes`. They carry exactly the seeded mass: 1 for a count, the distribution's sum otherwise. Mass is positive. Every key is terminal (a ≤ a_min or d ≤ d_min) and non-negative. Keys have one of three shapes: an edge state of the grid, a_min − 1 attackers, or d_min − 1 defenders. No key has more defenders than the start, or more attackers than some starting count. A seed at exactly a_min is found at (a_min, defenders) with at least its mass. |
| Invasion.OneOnOneSeed | probability.py:90-101 | One attacker against one defender, threshold 0: the seeded grid is [[0, 0], [0, 1]]. |
| Invasion.OneOnOneBattle | probability.py:128-140 | Battling the top cell of that grid puts 5/12 into (1, 0) and 7/12 into (0, 1) and records nothing. |
| Invasion.OneOnOneRecords | probability.py:124-127 | The three lower cells are then recorded: (0, 1) with 7/12, (1, 0) with 5/12, and the empty (0, 0) is skipped. |
| Invasion.OneOnOneVisits | probability.py:113-140 | The four visits of that grid, each with its exact state before and after. |
| Invasion.OneOnOneOrder | probability.py:108-113 | The sweep order of the 2 × 2 grid is (1, 1), (0, 1), (1, 0), (0, 0). |
| Invasion.OneOnOneRun | probability.py:106-140 | The run of those four visits ends with outcomes {(0, 1): 7/12, (1, 0): 5/12}. |
| Invasion.OneRoundInvasion | probability.py:66-143 | An invasion of one attacker against one defender, thresholds 0, has exactly the outcomes {(1, 0): 5/12, (0, 1): 7/12}. |
| Invasion.OneOnOneSeedOdds | probability.py:78-101 | The distribution {1: 1} has largest count 1 and seeds the same grid as the count 1. |
| Invasion.OneRoundFromDistribution | probability.py:66-143 | Started from the distribution {1: 1}, the same invasion has the same outcomes. |
| Grid.Put | probability.py:140 | The updated grid keeps its shape, holds the new value in the one cell and leaves every other cell as it was. |
| Grid.PendingStep | probability.py:113-118 | Moving the sweep past cell (x, s − x) takes exactly that cell's mass out of the pending mass. |
| Grid.PendingPut | probability.py:140 | Adding to a cell changes the pending mass by the change, if the cell is pending, and not at all otherwise. |
| Campaign.Stranded | probability.py:179-181 | Reference definition of the stranded mass: when the mass at exactly a_min is present and non-zero, the failure {(a_min, defenders): that mass}, and nothing otherwise. |
| Campaign.Remaining | probability.py:179-181 | Reference definition of the counts that go on to attack: the distribution without a_min when its mass is present and non-zero, and the distribution unchanged otherwise. |
| Campaign.Strand | probability.py:179-181 | Mass at exactly a_min, when non-zero, becomes the failure {(a_min, defenders): mass} and leaves the distribution. Otherwise nothing fails and the distribution is unchanged. Mass is conserved. The results are `Stranded` and `Remaining`. |
| Campaign.Decremented | probability.py:184-188 | Reference definition of leaving the garrison unit behind: each count a moves to a − 1 with its mass. Its properties are stated by `Campaign.DecrementedAt`. |
| Campaign.Decrement | probability.py:183-188 | The result is `Decremented` of the input, and it holds the same mass. |
| Campaign.DecrementedAt | probability.py:183-188 | Count a is in the decremented distribution only if a + 1 was in the input, and every count c of the input appears as c − 1 with the same mass. |
| Campaign.FirstCampaignInvasionRaises | probability.py:176-191 | For a_min below the starting count, the first territory strands nothing and leaving the garrison unit behind turns {attackers: 1} into the one-key distribution {attackers − 1: 1}, which is what the first invasion receives. On that distribution the as-written maximum of probability.py:82 raises. |
| Campaign.GarrisonOfTwo | probability.py:183-188 | {2: 1} becomes {1: 1}. |
| Campaign.PlaceConquest | probability.py:198-200 | A conquest (no defender left) enters the carried distribution under its attacker count, which was not there before. |
| Campaign.PlaceFailure | probability.py:202-209 | A failure adds its mass under (a + 1, d), starting from 0 if the key is new, and the bookkeeping of mass is kept. |
| Campaign.PlaceOutcome | probability.py:194-209 | Placing one outcome keeps the partition bookkeeping: a conquest is carried under its attacker count, a failure is accumulated under (a + 1, d), and failures plus carried mass equal the earlier failures plus the outcomes placed so far. |
| Campaign.Conquests | probability.py:194-200 | Reference definition of the conquests: each outcome (a, 0) with no defender left contributes its mass under count a. Its properties are stated by `Campaign.ConquestsAt`. |
| Campaign.Failures | probability.py:194-209 | Reference definition of a territory's failures: the earlier failures, plus each outcome (a, d) with d ≠ 0 accumulated under (a + 1, d). Its properties are stated by `Campaign.FailuresAt` and `Campaign.FailuresKeys`. |
| Campaign.Partition | probability.py:190-209 | The failures are `Failures` of the outcomes on top of the earlier ones, the carried distribution is `Conquests` of the outcomes, and the total mass is conserved. |
| Campaign.ConquestsAt | probability.py:198-200 | Count a is a conquest exactly when (a, 0) is an outcome, with that outcome's mass. |
| Campaign.FailuresAt | probability.py:202-209 | (a, d) is a failure only if it was one already or (a − 1, d) is an outcome with defenders left. Every earlier failure stays one, and every outcome (a, d) with d ≠ 0 is a failure at (a + 1, d). The mass at (a, d) is the earlier mass plus that outcome's. |
| Campaign.FailuresKeys | probability.py:202-209 | Key k is a failure exactly when it was one already, or k has defenders and (k.0 − 1, k.1) is an outcome. Its mass is the sum of the two. |
| Campaign.OneRoundSplit | probability.py:194-209 | The outcomes {(1, 0): 5/12, (0, 1): 7/12} split into the failure {(1, 1): 7/12} and the conquest {1: 5/12}. |
| Campaign.FailureSplitShape | probability.py:179-209 | Given the outcome shapes of an invasion with goal 0, the failures of a territory have a_min or a_min + 1 attackers, 0..defenders defenders and positive mass. Stranded mass at a_min stays in them with at least its mass. |
| Campaign.CarriedShape | probability.py:193-200 | The conquests carried forward have counts in [a_min, top − 1], where top bounds the incoming counts, and positive mass. |
| Campaign.SplitShape | probability.py:176-209 | The failures and the conquests of one territory have the shapes of FailureSplitShape and CarriedShape. |
| Campaign.Invade | probability.py:190-209 | The failures and the carried distribution are `Failures` and `Conquests` of `InvasionOutcomes` of the remaining counts. Mass is conserved, and both have the shapes above. |
| Campaign.Territory | probability.py:176-209 | Reference definition of one territory: strand the mass at a_min, leave the garrison unit behind, run the invasion with goal 0 on what remains, and split its outcomes into the failures on top of the stranded mass and the conquests carried on. |
| Campaign.Advance | probability.py:176-209 | The failures and the distribution carried on are `Territory` of the incoming distribution. Mass is conserved across failures and what goes forward. Mass at exactly a_min fails at once under (a_min, defenders), with at least its mass. Every failure has a_min or a_min + 1 attackers, 0..defenders defenders and positive mass. What goes forward lies in [a_min, top − 1] and is positive. |
| Campaign.CampaignStep | probability.py:176-209 | The campaign through one more target is the campaign so far with that territory's failures appended and its conquests carried on. |
| Campaign.NextTerritory | probability.py:176-209 | One pass of the campaign loop keeps the loop invariant `Marched`: it appends one failure distribution of the campaign's failure shape, keeps the total mass 1, keeps the survivors in [a_min, attackers − passes] with positive mass and agrees with `CampaignFrom` on the targets so far. |
| Campaign.CampaignFrom | probability.py:170-213 | Reference definition of the campaign: `Territory` applied to the targets in order, each from the conquests of the one before, collecting one failure distribution per target and ending with the survivors. |
| Campaign.CalculateCampaign | probability.py:157-215 | The result is `CampaignFrom` the distribution {attackers: 1} over the targets. There is one failure distribution per target, each with the shape above. The failures and the survivors together hold total mass 1. Survivors lie in [a_min, attackers − number of targets] with positive mass. With no targets, the survivors are {attackers: 1}. |
| Campaign.OneTerritoryCampaign | probability.py:157-215 | Two attackers, threshold 0, against one territory of one defender: the territory fails with {(1, 1): 7/12} and the survivors are {1: 5/12}. |
| Summary.SumInvasionOdds | probability.py:145-155 | The result is exactly the mass of the outcomes with at most d_min defenders. For non-negative masses it lies between 0 and the total mass. |
| Summary.VictoryAndDefeat | probability.py:145-155 | The victory mass and the mass of the remaining outcomes (more than d_min defenders) add up to the total. |
| Summary.InvasionOddsBounded | probability.py:145-155 | For an outcome distribution of mass 1, such as an invasion from a single count, the chance of victory lies in [0, 1]. |
| Summary.SumCampaignOdds | probability.py:217-226 | The result is exactly the mass of the survivors. With non-negative masses it lies between 0 and the mass of the whole campaign result. |
| Summary.CampaignOddsBounded | probability.py:217-226 | For a campaign result of mass 1 with the campaign's failure shape, the chance of success lies in [0, 1]. |

## Findings

| source | as written | input that shows it | evidently intended | confidence | as-written member | corrected member |
|---|---|---|---|---|---|---|
| probability.py:82 | `max(*attackers)` passes the keys of the distribution as separate arguments. With a single key, Python iterates that one integer and raises TypeError, and with no key it also raises. | `calculate_campaign(5, [3])`: the first invasion receives `{4: 1}` | the largest starting attacker count (`max(attackers)`). That form still raises ValueError on an empty distribution, which a campaign reaches once every count has been lost or stranded: in `calculate_campaign(2, [1, 1, 1])` the third invasion receives `{}` (probability.py:184-191). The corrected member returns a_min there, which gives a grid of one column with no mass and no outcomes. | high; not executed | Campaign.FirstCampaignInvasionRaises | Invasion.MaxAttackers |

The as-written behaviour is `Invasion.StarMax`. `Invasion.StarMaxOfFew` shows
that it raises on every distribution with fewer than two keys, and
`Campaign.FirstCampaignInvasionRaises` shows that a campaign from above a_min with at least one
target always reaches this case. `Invasion.StarMaxOfSeveral` shows that it
agrees with the intended maximum once there are two keys or more. The rest of
the model uses `Invasion.MaxAttackers`, whose contract states the intended
maximum.

## Left out

- The command-line front ends (`main.py`, `minerva/main.py`), the interactive user interface, the board data in `game.py` and packaging in `setup.py` are not part of this model. Their argument checks (retreat below attackers, goal below defenders) appear here as `requires` clauses on the engine.
- Floating point: probabilities are exact reals. The rounding drift of the Python floats and any tolerance for comparing totals are not modelled.
- Invasion.MaxAttackers: for an empty distribution it returns the retreat threshold, so the invasion has a grid of one column with no mass and no outcomes. Python raises there, TypeError as written and ValueError with the intended `max(attackers)` (see Findings), so the model has no error path for it.
- Invasion.CalculateInvasion: for a distribution start, promises that a seed at exactly a_min comes back with at least its mass, not unchanged. Two kinds of round add mass to the cell (a_min, defenders) before it is recorded. One is a round from (a_min + 2, defenders) in which the attacker loses two units. The other is a round from (a_min + 1, defenders) in which the attacker loses one unit, for example the row for one attacking die against two defending dice, where that happens with chance 161/216.
- Invasion.CalculateInvasion: requires 0 ≤ a_min, 0 ≤ d_min ≤ defenders, a count of at least a_min, and distribution keys of at least a_min with non-negative masses. Outside these bounds Python behaves differently from case to case, and none of it is modelled:
  - a count below a_min, or a distribution whose largest key is below a_min, gives an empty grid, and the seeding write at probability.py:97 or :101 raises IndexError;
  - d_min above defenders gives empty columns, and the same write raises IndexError;
  - a negative mass is battled like any other; only a mass of exactly 0 is skipped (probability.py:118), so no index goes wrong;
  - a negative a_min or d_min lets the sweep battle a state with 0 or fewer armies on one side, and the casualty-table lookup at probability.py:55 then takes a negative index (see the Battle.CalculateBattle line);
  - a distribution key below a_min, with a larger key beside it, makes the seeding write at probability.py:101 take a negative column index, which Python counts from the end of the grid: the mass silently lands in a column counted back from the top one, or the write raises IndexError when the key is further below a_min than the grid is wide.
- Invasion.PushOne: has a third branch, for a successor that is neither below a threshold nor in the grid. The source has no such case, and `Invasion.BattleFits` proves that no battle produces one. The branch leaves everything unchanged.
- Battle.CalculateBattle: requires attackers ≥ 1 and defenders ≥ 1. This matches every call the sweep makes. A count below 1 gives a negative index into the casualty table (probability.py:55), which Python counts from the end, and that is not modelled. With 0 attackers the index −1 picks the row for three attacking dice. With 0 defenders the index −1 picks the two-defender entry of the row. Attacker counts of −1 and −2 and a defender count of −1 pick other rows or entries in the same way, and smaller counts raise IndexError.
- Campaign.CalculateCampaign: requires 0 ≤ a_min < attackers and non-negative target garrisons. The result is a value with two parts: the failure distribution of each territory, and the survivors after the last conquest. Python returns a list whose last element is keyed by attacker count alone.
- Campaign.CalculateCampaign: once the running distribution is empty, every later territory gets no outcomes and no failures in the model. Python raises there, and would with the intended `max(attackers)` as well: `calculate_campaign(2, [1, 1, 1])` reaches `{}` at the third target (see Findings).
- Python's dictionaries iterate in insertion order. The model takes keys in an unspecified order, so it does not capture the order of entries in a returned map. No contract depends on it.
- Inside the battle loop the source rebinds the loop variables `x` and `y`. That has no effect on the diagonal, which the `zip` drives. The model uses separate names for the successor's cell.
- The monotonicity of retreat mass in the retreat threshold is not modelled.
- A distinct "invalid scenario" error kind does not exist in the code: invalid inputs are excluded by `requires` clauses instead.
