# Yu-Gi-Oh! card recommender: the decision engine in Dafny

This project models the core of a card-play recommender for the Yu-Gi-Oh!
trading-card game and proves properties of it. Given a hand, the player's
field and the enemy's visible cards, the engine recommends cards to play,
one per round, until the hand is empty or nothing more can be played.

The model covers three source files:

- `mcts/Cards.py`: the card classes, the intrinsic value NA, tribute costs,
  monster positions, spell and trap targeting, catalogue-type normalisation
  and effect points. Modules `Text` and `Cards`.
- `mcts/mcts_engine.py`: the engine the application uses. Modules
  `EngineRules` (position heuristic, archetype synergy bonus, tribute check,
  reset, legality), `EngineNode` (nodes, removal from the hand, the UCT value
  of unvisited children, backpropagation), `EngineSearch` (expand, simulate,
  select) and `EngineRun` (one round, committing the best move, and
  `run_simulation`). `EngineGreedy` is an independent reference: a greedy
  loop that plays the first legal card of the highest default NA.
- `mcts/MCTS.py`: an older engine that the application no longer imports.
  Module `Legacy`.

Mutable card fields (NA, default NA, `boosted`, position, and the level the
NA formula may rewrite) live in a table from card to state. A card with no
entry has the state its constructor gives it. Two cards are the same card
exactly when they are equal values; the catalogue id keeps distinct cards
distinct. Python numbers are modelled as exact reals and unbounded integers.

## Main results

- **A run is a greedy loop.** `EngineRun.RunSimulation` starts from an
  engine without a root. It produces exactly the log that
  `EngineGreedy.Greedy` predicts. Each round plays the first legal card of
  the highest *default* NA.
- **The synergy bonus never affects the choice.** `expand` checks the
  synergy of each legal card once, and `simulate` checks it again. The second
  check resets NA and then finds the card already boosted, so the bonus is
  taken away again (`EngineRules.BoostTwiceStripsBonus`,
  `EngineRules.AfterBoosts`). By the time `select` runs, every legal card
  shows its default NA.
- **At most one monster is played per run.** No card is played twice, and
  the log has at most one entry more than the hand has cards
  (`EngineRun.RunOfNewEngine`).
- **The legacy engine always recommends the first card of the hand.** Its
  `for … else` loop has no `break`, so every card pays a penalty of 5
  (`Legacy.Simulate`). The children are never visited, so `select` always
  picks the first child (`Legacy.Run`).

## Behaviour worth knowing

The model follows the code, including where its comments suggest
something else:

- Boost flags and NA are reset once, at the start of `run_simulation`
  (`mcts/mcts_engine.py:253`), and only for the cards of the initial hand.
  Between rounds nothing resets them.
- The synergy check is not idempotent, although its comment promises to
  "skip boosting if already done" (`mcts/mcts_engine.py:63-65`). The check
  first resets NA to the default (lines 55-56) and only then returns for a
  boosted card. A second check of a boosted card therefore takes its bonus
  away (`EngineRules.BoostTwiceStripsBonus`). From the second check on,
  further checks change nothing (`EngineRules.BoostSettlesAfterTwo`).
- Tributes never remove cards from the field, although the comments speak
  of an "updated field" (`mcts/mcts_engine.py:81`) and of removing
  tributes (line 173). `check_enough_tributes` returns either the whole
  field or nothing, and every caller has already checked that the field is
  large enough (`EngineRules.CheckEnoughTributes`).
- The hand is an ordered list that may hold duplicates. Playing a card
  removes every copy of it and keeps the order of the rest
  (`mcts/mcts_engine.py:133`, `mcts/mcts_engine.py:221`; `Common.Without`,
  `Common.WithoutCounts`, `Common.WithoutSnoc`). Each copy produces its own
  child and its own synergy check (`mcts/mcts_engine.py:121-147`).
- `simulate_round` calls `simulate` without the enemy cards
  (`mcts/mcts_engine.py:231`), so a simulated monster is always set to
  "attack". When a monster is committed, `process_best_move` computes its
  position against the enemy cards (lines 206-207).
- Expansion appends children to whatever children the root already has
  (`mcts/mcts_engine.py:138`, line 147). In a run that creates its root,
  though, every root a round starts from has no children. A round fails
  only when no card is legal, and then it created no child
  (`EngineRun.Round`). The tribute refusal of `process_best_move`
  (lines 199-203) never fires there, because children are created only
  for cards whose tributes the unchanged field can pay.

## Model

| member | source | states |
|---|---|---|
| Cards.CalculateNa | mcts/Cards.py:49-64 | Non-monsters are worth their effect points; a monster of non-zero level is worth attack/100 + 12/level + effect points, and a level-0 monster is worth attack/100 + 12 + effect points |
| Cards.NewState | mcts/Cards.py:33-47 | A new card's NA equals its default NA and the NA formula; it is not boosted; a monster starts in attack position with a non-zero level, and other classes have no position |
| Cards.EffectiveLevel | mcts/Cards.py:61-63 | A monster's level 0 becomes 1 and never stays 0; every other level is kept |
| Cards.NaOfExampleMonster | mcts/Cards.py:61-64 | A level-4 monster with attack 1800 and no effect points has NA 18 + 3 = 21 |
| Cards.NaLevelZeroAsOne | mcts/Cards.py:61-64 | A level-0 monster is valued exactly like the same monster at level 1 |
| Cards.NaGrowsWithAttack | mcts/Cards.py:61-64 | More attack strictly raises a monster's NA and leaves other classes' NA unchanged |
| Cards.RequiresTribute | mcts/Cards.py:74-80 | No tribute exactly up to level 4, two exactly from level 7, one otherwise, never more than two |
| Cards.TributeMonotone | mcts/Cards.py:74-80 | A higher level never needs fewer tributes |
| Cards.SetPosition | mcts/Cards.py:66-72 | Accepted exactly when the value is a string whose lower-case form is "attack" or "defense", and then stores that position and nothing else; anything else is refused |
| Cards.SetPositionAcceptsNames | mcts/Cards.py:66-72 | Round trip: each position's lower-case name is accepted and stored as that position, and so are the spellings "ATTACK" and "Defense" |
| Cards.Targeting | mcts/Cards.py:90 | True exactly for spells and traps whose lower-cased effect text contains "destroy" or "banish" (the trap constructor at line 110 uses the same test) |
| Cards.NormalizeCardType | mcts/Cards.py:15-31 | The stripped, lower-cased type is Monster exactly when it contains "monster"; otherwise the four exact names map to their classes and anything else gives None |
| Cards.NormalizeOfCanonical | mcts/Cards.py:15-16 | Normalising the already canonical text gives the same class |
| Cards.NormalizeIgnoresLeadingSpace | mcts/Cards.py:16 | Leading white space never changes the class |
| Cards.FlaggedSum | mcts/Cards.py:152-155 | The summed weights of the flagged keywords lie between the sum of the negative weights and the sum of the positive weights |
| Cards.EffectPoints | mcts/Cards.py:150-156 | Effect points lie between -20 and 120 |
| Cards.FlagAddsWeight | mcts/Cards.py:153-155 | With distinct keywords, raising one unflagged keyword to 1 adds exactly its weight |
| Cards.FlagIgnoredElsewhere | mcts/Cards.py:153-155 | A flag on a column outside the keyword list leaves the points unchanged |
| Cards.EffectPointsFlag | mcts/Cards.py:3-13 | Flagging one more keyword of the table adds exactly that keyword's weight to the effect points |
| Cards.EffectWeightsDistinct | mcts/Cards.py:3-13 | The nine keywords of the table are distinct |
| Text.Lower | mcts/Cards.py:16 | Same length; each character is case-folded on its own |
| Text.Strip | mcts/Cards.py:16 | The result is a slice of the input with only white space outside it, and it neither starts nor ends with white space |
| Text.TrimIsSlice | mcts/Cards.py:16 | Stripping the left end and then the right end leaves a slice of the text with white space alone on either side |
| Text.StripLeft | mcts/Cards.py:16 | The result is a suffix; everything removed is white space; the result does not start with white space |
| Text.StripRight | mcts/Cards.py:16 | The result is a prefix; everything removed is white space; the result does not end with white space |
| Text.Contains | mcts/Cards.py:27 | True exactly when the pattern occurs at some position |
| Text.LowerIsIdempotent | mcts/Cards.py:16 | Lower-casing twice is lower-casing once |
| Text.CanonicalIsStable | mcts/Cards.py:16 | Stripping a stripped, lower-cased text changes nothing |
| Text.StripLeftIgnoresPadding | mcts/Cards.py:16 | Leading white space added to a text is removed again |
| EngineRules.DetermineMonsterPosition | mcts/mcts_engine.py:31-46 | Non-monsters get no position; with no enemies, attack; otherwise attack exactly when attack beats the enemies' average defense, or defense does not beat their average attack and attack is at least defense |
| EngineRules.PositionMonotoneInAttack | mcts/mcts_engine.py:41-46 | Raising a monster's attack never moves it from attack to defense |
| EngineRules.BoostArchetypeNa | mcts/mcts_engine.py:48-77 | With an empty field nothing changes; otherwise NA becomes the default plus 5 exactly when the card is unboosted and its archetype takes part and occurs in field and hand; only NA and the flag change |
| EngineRules.BoostStep | mcts/mcts_engine.py:48-77 | One more synergy check advances the closed form of k checks to k + 1 checks |
| EngineRules.AfterBoostsCompose | mcts/mcts_engine.py:54-65 | k1 checks followed by k2 checks equal k1 + k2 checks |
| EngineRules.BoostTwiceStripsBonus | mcts/mcts_engine.py:54-65 | An eligible card gains the bonus on the first check and loses it on the second |
| EngineRules.BoostSettlesAfterTwo | mcts/mcts_engine.py:54-65 | From the second check on, further checks change nothing |
| EngineRules.ResetRestoresBonus | mcts/mcts_engine.py:94-99 | After a reset, a card whose archetype matches regains the bonus |
| EngineRules.CheckEnoughTributes | mcts/mcts_engine.py:80-85 | The whole field when it is large enough, nothing otherwise; no single card is ever taken off |
| EngineRules.ResetBoostedStatus | mcts/mcts_engine.py:87-105 | Every listed card becomes unboosted with its default NA; every other card keeps its state |
| EngineRules.LegalCards | mcts/mcts_engine.py:121-127 | A card is listed exactly when it is in the hand and is not a monster, or is a monster while none was played and the field pays its tributes |
| EngineRules.LegalCardsSnoc | mcts/mcts_engine.py:121-127 | Adding a card to the end of the hand adds it to the end of the legal cards exactly when it is legal |
| EngineRules.LegalCardsFollowLevels | mcts/mcts_engine.py:122-125 | Two tables that agree on levels give the same legal cards |
| Common.Without | mcts/mcts_engine.py:221 | Exactly the other cards remain; the length drops by the number of copies of the played card |
| Common.WithoutCounts | mcts/mcts_engine.py:221 | Every other card keeps all its copies, and the played card keeps none |
| Common.WithoutSnoc | mcts/mcts_engine.py:221 | The rest keeps its order: a card at the end of the hand stays at the end of the result unless it is the played card |
| EngineNode.ChildrenFor | mcts/mcts_engine.py:132-147 | One child per listed card, holding that card, the hand without it and the unchanged field |
| EngineNode.FirstMaxIndex | mcts/mcts_engine.py:109-116 | The result holds the maximum, and every earlier value is strictly smaller |
| EngineNode.FirstMaxShift | mcts/mcts_engine.py:112-116 | Adding the same constant to every value keeps the first maximum |
| EngineNode.Backpropagate | mcts/mcts_engine.py:184-189 | Walking from a node up through its parents, every node gains one visit and the result, and keeps its hand, field and children |
| EngineSearch.ExpandTable | mcts/mcts_engine.py:119-147 | Every card's state after expansion is its state after one synergy check per legal copy in the hand |
| EngineSearch.Expand | mcts/mcts_engine.py:119-153 | Appends one child per legal hand card, in hand order; every card's state is checked once per legal copy |
| EngineSearch.ExpandCard | mcts/mcts_engine.py:121-147 | A card is played exactly when it is legal; only then is it checked and given a child |
| EngineSearch.Simulate | mcts/mcts_engine.py:155-182 | The score sums, over hand cards whose tributes the field pays, the NA each shows after its check; each card's final state is its boosted state, locked in attack position when it is a payable tribute monster |
| EngineSearch.SimulateCard | mcts/mcts_engine.py:159-180 | One loop pass checks the card, sets the attack position of a payable tribute monster, and adds its NA unless its tributes are unpaid |
| EngineSearch.SimulatedScoreFollowsStates | mcts/mcts_engine.py:159-182 | The score reads the table only through the card states |
| EngineSearch.BoostKeepsPosition | mcts/mcts_engine.py:161-177 | A synergy check never touches the position that simulate has set |
| EngineSearch.UctValues | mcts/mcts_engine.py:13-17 | Each child's value is the UCT value of an unvisited child (`EngineNode.UnvisitedUct`): its card's NA plus 1.41 |
| EngineSearch.Select | mcts/mcts_engine.py:107-117 | None exactly when there are no children; otherwise the first child of the highest UCT value |
| EngineGreedy.GreedyPick | mcts/mcts_engine.py:109-116 | A legal card of the highest default NA that no earlier card ties |
| EngineGreedy.Greedy | mcts/mcts_engine.py:262-265 | Plays no more cards than the hand holds and only hand cards; the rest is the hand minus the plays and has no legal card; the monster flag is set exactly when it was set or a monster was played |
| EngineGreedy.GreedyPlaysPayable | mcts/mcts_engine.py:199-203 | Every played card's tributes can be paid |
| EngineGreedy.GreedyPlaysDistinct | mcts/mcts_engine.py:221-222 | No card is played twice |
| EngineGreedy.GreedyPlaysOneMonster | mcts/mcts_engine.py:122-123 | At most one monster is played, and none once a monster has been played |
| EngineGreedy.GreedyPlaysLegalMonster | mcts/mcts_engine.py:122-127 | If a monster of the hand is legal, exactly one monster is played |
| EngineGreedy.GreedyFollowsFixed | mcts/mcts_engine.py:121-127 | The plan depends only on default NAs and levels |
| EngineRun.NewEngine | mcts/mcts_engine.py:23-28 | A new engine has no root and no monster played. The constructor touches no card; the model starts the table at constructor states, which does not limit the results, because `EngineRun.RunSimulation` is proved for any table the cards hold |
| EngineRun.MoveEntry | mcts/mcts_engine.py:212-218 | The log record carries the card's name, id, class name and NA; the position is "" for non-monsters and "attack" or "defense" for monsters |
| EngineRun.Placed | mcts/mcts_engine.py:204-207 | A committed monster takes the position computed against the enemy cards; nothing else changes |
| EngineRun.ProcessBestMove | mcts/mcts_engine.py:191-223 | With no child, or when the best child's tributes cannot be paid, fails and changes nothing; otherwise commits the best child, which means a fresh root without the card, the monster flag, the position and one log record |
| EngineRun.SimulateRound | mcts/mcts_engine.py:226-239 | The root keeps hand and field, gains the children of its legal cards, one visit and the simulated score; every card ends in its per-round state |
| EngineRun.RoundComposes | mcts/mcts_engine.py:230-231 | Expansion followed by simulation leaves every card in its per-round state |
| EngineRun.Round | mcts/mcts_engine.py:262-265 | A committed round shrinks what remains, leaves a root with no children and logs one move; a failed round changes neither log nor hand; from a fresh round it succeeds exactly when some card is legal and commits the greedy pick |
| EngineRun.RoundShrinks | mcts/mcts_engine.py:262-265 | A committed round lowers the remaining work: the new root has no children, and the played card leaves the hand whenever the root had no children before |
| EngineRun.BestOfNewChildren | mcts/mcts_engine.py:192-197 | The best of the new children plays a card of the hand |
| EngineRun.FreshRoundStep | mcts/mcts_engine.py:230-231 | After a round from a fresh state, default NAs and levels are unchanged, and every legal card shows its default NA |
| EngineRun.BestIsGreedy | mcts/mcts_engine.py:107-117 | When every legal card shows its default NA, the selected child plays the greedy pick |
| EngineRun.SettledAfterRound | mcts/mcts_engine.py:131 | A legal card that shows its default NA before a round shows it again afterwards |
| EngineRun.FreshCommit | mcts/mcts_engine.py:220-222 | Committing the greedy pick keeps the next round fresh and logs the predicted record |
| EngineRun.StartRun | mcts/mcts_engine.py:251-259 | Resets the initial hand; creates the root from the initial hand and field only when there is none |
| EngineRun.RunRounds | mcts/mcts_engine.py:262-265 | The loop logs only moves and, from a fresh start, stops on the greedy plan; it runs at most one round per hand card, plus one more when the root already has children (whose best child may play a card no longer in the hand), the final failing round included, hence at most 2 rounds per hand card plus one |
| EngineRun.CloseLog | mcts/mcts_engine.py:267-271 | The closing message is appended exactly when the hand is empty |
| EngineRun.FinishRun | mcts/mcts_engine.py:262-271 | A run that created its root ends with the predicted log, the plan's remaining hand and monster flag, and the user's field |
| EngineRun.RunSimulation | mcts/mcts_engine.py:249-271 | Always allows continuing; the log ends with the closing message exactly when the hand is empty; a run that creates its root logs exactly the greedy plan and runs at most as many rounds as the initial hand has cards; a run on an existing root runs at most one round per card of the root's hand, plus one when that root has children |
| EngineRun.MonsterMovesOfRecords | mcts/mcts_engine.py:212-218 | The planned log holds as many monster records as the plan plays monsters |
| EngineRun.RunOfNewEngine | mcts/mcts_engine.py:249-271 | A run of a new engine logs at most one monster, at most one record more than the hand has cards, and no card twice |
| Legacy.UctValue | mcts/MCTS.py:14-17 | An unvisited node's value is +infinity; a visited node's value is finite |
| Legacy.Select | mcts/MCTS.py:25-34 | None exactly when there are no children; otherwise the first child of the largest UCT value |
| Legacy.FirstUnvisitedIsBest | mcts/MCTS.py:25-34 | When child k is the first unvisited child, the child Select picks is exactly k |
| Legacy.ExpansionOf | mcts/MCTS.py:36-42 | One child per hand position, which plays that card and holds the hand without it, with zero counters |
| Legacy.Expand | mcts/MCTS.py:36-42 | Appends exactly those children after the existing ones, so a second expansion duplicates them |
| Legacy.ChildDropsPlayedCard | mcts/MCTS.py:39 | A child's hand lacks the played card, keeps every other card and is smaller |
| Legacy.Beaten | mcts/MCTS.py:53-55 | The number of enemies a card beats is at most the number of enemies |
| Legacy.Simulate | mcts/MCTS.py:44-58 | The score is the sum over hand cards of NA times the number of enemies with lower attack, less 5 per card |
| Legacy.SimulateCard | mcts/MCTS.py:53-57 | One hand card adds its NA per beaten enemy and then always loses 5, because the loop has no `break` |
| Legacy.TimesIsProduct | mcts/MCTS.py:53-55 | Adding NA once per beaten enemy is NA times the count |
| Legacy.CardScoreIsProduct | mcts/MCTS.py:52-57 | A card's score is NA times the enemies it beats, minus 5 |
| Legacy.ScoreWithoutEnemies | mcts/MCTS.py:52-58 | With no enemies the score is -5 per hand card |
| Legacy.ScoreAtLeastPenalties | mcts/MCTS.py:52-58 | With non-negative NAs the score is at least -5 per card |
| Legacy.ScoreAtMostAllBeaten | mcts/MCTS.py:52-58 | With non-negative NAs the score is at most the score of beating every enemy |
| Legacy.CardScoreBounds | mcts/MCTS.py:52-57 | With non-negative NA one card scores at least -5 and at most its NA once per enemy, minus 5 |
| Legacy.Backpropagate | mcts/MCTS.py:60-65 | The root gains one visit and the result; children off the path are unchanged; the tree keeps its shape |
| Legacy.BackpropagateAlongPath | mcts/MCTS.py:60-65 | Every node on the path, the end node and the root included, gains one visit and the result |
| Legacy.Round | mcts/MCTS.py:70-79 | One pass keeps the hand, appends the expansion, adds one visit and the hand's score to the root; it recommends nothing exactly when there are no children and no cards; while every child is unvisited, all stay unvisited and the first child is recommended |
| Legacy.RecommendingRound | mcts/MCTS.py:72-79 | After k rounds, one more appends a further copy of the expansion and recommends the first card of the hand |
| Legacy.Run | mcts/MCTS.py:67-83 | After n rounds the root holds n copies of the expansion, n visits and n times the hand's score, and every round recommended the first card of the hand |
| Legacy.FirstRoundPlaysFirstCard | mcts/MCTS.py:69-79 | The first round over a non-empty hand recommends its first card |

## Left out

- `app.py` (the web front end), `load_cards_from_csv` (reading the catalogue file), and all `print` output. They are I/O.
- `apply_effect`, `trigger` and `apply_skill` in `mcts/Cards.py`. They only print.
- `card_images`, the `simulations` count, and `mode`/`determine_mode`. No decision reads them.
- The `"Generic"` type string of the base class. Every card is built through one of the five classes.
- The visited branch of the UCT value (`mcts/mcts_engine.py:18-20`, `mcts/MCTS.py:17`), which uses floating-point `sqrt` and `log`. In the engine no child is ever visited, so the branch is unreachable. In the legacy engine its value is the parameter `visited`.
- The interactive `input()` prompt of `MCTS.run` in `mcts/MCTS.py`. `Legacy.Run` takes the number of rounds instead.
- Floating point. NA, averages and scores are exact reals. Ties and comparisons that rounding could flip are not modelled.
- EngineRun.SimulateRound: it takes no enemy cards, because `simulate_round` never passes them to `simulate`.
- EngineRun.RunSimulation: for an engine that already has a root, only the shape of the log is stated, not its exact content.
- Text.Lower: it folds ASCII letters only, whereas Python's `str.lower` also folds other letters. U+212A KELVIN SIGN lowers to `k`, so a position or card type spelled with it is accepted by the source and refused by `Cards.SetPosition` and `Cards.NormalizeCardType`.
- Legacy.Select: it returns the position of the chosen child rather than the child itself.
- Legacy.Run: it models only the rounds that follow a "yes" answer. The prompt itself and the comparison of the answer are not modelled.
