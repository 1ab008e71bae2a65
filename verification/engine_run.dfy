/** The run loop of the decision engine in `mcts/mcts_engine.py` (class
    MCTS): one simulated round (expand, simulate, backpropagate), the
    commit of the best child, and `run_simulation`, which repeats both
    until the hand is empty or no card can be played. */
module EngineRun {

  import opened Common
  import opened Cards
  import opened EngineRules
  import opened EngineNode
  import opened EngineSearch
  import opened EngineGreedy

  /** The engine's mutable fields: the root (absent before the first run),
      the one-monster flag and the states of the card objects. */
  datatype Engine = Engine(root: Option<Node>, playedMonster: bool, cards: StateTable)

  /** One record of the move log: a played card with its id, class name,
      NA and position ("" for a non-monster), or a closing message. */
  datatype LogEntry =
    | Move(playedCard: string, cardId: CardId, cardType: string, naValue: real, position: string)
    | Message(text: string)

  const NoCardsLeft: string := "No cards left in your hand"

  /** A newly constructed engine: no root and no monster played. The
      constructor touches no card; the table starts at constructor states
      here, which does not limit `RunSimulation`, whose contract holds for
      any table. */
  function NewEngine(): (e: Engine)
    ensures e.root.None? && !e.playedMonster
    ensures forall c :: StateOf(e.cards, c) == NewState(c)
  {
    Engine(None, false, map[])
  }

  function PositionText(p: Option<Position>): string
  {
    match p
    case Some(x) => PositionName(x)
    case None => ""
  }

  /** The log record of a played card in its current state. */
  function MoveEntry(card: Card, s: CardState): (r: LogEntry)
    ensures r.Move? && r.playedCard == card.name && r.cardId == card.id && r.naValue == s.na
    ensures r.cardType == KindName(card.kind)
    ensures card.kind != Monster ==> r.position == ""
    ensures card.kind == Monster && s.position.Some? ==> r.position in {"attack", "defense"}
  {
    Move(card.name, card.id, KindName(card.kind), s.na,
         if card.kind == Monster then PositionText(s.position) else "")
  }

  /** The card of the child `select` returns: the first child of maximal
      UCT value. */
  function BestCard(children: seq<Child>, t: StateTable): Card
    requires |children| > 0
  {
    children[FirstMaxIndex(UctValues(children, t))].card
  }

  /** The table after a played monster has been put into the position the
      enemy board calls for; other cards are not touched. */
  function Placed(card: Card, t: StateTable, enemies: seq<Card>): (r: StateTable)
    ensures card.kind == Monster ==> StateOf(r, card) == StateOf(t, card).(position := DetermineMonsterPosition(card, enemies))
    ensures forall c :: c != card || card.kind != Monster ==> StateOf(r, c) == StateOf(t, c)
  {
    if card.kind == Monster then t[card := StateOf(t, card).(position := DetermineMonsterPosition(card, enemies))]
    else t
  }

  /** Commits the best child of the root: with no child, or when the field
      cannot pay the chosen monster's tributes, nothing changes and the
      result is false. Otherwise a played monster sets the one-monster
      flag and takes its position against the enemy board, one record is
      logged, and the root becomes a fresh node holding the hand without
      the played card and the same field. */
  method ProcessBestMove(e: Engine, log: seq<LogEntry>, enemies: seq<Card>)
    returns (ok: bool, e': Engine, log': seq<LogEntry>)
    requires e.root.Some?
    ensures |e.root.value.children| == 0 ==> !ok
    ensures !ok ==> e' == e && log' == log
    ensures |e.root.value.children| > 0 ==>
      var node := e.root.value;
      var card := BestCard(node.children, e.cards);
      && ok == TributesPayable(card, node.field, e.cards)
      && (ok ==>
            && e'.root == Some(FreshNode(Without(node.hand, card), node.field))
            && e'.playedMonster == (e.playedMonster || card.kind == Monster)
            && e'.cards == Placed(card, e.cards, enemies)
            && log' == log + [MoveEntry(card, StateOf(e'.cards, card))])
  {
    var node := e.root.value;
    var best := Select(node.children, e.cards);
    if best.None? {
      return false, e, log;
    }
    FirstMaxUnique(UctValues(node.children, e.cards), best.value, FirstMaxIndex(UctValues(node.children, e.cards)));
    var card := node.children[best.value].card;
    var t := e.cards;
    var playedMonster := e.playedMonster;
    var field := node.field;
    if card.kind == Monster {
      var need := RequiresTribute(StateOf(t, card).level);
      if |field| < need {
        return false, e, log;
      }
      playedMonster := true;
      field := CheckEnoughTributes(field, need);
      var position := DetermineMonsterPosition(card, enemies);
      SetPositionAcceptsNames(StateOf(t, card), position.value);
      var outcome := SetPosition(StateOf(t, card), Some(PositionName(position.value)));
      t := t[card := outcome.value];
    }
    log' := log + [MoveEntry(card, StateOf(t, card))];
    e' := Engine(Some(FreshNode(Without(node.hand, card), field)), playedMonster, t);
    ok := true;
  }

  /** The state of a card after one round from table `t`: one synergy check
      per copy in the hand during expansion (legal cards only) and another
      per copy during simulation, then the attack position for a tribute
      monster the field can pay for. */
  function RoundState(c: Card, node: Node, playedMonster: bool, t: StateTable): CardState
  {
    Lock(AfterBoosts(c, node.field, node.hand, StateOf(t, c),
                     ExpandChecks(c, node, playedMonster, t) + Count(node.hand, c)),
         PositionLocked(c, node.hand, node.field, t))
  }

  /** One round: expands the root, scores its hand on the table the
      expansion left, and backpropagates the score into the root (which
      has no parent). The enemy board plays no part. */
  method SimulateRound(e: Engine) returns (e': Engine)
    requires e.root.Some?
    ensures e'.playedMonster == e.playedMonster
    ensures e'.root.Some?
    ensures var node, node' := e.root.value, e'.root.value;
      && node'.hand == node.hand
      && node'.field == node.field
      && node'.children == node.children + ChildrenFor(LegalCards(node.hand, node.field, e.playedMonster, e.cards),
                                                       node.hand, node.field)
      && node'.visits == node.visits + 1
      && node'.wins == node.wins + SimulatedScore(node.hand, node.field, ExpandTable(node, e.playedMonster, e.cards),
                                                  |node.hand|)
    ensures forall c :: StateOf(e'.cards, c) == RoundState(c, e.root.value, e.playedMonster, e.cards)
  {
    var node := e.root.value;
    var expanded, t1 := Expand(node, e.playedMonster, e.cards);
    var score, field, t2 := Simulate(expanded, t1);
    SimulatedScoreFollowsStates(node.hand, node.field, t1, ExpandTable(node, e.playedMonster, e.cards), |node.hand|);
    RoundComposes(node, e.playedMonster, e.cards, t1, t2);
    assert expanded.hand == node.hand && expanded.field == node.field;
    ghost var expectedScore := SimulatedScore(node.hand, node.field, ExpandTable(node, e.playedMonster, e.cards), |node.hand|);
    assert score == expectedScore;
    assert expanded.(field := field) == expanded;
    var chain := Backpropagate([expanded.(field := field)], score);
    assert chain[0] == expanded.(visits := node.visits + 1, wins := node.wins + expectedScore);
    e' := e.(root := Some(chain[0]), cards := t2);
  }

  lemma RoundComposes(node: Node, playedMonster: bool, t: StateTable, t1: StateTable, t2: StateTable)
    requires forall c :: (StateOf(t1, c)
                          == AfterBoosts(c, node.field, node.hand, StateOf(t, c), ExpandChecks(c, node, playedMonster, t)))
    requires SimulatedUpTo(t2, t1, node.field, node.hand, node.hand)
    ensures forall c :: StateOf(t2, c) == RoundState(c, node, playedMonster, t)
  {
    forall c
      ensures StateOf(t2, c) == RoundState(c, node, playedMonster, t)
    {
      AfterBoostsCompose(c, node.field, node.hand, StateOf(t, c), ExpandChecks(c, node, playedMonster, t),
                         Count(node.hand, c));
      assert StateOf(t1, c).level == StateOf(t, c).level;
    }
  }

  // ---------------------------------------------------------------------
  // The run loop

  /** The engine as every round of a run started from no root finds it:
      the root has no children yet and holds the run's field, default NAs
      and levels are those of `t0`, and every card of the hand that may
      still be played shows its default NA. */
  ghost predicate FreshRound(e: Engine, t0: StateTable, field: seq<Card>)
  {
    && e.root.Some?
    && e.root.value.children == []
    && e.root.value.field == field
    && SameFixed(e.cards, t0)
    && forall c :: c in e.root.value.hand && IsLegal(c, field, e.playedMonster, t0) ==>
         StateOf(e.cards, c).na == StateOf(e.cards, c).defaultNa
  }

  /** The log record the greedy reference predicts for a played card. */
  function PlannedEntry(c: Card, t0: StateTable, enemies: seq<Card>): LogEntry
  {
    Move(c.name, c.id, KindName(c.kind), StateOf(t0, c).defaultNa,
         if c.kind == Monster then PositionName(DetermineMonsterPosition(c, enemies).value) else "")
  }

  function Records(plays: seq<Card>, t0: StateTable, enemies: seq<Card>): (r: seq<LogEntry>)
    ensures |r| == |plays|
    ensures forall i :: 0 <= i < |plays| ==> r[i] == PlannedEntry(plays[i], t0, enemies)
  {
    seq(|plays|, i requires 0 <= i < |plays| => PlannedEntry(plays[i], t0, enemies))
  }

  /** The whole log the greedy reference predicts. */
  function PlannedLog(plan: Plan, t0: StateTable, enemies: seq<Card>): seq<LogEntry>
  {
    Records(plan.plays, t0, enemies) + (if |plan.rest| == 0 then [Message(NoCardsLeft)] else [])
  }

  /** What the loop has left to do: twice the hand size, plus one while the
      root still has children. */
  function Measure(e: Engine): nat
    requires e.root.Some?
  {
    2 * |e.root.value.hand| + (if |e.root.value.children| > 0 then 1 else 0)
  }

  /** How many rounds the loop can still run: one per hand card, plus one
      while the root still has children, since a child the root already
      had may play a card that is no longer in the hand. */
  function RoundBudget(e: Engine): nat
    requires e.root.Some?
  {
    |e.root.value.hand| + (if |e.root.value.children| > 0 then 1 else 0)
  }

  /** One pass of the run loop. From a fresh round it plays exactly the
      greedy pick, and fails exactly when no card is legal. */
  method Round(e: Engine, log: seq<LogEntry>, enemies: seq<Card>, ghost t0: StateTable, ghost field: seq<Card>)
    returns (ok: bool, e': Engine, log': seq<LogEntry>)
    requires e.root.Some?
    ensures e'.root.Some?
    ensures ok ==> Measure(e') < Measure(e) && |e'.root.value.children| == 0
    ensures ok ==> |log'| == |log| + 1 && log'[..|log|] == log && log'[|log|].Move?
    ensures !ok ==> log' == log && e'.playedMonster == e.playedMonster
                    && e'.root.value.hand == e.root.value.hand && e'.root.value.field == e.root.value.field
    ensures FreshRound(e, t0, field) ==>
      var hand := e.root.value.hand;
      var legal := LegalCards(hand, field, e.playedMonster, t0);
      && (ok <==> |legal| > 0)
      && (ok ==>
            var card := GreedyPick(legal, t0);
            && e'.root.value.hand == Without(hand, card)
            && e'.playedMonster == (e.playedMonster || card.kind == Monster)
            && log' == log + [PlannedEntry(card, t0, enemies)]
            && FreshRound(e', t0, field))
  {
    var mid := SimulateRound(e);
    ok, e', log' := ProcessBestMove(mid, log, enemies);
    ghost var node := e.root.value;
    ghost var legal := LegalCards(node.hand, node.field, e.playedMonster, e.cards);
    if ok {
      RoundShrinks(node, mid.root.value, legal, mid.cards, e'.root.value);
    }
    if FreshRound(e, t0, field) {
      FreshRoundStep(e, mid, t0, field);
      assert mid.root.value.children == ChildrenFor(legal, node.hand, node.field);
      if |legal| > 0 {
        BestIsGreedy(legal, node.hand, node.field, mid.cards, t0);
        var card := GreedyPick(legal, t0);
        assert IsLegal(card, field, e.playedMonster, t0);
        FreshCommit(mid, e', card, t0, field, enemies);
      }
    }
  }

  /** A committed round leaves less to do: the played card leaves the hand
      unless it came from a child the root already had, and the new root
      has no children. */
  lemma RoundShrinks(node: Node, expanded: Node, legal: seq<Card>, t: StateTable, next: Node)
    requires expanded.hand == node.hand
    requires expanded.children == node.children + ChildrenFor(legal, node.hand, node.field)
    requires forall c :: c in legal ==> c in node.hand
    requires |expanded.children| > 0
    requires next == FreshNode(Without(node.hand, BestCard(expanded.children, t)), node.field)
    ensures 2 * |next.hand| + (if |next.children| > 0 then 1 else 0)
            < 2 * |node.hand| + (if |node.children| > 0 then 1 else 0)
  {
    if node.children == [] {
      assert expanded.children == ChildrenFor(legal, node.hand, node.field);
      BestOfNewChildren(legal, node.hand, node.field, t);
    }
  }

  /** The best of the children one expansion creates plays a hand card. */
  lemma BestOfNewChildren(legal: seq<Card>, hand: seq<Card>, field: seq<Card>, t: StateTable)
    requires forall c :: c in legal ==> c in hand
    requires |legal| > 0
    ensures BestCard(ChildrenFor(legal, hand, field), t) in hand
  {
    var children := ChildrenFor(legal, hand, field);
    var i := FirstMaxIndex(UctValues(children, t));
    assert children[i].card == legal[i];
  }

  /** A round from a fresh root ranks the children exactly as the greedy
      reference does, because the second synergy check of each legal card
      strips the bonus the first one granted. */
  lemma FreshRoundStep(e: Engine, mid: Engine, t0: StateTable, field: seq<Card>)
    requires FreshRound(e, t0, field)
    requires forall c :: StateOf(mid.cards, c) == RoundState(c, e.root.value, e.playedMonster, e.cards)
    ensures SameFixed(mid.cards, t0)
    ensures var node := e.root.value;
      var legal := LegalCards(node.hand, field, e.playedMonster, t0);
      && legal == LegalCards(node.hand, node.field, e.playedMonster, e.cards)
      && (forall c :: c in legal ==> StateOf(mid.cards, c).na == StateOf(t0, c).defaultNa)
  {
    var node := e.root.value;
    var t := e.cards;
    var pm := e.playedMonster;
    LegalCardsFollowLevels(node.hand, field, pm, t, t0);
    var legal := LegalCards(node.hand, field, pm, t0);
    forall c | c in legal
      ensures StateOf(mid.cards, c).na == StateOf(t0, c).defaultNa
    {
      SettledAfterRound(c, node, pm, t, t0);
    }
    forall c
      ensures StateOf(mid.cards, c).defaultNa == StateOf(t0, c).defaultNa
      ensures StateOf(mid.cards, c).level == StateOf(t0, c).level
    {
      assert StateOf(mid.cards, c) == RoundState(c, node, pm, t);
    }
  }

  /** When every legal card shows its default NA, `select` over their
      children picks the greedy pick. */
  lemma BestIsGreedy(legal: seq<Card>, hand: seq<Card>, field: seq<Card>, t: StateTable, t0: StateTable)
    requires |legal| > 0
    requires forall c :: c in legal ==> StateOf(t, c).na == StateOf(t0, c).defaultNa
    ensures BestCard(ChildrenFor(legal, hand, field), t) == GreedyPick(legal, t0)
  {
    var children := ChildrenFor(legal, hand, field);
    var values := UctValues(children, t);
    var nas := DefaultNas(legal, t0);
    forall k | 0 <= k < |values|
      ensures values[k] == nas[k] + Exploration
    {
      assert children[k].card == legal[k];
    }
    FirstMaxShift(nas, values, Exploration);
  }

  /** A legal hand card shows its default NA after a round: it has been
      checked at least twice, and with an empty field never. */
  lemma SettledAfterRound(c: Card, node: Node, pm: bool, t: StateTable, t0: StateTable)
    requires c in node.hand && IsLegal(c, node.field, pm, t0)
    requires SameFixed(t, t0)
    requires StateOf(t, c).na == StateOf(t, c).defaultNa
    ensures RoundState(c, node, pm, t).na == StateOf(t0, c).defaultNa
  {
    assert IsLegal(c, node.field, pm, t);
    assert Count(node.hand, c) >= 1;
  }

  /** Committing the greedy pick after a fresh round keeps the next round
      fresh and logs the predicted record. */
  lemma FreshCommit(mid: Engine, e': Engine, card: Card, t0: StateTable, field: seq<Card>, enemies: seq<Card>)
    requires mid.root.Some? && mid.root.value.field == field
    requires SameFixed(mid.cards, t0)
    requires card in mid.root.value.hand && IsLegal(card, field, mid.playedMonster, t0)
    requires forall c :: c in mid.root.value.hand && IsLegal(c, field, mid.playedMonster, t0) ==>
               StateOf(mid.cards, c).na == StateOf(t0, c).defaultNa
    requires e'.root == Some(FreshNode(Without(mid.root.value.hand, card), field))
    requires e'.playedMonster == (mid.playedMonster || card.kind == Monster)
    requires e'.cards == Placed(card, mid.cards, enemies)
    ensures FreshRound(e', t0, field)
    ensures MoveEntry(card, StateOf(e'.cards, card)) == PlannedEntry(card, t0, enemies)
  {
    forall c
      ensures StateOf(e'.cards, c).na == StateOf(mid.cards, c).na
      ensures StateOf(e'.cards, c).defaultNa == StateOf(mid.cards, c).defaultNa
      ensures StateOf(e'.cards, c).level == StateOf(mid.cards, c).level
    {
    }
    forall c | c in e'.root.value.hand && IsLegal(c, field, e'.playedMonster, t0)
      ensures StateOf(e'.cards, c).na == StateOf(e'.cards, c).defaultNa
    {
      assert IsLegal(c, field, mid.playedMonster, t0);
    }
  }

  /** Runs rounds until the hand is empty or no card can be played; then
      appends the closing message when the hand is empty. Every card of
      the initial hand starts the run reset. For a run that creates its
      root (a new engine), the log is exactly the one the greedy
      reference predicts. */
  method RunSimulation(e: Engine, initialHand: seq<Card>, userField: seq<Card>, enemies: seq<Card>)
    returns (log: seq<LogEntry>, canContinue: bool, e': Engine, ghost rounds: nat)
    ensures canContinue
    ensures e'.root.Some?
    ensures e.root.None? ==> rounds <= |initialHand|
    ensures e.root.Some? ==> rounds <= RoundBudget(e)
    ensures (|e'.root.value.hand| == 0) == (|log| > 0 && log[|log| - 1] == Message(NoCardsLeft))
    ensures forall i :: 0 <= i < |log| - 1 ==> log[i].Move?
    ensures e.root.None? ==>
      var t0 := ResetBoostedStatus(initialHand, e.cards);
      var plan := Greedy(initialHand, userField, e.playedMonster, t0);
      && log == PlannedLog(plan, t0, enemies)
      && e'.root.value.hand == plan.rest
      && e'.root.value.field == userField
      && e'.playedMonster == plan.playedMonster
  {
    ghost var fromNew := e.root.None?;
    ghost var t := ResetBoostedStatus(initialHand, e.cards);
    ghost var plan := Greedy(initialHand, userField, e.playedMonster, t);
    e' := StartRun(e, initialHand, userField);
    if fromNew {
      PlanStart(plan, initialHand, e.playedMonster, t, userField, enemies);
    }
    ghost var done;
    var moves;
    e', moves, done, rounds := RunRounds(e', [], enemies, fromNew, t, userField, plan, []);
    log := CloseLog(moves, e'.root.value.hand);
    if fromNew {
      FinishRun(plan, done, e', moves, log, t, userField, enemies);
    }
    canContinue := true;
  }

  /** Appends the closing message exactly when the hand is empty. */
  method CloseLog(moves: seq<LogEntry>, hand: seq<Card>) returns (log: seq<LogEntry>)
    requires forall i :: 0 <= i < |moves| ==> moves[i].Move?
    ensures log == moves + (if |hand| == 0 then [Message(NoCardsLeft)] else [])
    ensures (|hand| == 0) == (|log| > 0 && log[|log| - 1] == Message(NoCardsLeft))
    ensures forall i :: 0 <= i < |log| - 1 ==> log[i].Move?
  {
    log := moves;
    if |hand| == 0 {
      log := log + [Message(NoCardsLeft)];
    }
  }

  /** A run that created its root ends with the predicted log. */
  lemma FinishRun(plan: Plan, done: seq<Card>, e: Engine, moves: seq<LogEntry>, log: seq<LogEntry>, t0: StateTable,
                  field: seq<Card>, enemies: seq<Card>)
    requires Stopped(plan, done, e, moves, t0, field, enemies)
    requires log == moves + (if |e.root.value.hand| == 0 then [Message(NoCardsLeft)] else [])
    ensures log == PlannedLog(plan, t0, enemies)
    ensures e.root.value.hand == plan.rest && e.root.value.field == field && e.playedMonster == plan.playedMonster
  {
    PlanStop(plan, done, e.root.value.hand, e.playedMonster, t0, field);
  }

  /** The loop of `run_simulation`: rounds until the hand is empty or a
      round commits nothing. */
  method RunRounds(e: Engine, log: seq<LogEntry>, enemies: seq<Card>, ghost fromNew: bool, ghost t0: StateTable,
                   ghost field: seq<Card>, ghost plan: Plan, ghost done: seq<Card>)
    returns (e': Engine, log': seq<LogEntry>, ghost done': seq<Card>, ghost rounds: nat)
    requires e.root.Some?
    requires forall i :: 0 <= i < |log| ==> log[i].Move?
    requires fromNew ==> FreshRound(e, t0, field)
    requires fromNew ==> OnPlan(plan, done, e.root.value.hand, e.playedMonster, t0, field)
    requires fromNew ==> log == Records(done, t0, enemies)
    ensures e'.root.Some?
    ensures |log| <= |log'| && forall i :: 0 <= i < |log'| ==> log'[i].Move?
    ensures fromNew ==> Stopped(plan, done', e', log', t0, field, enemies)
    ensures rounds <= Measure(e) + 1
    ensures fromNew ==> rounds <= |e.root.value.hand|
    ensures rounds <= RoundBudget(e) <= 2 * |e.root.value.hand| + 1
  {
    e', log', done' := e, log, done;
    rounds := 0;
    while |e'.root.value.hand| > 0
      invariant e'.root.Some?
      invariant rounds + Measure(e') <= Measure(e)
      invariant rounds + RoundBudget(e') <= RoundBudget(e)
      invariant fromNew ==> rounds + |e'.root.value.hand| <= |e.root.value.hand|
      invariant |log| <= |log'| && forall i :: 0 <= i < |log'| ==> log'[i].Move?
      invariant fromNew ==> FreshRound(e', t0, field)
      invariant fromNew ==> OnPlan(plan, done', e'.root.value.hand, e'.playedMonster, t0, field)
      invariant fromNew ==> log' == Records(done', t0, enemies)
      decreases Measure(e')
    {
      ghost var hand, playedMonster := e'.root.value.hand, e'.playedMonster;
      var ok;
      ok, e', log' := Round(e', log', enemies, t0, field);
      rounds := rounds + 1;
      if !ok {
        assert fromNew ==> Stopped(plan, done', e', log', t0, field, enemies);
        return;
      }
      if fromNew {
        var card := PlanStep(plan, done', hand, playedMonster, t0, field);
        assert card in hand;
        RecordsSnoc(done', card, t0, enemies);
        done' := done' + [card];
      }
    }
  }

  /** How a run that created its root stops: on the plan, with the hand
      empty or no legal card left. */
  ghost predicate Stopped(plan: Plan, done: seq<Card>, e: Engine, log: seq<LogEntry>, t0: StateTable,
                          field: seq<Card>, enemies: seq<Card>)
  {
    && e.root.Some?
    && e.root.value.field == field
    && OnPlan(plan, done, e.root.value.hand, e.playedMonster, t0, field)
    && log == Records(done, t0, enemies)
    && |LegalCards(e.root.value.hand, field, e.playedMonster, t0)| == 0
  }

  /** The plan is what has been played so far followed by what the greedy
      reference plays from the current hand. */
  ghost predicate OnPlan(plan: Plan, done: seq<Card>, hand: seq<Card>, playedMonster: bool, t0: StateTable,
                         field: seq<Card>)
  {
    var rest := Greedy(hand, field, playedMonster, t0);
    && plan.plays == done + rest.plays
    && plan.rest == rest.rest
    && plan.playedMonster == rest.playedMonster
  }

  lemma PlanStep(plan: Plan, done: seq<Card>, hand: seq<Card>, playedMonster: bool, t0: StateTable,
                 field: seq<Card>) returns (card: Card)
    requires OnPlan(plan, done, hand, playedMonster, t0, field)
    requires |LegalCards(hand, field, playedMonster, t0)| > 0
    ensures card == GreedyPick(LegalCards(hand, field, playedMonster, t0), t0)
    ensures OnPlan(plan, done + [card], Without(hand, card), playedMonster || card.kind == Monster, t0, field)
  {
    card := GreedyPick(LegalCards(hand, field, playedMonster, t0), t0);
    var next := Greedy(Without(hand, card), field, playedMonster || card.kind == Monster, t0);
    GreedyUnfold(hand, field, playedMonster, t0);
    AppendAssoc(done, [card], next.plays);
  }

  lemma AppendAssoc(a: seq<Card>, b: seq<Card>, c: seq<Card>)
    ensures a + (b + c) == (a + b) + c
  {
  }

  /** Nothing played yet: the plan is all ahead and the log is empty. */
  lemma PlanStart(plan: Plan, hand: seq<Card>, playedMonster: bool, t0: StateTable, field: seq<Card>,
                  enemies: seq<Card>)
    requires plan == Greedy(hand, field, playedMonster, t0)
    ensures OnPlan(plan, [], hand, playedMonster, t0, field)
    ensures Records([], t0, enemies) == []
  {
    assert [] + plan.plays == plan.plays;
  }

  /** Once nothing is legal the plan is complete. */
  lemma PlanStop(plan: Plan, done: seq<Card>, hand: seq<Card>, playedMonster: bool, t0: StateTable,
                 field: seq<Card>)
    requires OnPlan(plan, done, hand, playedMonster, t0, field)
    requires |LegalCards(hand, field, playedMonster, t0)| == 0
    ensures plan.plays == done && plan.rest == hand && plan.playedMonster == playedMonster
  {
    assert done + [] == done;
  }

  lemma RecordsSnoc(done: seq<Card>, card: Card, t0: StateTable, enemies: seq<Card>)
    ensures Records(done + [card], t0, enemies) == Records(done, t0, enemies) + [PlannedEntry(card, t0, enemies)]
  {
  }

  /** The start of `run_simulation`: resets the initial hand and creates
      the root when there is none. A new root starts a fresh round, with
      every initial-hand card at its default NA. */
  method StartRun(e: Engine, initialHand: seq<Card>, userField: seq<Card>) returns (e': Engine)
    ensures e'.root.Some?
    ensures e.root.Some? ==> e'.root == e.root
    ensures e.root.None? ==> e'.root.value == FreshNode(initialHand, userField)
    ensures e'.playedMonster == e.playedMonster
    ensures e'.cards == ResetBoostedStatus(initialHand, e.cards)
    ensures e.root.None? ==> FreshRound(e', e'.cards, userField)
  {
    var t := ResetBoostedStatus(initialHand, e.cards);
    var root := if e.root.None? then FreshNode(initialHand, userField) else e.root.value;
    e' := Engine(Some(root), e.playedMonster, t);
  }

  // ---------------------------------------------------------------------
  // Consequences for a run of a new engine

  function MonsterMoves(log: seq<LogEntry>): nat
  {
    if |log| == 0 then 0
    else (if log[0].Move? && log[0].cardType == "Monster" then 1 else 0) + MonsterMoves(log[1..])
  }

  lemma {:induction false} MonsterMovesOfRecords(plays: seq<Card>, t0: StateTable, enemies: seq<Card>)
    ensures MonsterMoves(Records(plays, t0, enemies)) == MonsterCount(plays)
  {
    if |plays| > 0 {
      assert Records(plays, t0, enemies)[1..] == Records(plays[1..], t0, enemies);
      MonsterMovesOfRecords(plays[1..], t0, enemies);
    }
  }

  lemma MonsterMovesAppend(a: seq<LogEntry>, b: seq<LogEntry>)
    ensures MonsterMoves(a + b) == MonsterMoves(a) + MonsterMoves(b)
  {
    if |a| > 0 {
      assert (a + b)[1..] == a[1..] + b;
      MonsterMovesAppend(a[1..], b);
    } else {
      assert a + b == b;
    }
  }

  /** A run of a new engine logs at most one monster, no more moves than
      the initial hand has cards, and each logged card only once. */
  lemma RunOfNewEngine(initialHand: seq<Card>, userField: seq<Card>, enemies: seq<Card>, t: StateTable)
    ensures var t0 := ResetBoostedStatus(initialHand, t);
      var plan := Greedy(initialHand, userField, false, t0);
      var log := PlannedLog(plan, t0, enemies);
      && MonsterMoves(log) <= 1
      && |log| <= |initialHand| + 1
      && Distinct(plan.plays)
  {
    var t0 := ResetBoostedStatus(initialHand, t);
    var plan := Greedy(initialHand, userField, false, t0);
    GreedyPlaysOneMonster(initialHand, userField, false, t0);
    GreedyPlaysDistinct(initialHand, userField, false, t0);
    MonsterMovesOfRecords(plan.plays, t0, enemies);
    MonsterMovesAppend(Records(plan.plays, t0, enemies), if |plan.rest| == 0 then [Message(NoCardsLeft)] else []);
  }

}
