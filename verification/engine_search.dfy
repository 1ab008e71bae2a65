/** One round of the decision engine in `mcts/mcts_engine.py` (class MCTS):
    expanding the root into one child per legal card, scoring the hand and
    selecting the child with the highest UCT value. */
module EngineSearch {

  import opened Common
  import opened Cards
  import opened EngineRules
  import opened EngineNode

  /** How many synergy checks one expansion makes on a card: one per copy of
      it in the hand when it is a legal play, none otherwise. */
  function ExpandChecks(c: Card, node: Node, playedMonster: bool, t: StateTable): nat
  {
    if IsLegal(c, node.field, playedMonster, t) then Count(node.hand, c) else 0
  }

  /** A table holding, for every card, its state after one expansion. */
  function ExpandTable(node: Node, playedMonster: bool, t: StateTable): (r: StateTable)
    ensures forall c :: (StateOf(r, c)
                         == AfterBoosts(c, node.field, node.hand, StateOf(t, c), ExpandChecks(c, node, playedMonster, t)))
  {
    var boosted := map c | c in node.hand :: AfterBoosts(c, node.field, node.hand, StateOf(t, c),
                                                         ExpandChecks(c, node, playedMonster, t));
    t + boosted
  }

  /** Appends one child per legal hand card, running the synergy check on
      each legal card as it goes; monsters are legal only while no monster
      has been played and the field can pay their tributes. */
  method Expand(node: Node, playedMonster: bool, t: StateTable) returns (r: Node, t': StateTable)
    ensures r == node.(children := node.children
                         + ChildrenFor(LegalCards(node.hand, node.field, playedMonster, t), node.hand, node.field))
    ensures forall c :: (StateOf(t', c)
                         == AfterBoosts(c, node.field, node.hand, StateOf(t, c), ExpandChecks(c, node, playedMonster, t)))
  {
    var hand, field := node.hand, node.field;
    var children := node.children;
    t' := t;
    var i := 0;
    while i < |hand|
      invariant 0 <= i <= |hand|
      invariant children == node.children + ChildrenFor(LegalCards(hand[..i], field, playedMonster, t), hand, field)
      invariant ExpandedUpTo(t', t, field, hand, playedMonster, hand[..i])
    {
      var card := hand[i];
      ghost var oldChildren, oldTable := children, t';
      var played;
      t', children, played := ExpandCard(card, hand, field, playedMonster, t', children);
      ExpandStep(node.children, oldChildren, children, oldTable, t', t, card, played, field, hand,
                 playedMonster, hand[..i]);
      assert hand[..i + 1] == hand[..i] + [card];
      i := i + 1;
    }
    assert hand[..i] == hand;
    r := node.(children := children);
  }

  /** The body of the expansion loop for one hand card. */
  method ExpandCard(card: Card, hand: seq<Card>, field: seq<Card>, playedMonster: bool, t: StateTable,
                    children: seq<Child>)
    returns (t': StateTable, children': seq<Child>, played: bool)
    ensures played == IsLegal(card, field, playedMonster, t)
    ensures t' == if played then t[card := BoostArchetypeNa(card, field, hand, StateOf(t, card))] else t
    ensures children' == children + (if played then [Child(card, Without(hand, card), field)] else [])
  {
    t', children', played := t, children, false;
    if card.kind == Monster {
      if !playedMonster {
        var need := RequiresTribute(StateOf(t, card).level);
        if |field| >= need {
          var newField := CheckEnoughTributes(field, need);
          t' := t[card := BoostArchetypeNa(card, field, hand, StateOf(t, card))];
          children' := children + [Child(card, Without(hand, card), newField)];
          played := true;
        }
      }
    } else {
      t' := t[card := BoostArchetypeNa(card, field, hand, StateOf(t, card))];
      children' := children + [Child(card, Without(hand, card), field)];
      played := true;
    }
  }

  /** The table after expansion has visited the cards of `prefix`. */
  ghost predicate ExpandedUpTo(t': StateTable, t: StateTable, field: seq<Card>, hand: seq<Card>,
                               playedMonster: bool, prefix: seq<Card>)
  {
    forall c :: (StateOf(t', c)
                 == AfterBoosts(c, field, hand, StateOf(t, c),
                                if IsLegal(c, field, playedMonster, t) then Count(prefix, c) else 0))
  }

  /** One step of the expansion loop keeps its invariant. */
  lemma ExpandStep(base: seq<Child>, oldChildren: seq<Child>, children: seq<Child>, oldTable: StateTable,
                   t': StateTable, t: StateTable, card: Card, played: bool, field: seq<Card>, hand: seq<Card>,
                   playedMonster: bool, prefix: seq<Card>)
    requires ExpandedUpTo(oldTable, t, field, hand, playedMonster, prefix)
    requires oldChildren == base + ChildrenFor(LegalCards(prefix, field, playedMonster, t), hand, field)
    requires played == IsLegal(card, field, playedMonster, oldTable)
    requires t' == if played then oldTable[card := BoostArchetypeNa(card, field, hand, StateOf(oldTable, card))]
                   else oldTable
    requires children == oldChildren + (if played then [Child(card, Without(hand, card), field)] else [])
    ensures ExpandedUpTo(t', t, field, hand, playedMonster, prefix + [card])
    ensures children == base + ChildrenFor(LegalCards(prefix + [card], field, playedMonster, t), hand, field)
  {
    assert StateOf(oldTable, card).level == StateOf(t, card).level;
    ExpandStepTable(oldTable, t', t, card, played, field, hand, playedMonster, prefix);
    ExpandStepChildren(base, oldChildren, children, t, card, played, field, hand, playedMonster, prefix);
  }

  lemma ExpandStepTable(oldTable: StateTable, t': StateTable, t: StateTable, card: Card, played: bool,
                        field: seq<Card>, hand: seq<Card>, playedMonster: bool, prefix: seq<Card>)
    requires ExpandedUpTo(oldTable, t, field, hand, playedMonster, prefix)
    requires played == IsLegal(card, field, playedMonster, t)
    requires t' == if played then oldTable[card := BoostArchetypeNa(card, field, hand, StateOf(oldTable, card))]
                   else oldTable
    ensures ExpandedUpTo(t', t, field, hand, playedMonster, prefix + [card])
  {
    assert multiset(prefix + [card]) == multiset(prefix) + multiset{card};
    if played {
      BoostStep(card, field, hand, StateOf(t, card), Count(prefix, card));
    }
    forall c
      ensures StateOf(t', c)
              == AfterBoosts(c, field, hand, StateOf(t, c),
                             if IsLegal(c, field, playedMonster, t) then Count(prefix + [card], c) else 0)
    {
      if c != card {
        assert Count(prefix + [card], c) == Count(prefix, c);
      }
    }
  }

  lemma ExpandStepChildren(base: seq<Child>, oldChildren: seq<Child>, children: seq<Child>, t: StateTable,
                           card: Card, played: bool, field: seq<Card>, hand: seq<Card>,
                           playedMonster: bool, prefix: seq<Card>)
    requires oldChildren == base + ChildrenFor(LegalCards(prefix, field, playedMonster, t), hand, field)
    requires played == IsLegal(card, field, playedMonster, t)
    requires children == oldChildren + (if played then [Child(card, Without(hand, card), field)] else [])
    ensures children == base + ChildrenFor(LegalCards(prefix + [card], field, playedMonster, t), hand, field)
  {
    LegalCardsSnoc(prefix, card, field, playedMonster, t);
    ChildrenStep(base, oldChildren, children, LegalCards(prefix, field, playedMonster, t),
                 LegalCards(prefix + [card], field, playedMonster, t), card, played, hand, field);
  }

  lemma ChildrenStep(base: seq<Child>, oldChildren: seq<Child>, children: seq<Child>,
                     legal: seq<Card>, legal': seq<Card>, card: Card, played: bool,
                     hand: seq<Card>, field: seq<Card>)
    requires oldChildren == base + ChildrenFor(legal, hand, field)
    requires legal' == legal + (if played then [card] else [])
    requires children == oldChildren + (if played then [Child(card, Without(hand, card), field)] else [])
    ensures children == base + ChildrenFor(legal', hand, field)
  {
    if played {
      ChildrenForAppend(legal, card, hand, field);
    } else {
      assert legal' == legal;
    }
  }

  /** Whether simulate sets the card's position: a tribute monster whose
      tributes the field can pay. */
  predicate PositionLocked(c: Card, hand: seq<Card>, field: seq<Card>, t: StateTable)
  {
    c in hand && c.kind == Monster && 0 < RequiresTribute(StateOf(t, c).level) <= |field|
  }

  function Lock(s: CardState, locked: bool): CardState
  {
    if locked then s.(position := Some(Attack)) else s
  }

  /** The NA the i-th hand card shows right after its synergy check in
      simulate, in closed form: with an empty field its NA as it was; else
      its default NA, plus the bonus only on the first copy of an eligible
      card. */
  function OccurrenceNa(hand: seq<Card>, field: seq<Card>, t: StateTable, i: nat): real
    requires i < |hand|
  {
    var s := StateOf(t, hand[i]);
    if |field| == 0 then s.na
    else s.defaultNa + (if hand[i] !in hand[..i] && BoostEligible(hand[i], field, hand, s) then BoostValue else 0.0)
  }

  /** The score of the first n hand cards: the sum of the NA each counted
      card shows after its check. */
  function SimulatedScore(hand: seq<Card>, field: seq<Card>, t: StateTable, n: nat): real
    requires n <= |hand|
  {
    if n == 0 then 0.0
    else SimulatedScore(hand, field, t, n - 1)
         + (if TributesPayable(hand[n - 1], field, t) then OccurrenceNa(hand, field, t, n - 1) else 0.0)
  }

  /** The score reads the table only through the states it gives. */
  lemma {:induction false} SimulatedScoreFollowsStates(hand: seq<Card>, field: seq<Card>, t1: StateTable,
                                                      t2: StateTable, n: nat)
    requires n <= |hand|
    requires forall c :: StateOf(t1, c) == StateOf(t2, c)
    ensures SimulatedScore(hand, field, t1, n) == SimulatedScore(hand, field, t2, n)
  {
    if n > 0 {
      SimulatedScoreFollowsStates(hand, field, t1, t2, n - 1);
      assert StateOf(t1, hand[n - 1]) == StateOf(t2, hand[n - 1]);
    }
  }

  lemma BoostKeepsPosition(c: Card, field: seq<Card>, hand: seq<Card>, s: CardState, locked: bool)
    ensures BoostArchetypeNa(c, field, hand, Lock(s, locked)) == Lock(BoostArchetypeNa(c, field, hand, s), locked)
  {
  }

  /** Scores the hand: checks each card's synergy, sets the position of each
      tribute monster the field can pay for (the enemy board is not passed,
      so that position is always attack), skips the monsters the field
      cannot pay for, and sums the NA of the rest. The field is returned
      unchanged. */
  method Simulate(node: Node, t: StateTable) returns (score: real, field': seq<Card>, t': StateTable)
    ensures field' == node.field
    ensures score == SimulatedScore(node.hand, node.field, t, |node.hand|)
    ensures SimulatedUpTo(t', t, node.field, node.hand, node.hand)
  {
    var hand := node.hand;
    field' := node.field;
    score, t' := SimulateCards(hand, field', t);
    assert hand[..|hand|] == hand;
  }

  /** The simulate loop over the whole hand. */
  method SimulateCards(hand: seq<Card>, field: seq<Card>, t: StateTable) returns (score: real, t': StateTable)
    ensures score == SimulatedScore(hand, field, t, |hand|)
    ensures SimulatedUpTo(t', t, field, hand, hand[..|hand|])
  {
    score := 0.0;
    t' := t;
    var i := 0;
    while i < |hand|
      invariant 0 <= i <= |hand|
      invariant score == SimulatedScore(hand, field, t, i)
      invariant SimulatedUpTo(t', t, field, hand, hand[..i])
    {
      var oldScore, oldTable := score, t';
      var sameField;
      score, sameField, t' := SimulateCard(hand[i], hand, field, t', score);
      SimulateStep(oldScore, score, oldTable, t', t, field, hand, i);
      i := i + 1;
    }
  }

  /** The state of every card after simulate has checked the cards of
      `prefix`, a prefix of the hand. */
  ghost predicate SimulatedUpTo(t': StateTable, t: StateTable, field: seq<Card>, hand: seq<Card>, prefix: seq<Card>)
  {
    forall c :: (StateOf(t', c)
      == Lock(AfterBoosts(c, field, hand, StateOf(t, c), Count(prefix, c)),
              PositionLocked(c, prefix, field, t)))
  }

  /** Whether simulate sets this card's position in the current table. */
  predicate LocksNow(card: Card, field: seq<Card>, t: StateTable)
  {
    card.kind == Monster && 0 < RequiresTribute(StateOf(t, card).level) <= |field|
  }

  /** One pass of the simulate loop, for one hand card. */
  method SimulateCard(card: Card, hand: seq<Card>, field: seq<Card>, t: StateTable, score: real)
    returns (score': real, field': seq<Card>, t': StateTable)
    ensures field' == field
    ensures var boosted := BoostArchetypeNa(card, field, hand, StateOf(t, card));
      && t' == t[card := Lock(boosted, LocksNow(card, field, t))]
      && score' == score + (if TributesPayable(card, field, t) then boosted.na else 0.0)
  {
    field' := field;
    t' := t[card := BoostArchetypeNa(card, field, hand, StateOf(t, card))];
    if card.kind == Monster {
      var need := RequiresTribute(StateOf(t', card).level);
      if need > 0 {
        if |field'| < need {
          return score, field', t';
        }
        field' := CheckEnoughTributes(field', need);
        var position := DetermineMonsterPosition(card, []);
        SetPositionAcceptsNames(StateOf(t', card), position.value);
        var outcome := SetPosition(StateOf(t', card), Some(PositionName(position.value)));
        t' := t'[card := outcome.value];
      }
    }
    score' := score + StateOf(t', card).na;
  }

  lemma SimulateStep(oldScore: real, score: real, oldTable: StateTable, t': StateTable, t: StateTable,
                     field: seq<Card>, hand: seq<Card>, i: nat)
    requires i < |hand|
    requires oldScore == SimulatedScore(hand, field, t, i)
    requires SimulatedUpTo(oldTable, t, field, hand, hand[..i])
    requires var card := hand[i];
      var boosted := BoostArchetypeNa(card, field, hand, StateOf(oldTable, card));
      && t' == oldTable[card := Lock(boosted, LocksNow(card, field, oldTable))]
      && score == oldScore + (if TributesPayable(card, field, oldTable) then boosted.na else 0.0)
    ensures score == SimulatedScore(hand, field, t, i + 1)
    ensures SimulatedUpTo(t', t, field, hand, hand[..i + 1])
  {
    var card := hand[i];
    var s0 := StateOf(t, card);
    var k := Count(hand[..i], card);
    var locked := PositionLocked(card, hand[..i], field, t);
    assert StateOf(oldTable, card) == Lock(AfterBoosts(card, field, hand, s0, k), locked);
    BoostKeepsPosition(card, field, hand, AfterBoosts(card, field, hand, s0, k), locked);
    BoostStep(card, field, hand, s0, k);
    assert hand[..i + 1] == hand[..i] + [card];
    SimulateStepScore(oldScore, score, oldTable, t, field, hand, i, k);
    SimulateStepTable(oldTable, t', t, field, hand, hand[..i], card);
  }

  lemma SimulateStepScore(oldScore: real, score: real, oldTable: StateTable, t: StateTable,
                          field: seq<Card>, hand: seq<Card>, i: nat, k: nat)
    requires i < |hand| && k == Count(hand[..i], hand[i])
    requires oldScore == SimulatedScore(hand, field, t, i)
    requires StateOf(oldTable, hand[i]).level == StateOf(t, hand[i]).level
    requires var boosted := BoostArchetypeNa(hand[i], field, hand, StateOf(oldTable, hand[i]));
      && boosted.na == AfterBoosts(hand[i], field, hand, StateOf(t, hand[i]), k + 1).na
      && score == oldScore + (if TributesPayable(hand[i], field, oldTable) then boosted.na else 0.0)
    ensures score == SimulatedScore(hand, field, t, i + 1)
  {
    assert k == 0 <==> hand[i] !in hand[..i];
  }

  lemma SimulateStepTable(oldTable: StateTable, t': StateTable, t: StateTable,
                          field: seq<Card>, hand: seq<Card>, prefix: seq<Card>, card: Card)
    requires SimulatedUpTo(oldTable, t, field, hand, prefix)
    requires var boosted := BoostArchetypeNa(card, field, hand, StateOf(oldTable, card));
      && boosted == Lock(AfterBoosts(card, field, hand, StateOf(t, card), Count(prefix, card) + 1),
                         PositionLocked(card, prefix, field, t))
      && t' == oldTable[card := Lock(boosted, LocksNow(card, field, oldTable))]
    ensures SimulatedUpTo(t', t, field, hand, prefix + [card])
  {
    assert StateOf(oldTable, card).level == StateOf(t, card).level;
    forall c
      ensures StateOf(t', c)
        == Lock(AfterBoosts(c, field, hand, StateOf(t, c), Count(prefix + [card], c)),
                PositionLocked(c, prefix + [card], field, t))
    {
      assert multiset(prefix + [card]) == multiset(prefix) + multiset{card};
    }
  }

  /** The UCT values of the children, all of them unvisited. */
  function UctValues(children: seq<Child>, t: StateTable): (r: seq<real>)
    ensures |r| == |children|
    ensures forall j :: 0 <= j < |children| ==> r[j] == UnvisitedUct(StateOf(t, children[j].card).na)
  {
    seq(|children|, j requires 0 <= j < |children| => UnvisitedUct(StateOf(t, children[j].card).na))
  }

  /** Picks the child with the highest UCT value, the earliest one on a tie;
      None when there are no children. */
  method Select(children: seq<Child>, t: StateTable) returns (best: Option<nat>)
    ensures best.None? <==> |children| == 0
    ensures best.Some? ==> IsFirstMax(UctValues(children, t), best.value)
  {
    ghost var values := UctValues(children, t);
    var bestValue: Option<real> := None;
    best := None;
    var i := 0;
    while i < |children|
      invariant 0 <= i <= |children|
      invariant best.None? <==> i == 0
      invariant bestValue.None? <==> i == 0
      invariant best.Some? ==> IsFirstMax(values[..i], best.value) && bestValue == Some(values[best.value])
    {
      var value := UnvisitedUct(StateOf(t, children[i].card).na);
      if bestValue.None? || value > bestValue.value {
        bestValue := Some(value);
        best := Some(i);
      }
      i := i + 1;
    }
    assert values[..i] == values;
  }

}
