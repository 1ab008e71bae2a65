/** The card-level rules of the decision engine in `mcts/mcts_engine.py`:
    the monster position heuristic, the archetype synergy bonus, the tribute
    check and the per-run reset, together with the algebra of repeated
    synergy checks that the search relies on. */
module EngineRules {

  import opened Common
  import opened Text
  import opened Cards

  /** The fixed synergy bonus. */
  const BoostValue: real := 5.0

  // ---------------------------------------------------------------------
  // Monster position

  function AttackSum(cards: seq<Card>): int
  {
    if |cards| == 0 then 0 else AttackSum(cards[..|cards| - 1]) + cards[|cards| - 1].attack
  }

  function DefenseSum(cards: seq<Card>): int
  {
    if |cards| == 0 then 0 else DefenseSum(cards[..|cards| - 1]) + cards[|cards| - 1].defense
  }

  /** For 0 < n, comparing x with the average y/n is comparing x*n with y. */
  lemma AboveAverage(x: int, y: int, n: int)
    requires n > 0
    ensures (x as real) > (y as real) / (n as real) <==> x * n > y
  {
    var q := (y as real) / (n as real);
    assert q * (n as real) == y as real;
    if (x as real) > q {
      assert (x as real) * (n as real) > q * (n as real);
    } else {
      assert (x as real) * (n as real) <= q * (n as real);
    }
    assert ((x * n) as real) == (x as real) * (n as real);
  }

  /** Chooses the position of a monster against the enemy board: attack when
      its attack beats the enemies' average defense, else defense when its
      defense beats their average attack, else whichever of its own stats is
      larger (attack on a tie). Non-monsters get no position, and an empty
      (or absent) enemy board always means attack. */
  function DetermineMonsterPosition(c: Card, enemies: seq<Card>): (r: Option<Position>)
    ensures r.None? <==> c.kind != Monster
    ensures c.kind == Monster && |enemies| == 0 ==> r == Some(Attack)
    ensures c.kind == Monster && |enemies| > 0 ==>
      var n := |enemies|;
      (r == Some(Attack) <==>
         c.attack * n > DefenseSum(enemies)
         || (c.defense * n <= AttackSum(enemies) && c.attack >= c.defense))
  {
    if c.kind != Monster then None
    else if |enemies| == 0 then Some(Attack)
    else
      var n := |enemies|;
      var avgAttack := (AttackSum(enemies) as real) / (n as real);
      var avgDefense := (DefenseSum(enemies) as real) / (n as real);
      AboveAverage(c.attack, DefenseSum(enemies), n);
      AboveAverage(c.defense, AttackSum(enemies), n);
      if (c.attack as real) > avgDefense then Some(Attack)
      else if (c.defense as real) > avgAttack then Some(Defense)
      else if c.attack >= c.defense then Some(Attack)
      else Some(Defense)
  }

  /** Raising a monster's attack never moves it from attack to defense. */
  lemma PositionMonotoneInAttack(c: Card, attack: int, enemies: seq<Card>)
    requires c.kind == Monster && attack >= c.attack
    requires DetermineMonsterPosition(c, enemies) == Some(Attack)
    ensures DetermineMonsterPosition(c.(attack := attack), enemies) == Some(Attack)
  {
    var n := |enemies|;
    if n > 0 {
      assert c.attack * n <= attack * n;
    }
  }

  // ---------------------------------------------------------------------
  // Archetype synergy

  /** Empty archetypes and the placeholders "none" and "empty" (in any case)
      never take part in synergy. */
  predicate ArchetypeParticipates(archetype: string)
  {
    archetype != "" && Lower(archetype) != "none" && Lower(archetype) != "empty"
  }

  predicate SharesArchetype(cards: seq<Card>, archetype: string)
  {
    exists x :: x in cards && x.archetype == archetype
  }

  /** The card's archetype can earn the bonus: it participates and occurs in
      both the field and the hand. */
  predicate ArchetypeMatch(c: Card, field: seq<Card>, hand: seq<Card>)
  {
    && ArchetypeParticipates(c.archetype)
    && SharesArchetype(field, c.archetype)
    && SharesArchetype(hand, c.archetype)
  }

  predicate BoostEligible(c: Card, field: seq<Card>, hand: seq<Card>, s: CardState)
  {
    !s.boosted && ArchetypeMatch(c, field, hand)
  }

  /** One archetype synergy check of a card against the field and the hand.
      With an empty field nothing happens. Otherwise NA first returns to its
      default, and the bonus is added (and the card marked boosted) only
      when the card is eligible; an already boosted card thus loses the
      bonus it had. */
  function BoostArchetypeNa(c: Card, field: seq<Card>, hand: seq<Card>, s: CardState): (r: CardState)
    ensures |field| == 0 ==> r == s
    ensures |field| > 0 ==>
      && r.na == s.defaultNa + (if BoostEligible(c, field, hand, s) then BoostValue else 0.0)
      && r.boosted == (s.boosted || BoostEligible(c, field, hand, s))
      && r == s.(na := r.na, boosted := r.boosted)
  {
    if |field| == 0 then s
    else
      var reset := s.(na := s.defaultNa);
      if !ArchetypeParticipates(c.archetype) then reset
      else if reset.boosted then reset
      else if SharesArchetype(field, c.archetype) && SharesArchetype(hand, c.archetype) then
        reset.(na := reset.na + BoostValue, boosted := true)
      else reset
  }

  /** The state after `k` consecutive synergy checks of one card against the
      same field and hand, in closed form: the first check grants the bonus
      if the card is eligible, every later one strips it again. */
  function AfterBoosts(c: Card, field: seq<Card>, hand: seq<Card>, s: CardState, k: nat): CardState
  {
    if k == 0 || |field| == 0 then s
    else s.(na := s.defaultNa + (if k == 1 && BoostEligible(c, field, hand, s) then BoostValue else 0.0),
            boosted := s.boosted || ArchetypeMatch(c, field, hand))
  }

  lemma BoostStep(c: Card, field: seq<Card>, hand: seq<Card>, s: CardState, k: nat)
    ensures BoostArchetypeNa(c, field, hand, AfterBoosts(c, field, hand, s, k))
            == AfterBoosts(c, field, hand, s, k + 1)
  {
  }

  /** Two runs of checks amount to one run as long as both. */
  lemma AfterBoostsCompose(c: Card, field: seq<Card>, hand: seq<Card>, s: CardState, k1: nat, k2: nat)
    ensures AfterBoosts(c, field, hand, AfterBoosts(c, field, hand, s, k1), k2)
            == AfterBoosts(c, field, hand, s, k1 + k2)
  {
  }

  /** The bonus is not idempotent: a second check of a freshly boosted card
      takes the bonus away again. */
  lemma BoostTwiceStripsBonus(c: Card, field: seq<Card>, hand: seq<Card>, s: CardState)
    requires |field| > 0 && BoostEligible(c, field, hand, s)
    ensures BoostArchetypeNa(c, field, hand, s).na == s.defaultNa + BoostValue
    ensures BoostArchetypeNa(c, field, hand, BoostArchetypeNa(c, field, hand, s)).na == s.defaultNa
  {
  }

  /** From the second check on, further checks change nothing. */
  lemma BoostSettlesAfterTwo(c: Card, field: seq<Card>, hand: seq<Card>, s: CardState)
    ensures var twice := BoostArchetypeNa(c, field, hand, BoostArchetypeNa(c, field, hand, s));
            BoostArchetypeNa(c, field, hand, twice) == twice
  {
  }

  /** Resetting a card makes it eligible again: after a reset, a card whose
      archetype matches regains the bonus. */
  lemma ResetRestoresBonus(c: Card, field: seq<Card>, hand: seq<Card>, s: CardState)
    requires |field| > 0 && ArchetypeMatch(c, field, hand)
    ensures BoostArchetypeNa(c, field, hand, ResetState(BoostArchetypeNa(c, field, hand, s))).na
            == s.defaultNa + BoostValue
  {
  }

  // ---------------------------------------------------------------------
  // Tributes and resets

  /** The field that remains after paying `need` tributes: the whole field
      when it is large enough, nothing otherwise. No single card is ever
      taken off the field. */
  function CheckEnoughTributes(field: seq<Card>, need: int): (r: seq<Card>)
    ensures r == field || r == []
    ensures |field| >= need ==> r == field
    ensures |field| < need ==> r == []
  {
    if |field| < need then [] else field
  }

  function ResetState(s: CardState): CardState
  {
    s.(boosted := false, na := s.defaultNa)
  }

  /** Clears the boost of every listed card and restores its default NA;
      every other card keeps its state. */
  function ResetBoostedStatus(cards: seq<Card>, t: StateTable): (r: StateTable)
    ensures forall c :: c in cards ==> StateOf(r, c) == ResetState(StateOf(t, c))
    ensures forall c :: c !in cards ==> StateOf(r, c) == StateOf(t, c)
  {
    t + map c | c in cards :: ResetState(StateOf(t, c))
  }

  /** Whether the expansion may play a card: any non-monster, and a monster
      only while no monster has been played and the field can pay its
      tributes. */
  predicate IsLegal(c: Card, field: seq<Card>, playedMonster: bool, t: StateTable)
  {
    c.kind == Monster ==> !playedMonster && RequiresTribute(StateOf(t, c).level) <= |field|
  }

  /** The field can pay the card's tributes; trivially so for non-monsters. */
  predicate TributesPayable(c: Card, field: seq<Card>, t: StateTable)
  {
    !(c.kind == Monster && |field| < RequiresTribute(StateOf(t, c).level))
  }

  /** The legal cards of a hand, in hand order (duplicates kept). */
  function LegalCards(hand: seq<Card>, field: seq<Card>, playedMonster: bool, t: StateTable): (r: seq<Card>)
    ensures |r| <= |hand|
    ensures forall c :: c in r <==> c in hand && IsLegal(c, field, playedMonster, t)
  {
    if |hand| == 0 then []
    else
      var last := hand[|hand| - 1];
      var init := hand[..|hand| - 1];
      assert hand == init + [last];
      LegalCards(init, field, playedMonster, t) + (if IsLegal(last, field, playedMonster, t) then [last] else [])
  }

  lemma LegalCardsSnoc(prefix: seq<Card>, card: Card, field: seq<Card>, pm: bool, t: StateTable)
    ensures LegalCards(prefix + [card], field, pm, t)
            == LegalCards(prefix, field, pm, t) + (if IsLegal(card, field, pm, t) then [card] else [])
  {
    assert (prefix + [card])[..|prefix|] == prefix;
  }

  /** Legality reads only the level, so two tables that agree on levels give
      the same legal cards. */
  lemma {:induction false} LegalCardsFollowLevels(hand: seq<Card>, field: seq<Card>, pm: bool, t1: StateTable, t2: StateTable)
    requires forall c :: StateOf(t1, c).level == StateOf(t2, c).level
    ensures LegalCards(hand, field, pm, t1) == LegalCards(hand, field, pm, t2)
  {
    if |hand| > 0 {
      LegalCardsFollowLevels(hand[..|hand| - 1], field, pm, t1, t2);
    }
  }

}
