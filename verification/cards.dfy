/** The card records of `mcts/Cards.py`: the five card classes as one tagged
    record, the per-card mutable fields as a separate state record, and the
    pure rules the constructors and the loader rely on. */
module Cards {

  import opened Common
  import opened Text

  type CardId = int

  /** The card classes MonsterCard, SpellCard, TrapCard, SkillCard and
      TokenCard; the value doubles as the card's `type` string. */
  datatype Kind = Monster | Spell | Trap | Skill | Token

  /** The `type` string each card class sets in its constructor. */
  function KindName(k: Kind): string
  {
    match k
    case Monster => "Monster"
    case Spell => "Spell"
    case Trap => "Trap"
    case Skill => "Skill"
    case Token => "Token"
  }

  /** The constructor arguments of a card. Two cards are the same card
      exactly when they are equal values; the catalogue id keeps distinct
      cards distinct. */
  datatype Card = Card(
    name: string,
    id: CardId,
    kind: Kind,
    archetype: string,
    effect: string,
    attack: int,
    defense: int,
    level: int,
    ep: int)

  datatype Position = Attack | Defense

  function PositionName(p: Position): string
  {
    match p
    case Attack => "attack"
    case Defense => "defense"
  }

  /** The fields a card object changes after construction. `position` is
      None for the classes that have no position attribute. */
  datatype CardState = CardState(
    na: real,
    defaultNa: real,
    boosted: bool,
    position: Option<Position>,
    level: int)

  /** The per-run table of card states. A card that has no entry still has
      the state its constructor gave it. */
  type StateTable = map<Card, CardState>

  function StateOf(t: StateTable, c: Card): CardState
  {
    if c in t then t[c] else NewState(c)
  }

  // ---------------------------------------------------------------------
  // Construction

  /** The level a card keeps after construction: the monster NA formula
      rewrites a level of 0 to 1 before dividing by it. */
  function EffectiveLevel(c: Card): (l: int)
    ensures c.kind == Monster ==> l != 0
    ensures l == c.level || (c.kind == Monster && c.level == 0 && l == 1)
  {
    if c.kind == Monster && c.level == 0 then 1 else c.level
  }

  /** The intrinsic value NA: for monsters attack/100 + 12/level + EP, for
      every other class the effect points alone. */
  function CalculateNa(c: Card): (na: real)
    ensures c.kind != Monster ==> na == c.ep as real
    ensures c.kind == Monster && c.level != 0 ==>
      na == (c.attack as real) / 100.0 + 12.0 / (c.level as real) + (c.ep as real)
    ensures c.kind == Monster && c.level == 0 ==> na == (c.attack as real) / 100.0 + 12.0 + (c.ep as real)
  {
    if c.kind == Monster then
      (c.attack as real) / 100.0 + 12.0 / (EffectiveLevel(c) as real) + (c.ep as real)
    else
      c.ep as real
  }

  /** The state a freshly constructed card object holds. */
  function NewState(c: Card): (s: CardState)
    ensures s.na == s.defaultNa == CalculateNa(c)
    ensures !s.boosted
    ensures s.position == (if c.kind == Monster then Some(Attack) else None)
    ensures c.kind == Monster ==> s.level != 0 && s.level == EffectiveLevel(c)
  {
    CardState(
      CalculateNa(c),
      CalculateNa(c),
      false,
      if c.kind == Monster then Some(Attack) else None,
      EffectiveLevel(c))
  }

  lemma NaOfExampleMonster(name: string, id: CardId, arch: string, eff: string)
    ensures CalculateNa(Card(name, id, Monster, arch, eff, 1800, 1000, 4, 0)) == 21.0
  {
  }

  /** A level-0 monster is valued exactly like the same monster at level 1. */
  lemma NaLevelZeroAsOne(c: Card)
    requires c.kind == Monster && c.level == 0
    ensures CalculateNa(c) == CalculateNa(c.(level := 1))
  {
  }

  /** More attack means strictly more NA for a monster, and no change for
      the other classes. */
  lemma NaGrowsWithAttack(c: Card, attack: int)
    requires attack > c.attack
    ensures c.kind == Monster ==> CalculateNa(c.(attack := attack)) > CalculateNa(c)
    ensures c.kind != Monster ==> CalculateNa(c.(attack := attack)) == CalculateNa(c)
  {
  }

  // ---------------------------------------------------------------------
  // Monster rules

  /** The number of tributes a monster of the given level needs. */
  function RequiresTribute(level: int): (n: nat)
    ensures n <= 2
    ensures n == 0 <==> level <= 4
    ensures n == 2 <==> level >= 7
  {
    if 5 <= level <= 6 then 1
    else if level >= 7 then 2
    else 0
  }

  lemma {:induction false} TributeMonotone(l1: int, l2: int)
    requires l1 <= l2
    ensures RequiresTribute(l1) <= RequiresTribute(l2)
  {
    if RequiresTribute(l1) == 2 {
      assert l2 >= 7;
    } else if RequiresTribute(l1) == 1 {
      assert l2 >= 5;
    }
  }

  /** Sets a monster's position from a value that must be the string
      "attack" or "defense" in any letter case; anything else (including a
      non-string, given as None) is refused and the state is left alone. */
  function SetPosition(s: CardState, position: Option<string>): (r: Result<CardState, string>)
    ensures r.Success? <==> position.Some? && Lower(position.value) in {"attack", "defense"}
    ensures r.Success? ==> exists p :: r.value == s.(position := Some(p))
                                    && PositionName(p) == Lower(position.value)
  {
    match position
    case None => Failure("Invalid position. Choose 'attack' or 'defense'.")
    case Some(text) =>
      var lowered := Lower(text);
      if lowered == "attack" then
        assert PositionName(Attack) == lowered;
        Success(s.(position := Some(Attack)))
      else if lowered == "defense" then
        assert PositionName(Defense) == lowered;
        Success(s.(position := Some(Defense)))
      else
        Failure("Invalid position. Choose 'attack' or 'defense'.")
  }

  /** Round trip: each position's lower-case name is accepted and stored
      as that position, and so are the spellings "ATTACK" and "Defense". */
  lemma SetPositionAcceptsNames(s: CardState, p: Position)
    ensures SetPosition(s, Some(PositionName(p))) == Success(s.(position := Some(p)))
    ensures p == Attack ==> SetPosition(s, Some("ATTACK")) == Success(s.(position := Some(p)))
    ensures p == Defense ==> SetPosition(s, Some("Defense")) == Success(s.(position := Some(p)))
  {
    assert Lower("attack") == "attack";
    assert Lower("defense") == "defense";
    assert Lower("ATTACK") == "attack";
    assert Lower("Defense") == "defense";
  }

  // ---------------------------------------------------------------------
  // Spell and trap targeting

  /** Spells and traps target when their lowered effect text mentions
      "destroy" or "banish"; the other classes never target. */
  function Targeting(c: Card): (r: bool)
    ensures r <==> (c.kind == Spell || c.kind == Trap)
                   && ((exists i :: OccursAt(Lower(c.effect), "destroy", i))
                       || (exists i :: OccursAt(Lower(c.effect), "banish", i)))
  {
    if c.kind == Spell || c.kind == Trap then
      Contains(Lower(c.effect), "destroy") || Contains(Lower(c.effect), "banish")
    else
      false
  }

  // ---------------------------------------------------------------------
  // Catalogue helpers

  /** The category column of the catalogue, mapped to a card class. */
  function NormalizeCardType(cardType: string): (r: Option<Kind>)
    ensures var t := Lower(Strip(cardType));
      && (r == Some(Monster) <==> exists i :: OccursAt(t, "monster", i))
      && (r == Some(Spell) <==> !(exists i :: OccursAt(t, "monster", i)) && t == "spell card")
      && (r == Some(Trap) <==> !(exists i :: OccursAt(t, "monster", i)) && t == "trap card")
      && (r == Some(Skill) <==> !(exists i :: OccursAt(t, "monster", i)) && t == "skill card")
      && (r == Some(Token) <==> !(exists i :: OccursAt(t, "monster", i)) && t == "token")
  {
    var t := Lower(Strip(cardType));
    if Contains(t, "monster") then Some(Monster)
    else if t == "spell card" then Some(Spell)
    else if t == "trap card" then Some(Trap)
    else if t == "skill card" then Some(Skill)
    else if t == "token" then Some(Token)
    else None
  }

  /** The category depends only on the canonical (stripped, lowered) text. */
  lemma {:induction false} NormalizeOfCanonical(cardType: string)
    ensures NormalizeCardType(Lower(Strip(cardType))) == NormalizeCardType(cardType)
  {
    var t := Lower(Strip(cardType));
    CanonicalIsStable(cardType);
    LowerIsIdempotent(Strip(cardType));
  }

  /** Leading white space in the category column is ignored. */
  lemma NormalizeIgnoresLeadingSpace(pad: string, cardType: string)
    requires forall k :: 0 <= k < |pad| ==> IsSpace(pad[k])
    ensures NormalizeCardType(pad + cardType) == NormalizeCardType(cardType)
  {
    StripLeftIgnoresPadding(pad, cardType);
  }

  /** The keyword weights of the effect-points feature, in catalogue order. */
  const EffectWeights: seq<(string, int)> := [
    ("destroy", 10), ("banish", 10), ("draw", 20), ("summon", 20),
    ("discard", -10), ("gain", 20), ("lose", -10), ("from your deck", 20),
    ("inflict", 20)]

  function NegativeTotal(ws: seq<(string, int)>): int
  {
    if |ws| == 0 then 0 else (if ws[0].1 < 0 then ws[0].1 else 0) + NegativeTotal(ws[1..])
  }

  function PositiveTotal(ws: seq<(string, int)>): int
  {
    if |ws| == 0 then 0 else (if ws[0].1 > 0 then ws[0].1 else 0) + PositiveTotal(ws[1..])
  }

  predicate Flagged(row: map<string, int>, key: string)
  {
    key in row && row[key] == 1
  }

  /** The weights of the keys whose flag is 1, summed. */
  function FlaggedSum(ws: seq<(string, int)>, row: map<string, int>): (sum: int)
    ensures NegativeTotal(ws) <= sum <= PositiveTotal(ws)
  {
    if |ws| == 0 then 0
    else (if Flagged(row, ws[0].0) then ws[0].1 else 0) + FlaggedSum(ws[1..], row)
  }

  /** Effect points of one catalogue row, whose keyword columns hold 1 when
      the effect text mentions the keyword. */
  function EffectPoints(row: map<string, int>): (ep: int)
    ensures -20 <= ep <= 120
  {
    assert NegativeTotal(EffectWeights) == -20;
    assert PositiveTotal(EffectWeights) == 120;
    FlaggedSum(EffectWeights, row)
  }

  predicate DistinctKeys(ws: seq<(string, int)>)
  {
    forall i, j :: 0 <= i < j < |ws| ==> ws[i].0 != ws[j].0
  }

  /** Raising one keyword flag to 1 adds exactly that keyword's weight. */
  lemma {:induction false} FlagAddsWeight(ws: seq<(string, int)>, row: map<string, int>, k: nat)
    requires DistinctKeys(ws) && k < |ws|
    requires !Flagged(row, ws[k].0)
    ensures FlaggedSum(ws, row[ws[k].0 := 1]) == FlaggedSum(ws, row) + ws[k].1
  {
    var key := ws[k].0;
    if k == 0 {
      FlagIgnoredElsewhere(ws[1..], row, key);
    } else {
      assert ws[0].0 != key;
      FlagAddsWeight(ws[1..], row, k - 1);
    }
  }

  /** A flag outside the weight list leaves the sum alone. */
  lemma {:induction false} FlagIgnoredElsewhere(ws: seq<(string, int)>, row: map<string, int>, key: string)
    requires forall i :: 0 <= i < |ws| ==> ws[i].0 != key
    ensures FlaggedSum(ws, row[key := 1]) == FlaggedSum(ws, row)
  {
    if |ws| > 0 {
      FlagIgnoredElsewhere(ws[1..], row, key);
    }
  }

  lemma EffectPointsFlag(row: map<string, int>, k: nat)
    requires k < |EffectWeights| && !Flagged(row, EffectWeights[k].0)
    ensures EffectPoints(row[EffectWeights[k].0 := 1]) == EffectPoints(row) + EffectWeights[k].1
  {
    EffectWeightsDistinct();
    FlagAddsWeight(EffectWeights, row, k);
  }

  lemma EffectWeightsDistinct()
    ensures DistinctKeys(EffectWeights)
  {
  }

}
