/** A reference for what a run of the decision engine plays: a greedy loop
    that repeatedly plays the first legal card of the highest default NA.
    The engine itself searches with UCT values; the run in `EngineRun`
    is proved to play exactly these cards. */
module EngineGreedy {

  import opened Common
  import opened Cards
  import opened EngineRules
  import opened EngineNode

  /** Two tables agree on what no step of a run changes: every card's
      default NA and its level. */
  ghost predicate SameFixed(t1: StateTable, t2: StateTable)
  {
    forall c :: StateOf(t1, c).defaultNa == StateOf(t2, c).defaultNa && StateOf(t1, c).level == StateOf(t2, c).level
  }

  function DefaultNas(cards: seq<Card>, t: StateTable): (r: seq<real>)
    ensures |r| == |cards|
    ensures forall i :: 0 <= i < |cards| ==> r[i] == StateOf(t, cards[i]).defaultNa
  {
    seq(|cards|, i requires 0 <= i < |cards| => StateOf(t, cards[i]).defaultNa)
  }

  /** The first card of the highest default NA. */
  function GreedyPick(legal: seq<Card>, t: StateTable): (c: Card)
    requires |legal| > 0
    ensures c in legal
    ensures forall x :: x in legal ==> StateOf(t, x).defaultNa <= StateOf(t, c).defaultNa
    ensures exists i :: 0 <= i < |legal| && legal[i] == c
                        && forall j :: 0 <= j < i ==> StateOf(t, legal[j]).defaultNa < StateOf(t, c).defaultNa
  {
    var nas := DefaultNas(legal, t);
    var i := FirstMaxIndex(nas);
    assert forall j :: 0 <= j < |legal| ==> nas[j] <= nas[i];
    legal[i]
  }

  /** The cards played in order, the hand left at the end, and whether a
      monster has been played by then. */
  datatype Plan = Plan(plays: seq<Card>, rest: seq<Card>, playedMonster: bool)

  /** Plays the greedy pick among the legal cards until none is legal. A
      played card leaves the hand with all its copies; a monster blocks
      every later monster. */
  function Greedy(hand: seq<Card>, field: seq<Card>, playedMonster: bool, t: StateTable): (p: Plan)
    ensures |p.plays| <= |hand|
    ensures forall c :: c in p.plays ==> c in hand
    ensures forall c :: c in p.rest <==> c in hand && c !in p.plays
    ensures LegalCards(p.rest, field, p.playedMonster, t) == []
    ensures p.playedMonster <==> playedMonster || exists c :: c in p.plays && c.kind == Monster
    decreases |hand|
  {
    var legal := LegalCards(hand, field, playedMonster, t);
    if |legal| == 0 then Plan([], hand, playedMonster)
    else
      var c := GreedyPick(legal, t);
      var next := Greedy(Without(hand, c), field, playedMonster || c.kind == Monster, t);
      Plan([c] + next.plays, next.rest, next.playedMonster)
  }

  lemma GreedyUnfold(hand: seq<Card>, field: seq<Card>, playedMonster: bool, t: StateTable)
    requires |LegalCards(hand, field, playedMonster, t)| > 0
    ensures var c := GreedyPick(LegalCards(hand, field, playedMonster, t), t);
      var next := Greedy(Without(hand, c), field, playedMonster || c.kind == Monster, t);
      Greedy(hand, field, playedMonster, t) == Plan([c] + next.plays, next.rest, next.playedMonster)
  {
  }

  /** Only cards whose tributes the field can pay are played. */
  lemma {:induction false} GreedyPlaysPayable(hand: seq<Card>, field: seq<Card>, playedMonster: bool, t: StateTable)
    ensures forall c :: c in Greedy(hand, field, playedMonster, t).plays ==> TributesPayable(c, field, t)
    decreases |hand|
  {
    var legal := LegalCards(hand, field, playedMonster, t);
    if |legal| > 0 {
      var c := GreedyPick(legal, t);
      var pm := playedMonster || c.kind == Monster;
      var next := Greedy(Without(hand, c), field, pm, t);
      GreedyPlaysPayable(Without(hand, c), field, pm, t);
      assert IsLegal(c, field, playedMonster, t);
      assert Greedy(hand, field, playedMonster, t).plays == [c] + next.plays;
    }
  }

  /** No card is played twice. */
  lemma {:induction false} GreedyPlaysDistinct(hand: seq<Card>, field: seq<Card>, playedMonster: bool, t: StateTable)
    ensures Distinct(Greedy(hand, field, playedMonster, t).plays)
    decreases |hand|
  {
    var legal := LegalCards(hand, field, playedMonster, t);
    if |legal| > 0 {
      var c := GreedyPick(legal, t);
      var pm := playedMonster || c.kind == Monster;
      var next := Greedy(Without(hand, c), field, pm, t).plays;
      GreedyPlaysDistinct(Without(hand, c), field, pm, t);
      assert c !in Without(hand, c);
      DistinctCons(c, next);
      assert Greedy(hand, field, playedMonster, t).plays == [c] + next;
    }
  }

  predicate Distinct(cards: seq<Card>)
  {
    forall i, j :: 0 <= i < j < |cards| ==> cards[i] != cards[j]
  }

  lemma DistinctCons(c: Card, cards: seq<Card>)
    requires Distinct(cards) && c !in cards
    ensures Distinct([c] + cards)
  {
    var s := [c] + cards;
    forall i, j | 0 <= i < j < |s|
      ensures s[i] != s[j]
    {
      assert s[j] == cards[j - 1];
      if i > 0 {
        assert s[i] == cards[i - 1];
      }
    }
  }

  function MonsterCount(cards: seq<Card>): nat
  {
    if |cards| == 0 then 0 else (if cards[0].kind == Monster then 1 else 0) + MonsterCount(cards[1..])
  }

  lemma {:induction false} NoMonsterCounted(cards: seq<Card>)
    requires forall c :: c in cards ==> c.kind != Monster
    ensures MonsterCount(cards) == 0
  {
    if |cards| > 0 {
      assert cards[0] in cards;
      NoMonsterCounted(cards[1..]);
    }
  }

  /** A run plays at most one monster, and none once a monster has been
      played. */
  lemma {:induction false} GreedyPlaysOneMonster(hand: seq<Card>, field: seq<Card>, playedMonster: bool, t: StateTable)
    ensures MonsterCount(Greedy(hand, field, playedMonster, t).plays) <= if playedMonster then 0 else 1
    decreases |hand|
  {
    var legal := LegalCards(hand, field, playedMonster, t);
    if |legal| > 0 {
      var c := GreedyPick(legal, t);
      var rest := Without(hand, c);
      GreedyPlaysOneMonster(rest, field, playedMonster || c.kind == Monster, t);
      var p := Greedy(hand, field, playedMonster, t);
      assert p.plays[1..] == Greedy(rest, field, playedMonster || c.kind == Monster, t).plays;
    }
  }

  /** When some monster is legal and no monster has been played, the run
      plays exactly one monster: the hand keeps it legal until some
      monster is played. */
  lemma {:induction false} GreedyPlaysLegalMonster(hand: seq<Card>, field: seq<Card>, t: StateTable, m: Card)
    requires m in hand && m.kind == Monster && IsLegal(m, field, false, t)
    ensures MonsterCount(Greedy(hand, field, false, t).plays) == 1
  {
    var p := Greedy(hand, field, false, t);
    GreedyPlaysOneMonster(hand, field, false, t);
    if m !in p.plays {
      assert m in p.rest;
      assert !IsLegal(m, field, p.playedMonster, t);
    }
    assert p.playedMonster;
    var x :| x in p.plays && x.kind == Monster;
    MonsterCounted(p.plays, x);
  }

  lemma {:induction false} MonsterCounted(cards: seq<Card>, x: Card)
    requires x in cards && x.kind == Monster
    ensures MonsterCount(cards) >= 1
  {
    if cards[0] != x {
      MonsterCounted(cards[1..], x);
    }
  }

  /** The plan reads the table only through default NAs and levels. */
  lemma {:induction false} GreedyFollowsFixed(hand: seq<Card>, field: seq<Card>, playedMonster: bool,
                                              t1: StateTable, t2: StateTable)
    requires SameFixed(t1, t2)
    ensures Greedy(hand, field, playedMonster, t1) == Greedy(hand, field, playedMonster, t2)
    decreases |hand|
  {
    LegalCardsFollowLevels(hand, field, playedMonster, t1, t2);
    var legal := LegalCards(hand, field, playedMonster, t1);
    if |legal| > 0 {
      assert DefaultNas(legal, t1) == DefaultNas(legal, t2);
      var c := GreedyPick(legal, t1);
      GreedyFollowsFixed(Without(hand, c), field, playedMonster || c.kind == Monster, t1, t2);
    }
  }

}
