/** The older engine in `mcts/MCTS.py`, which the application no longer
    uses: a tree of nodes holding a hand, the UCT value of a node, and the
    select, expand, simulate and backpropagate steps of one search round.
    It reads a card's attack as `atk`, which the classes of `mcts/Cards.py`
    call `attack`, so it has a card type of its own. */
module Legacy {

  import opened Common

  /** A card as this engine reads it. The engine imports no card class, so
      whether two cards compare by identity or by value is not fixed by it;
      `ident` is left free and covers both readings, since cards with equal
      fields may carry equal or distinct `ident`s. */
  datatype LegacyCard = LegacyCard(ident: nat, name: string, atk: int, na: real)

  /** A search node: its hand, the card played to reach it, its counters and
      its children. The parent link is the position in the tree. */
  datatype LegacyNode = LegacyNode(
    hand: seq<LegacyCard>,
    played: Option<LegacyCard>,
    visits: nat,
    wins: real,
    children: seq<LegacyNode>)

  function NewNode(hand: seq<LegacyCard>): LegacyNode
  {
    LegacyNode(hand, None, 0, 0.0, [])
  }

  // ---------------------------------------------------------------------
  // UCT values and selection

  /** A UCT value, with the two infinities the code compares against. */
  datatype Score = NegInfinity | Finite(v: real) | PosInfinity

  predicate Above(a: Score, b: Score)
  {
    match (a, b)
    case (PosInfinity, PosInfinity) => false
    case (PosInfinity, _) => true
    case (Finite(x), NegInfinity) => true
    case (Finite(x), Finite(y)) => x > y
    case _ => false
  }

  /** The UCT value of a child: +infinity when unvisited; the visited value
      (an average plus a square-root exploration term) is the parameter
      `visited`. */
  function UctValue(n: LegacyNode, visited: LegacyNode -> real): (r: Score)
    ensures r == PosInfinity <==> n.visits == 0
    ensures r != NegInfinity
  {
    if n.visits == 0 then PosInfinity else Finite(visited(n))
  }

  function UctValues(children: seq<LegacyNode>, visited: LegacyNode -> real): (r: seq<Score>)
    ensures |r| == |children|
    ensures forall i :: 0 <= i < |children| ==> r[i] == UctValue(children[i], visited)
  {
    seq(|children|, i requires 0 <= i < |children| => UctValue(children[i], visited))
  }

  /** `i` holds a largest value and every earlier value is strictly smaller. */
  predicate IsFirstBest(xs: seq<Score>, i: int)
  {
    && 0 <= i < |xs|
    && (forall j :: 0 <= j < |xs| ==> !Above(xs[j], xs[i]))
    && (forall j :: 0 <= j < i ==> Above(xs[i], xs[j]))
  }

  /** Returns the position of the child to play: the first child of the
      largest UCT value, or None when there are no children. */
  method Select(node: LegacyNode, visited: LegacyNode -> real) returns (best: Option<nat>)
    ensures best.None? <==> |node.children| == 0
    ensures best.Some? ==> IsFirstBest(UctValues(node.children, visited), best.value)
  {
    var values := UctValues(node.children, visited);
    var bestValue := NegInfinity;
    best := None;
    var i := 0;
    while i < |node.children|
      invariant 0 <= i <= |node.children|
      invariant best.None? <==> i == 0
      invariant best.None? ==> bestValue == NegInfinity
      invariant best.Some? ==> best.value < i && bestValue == values[best.value]
      invariant forall j :: 0 <= j < i ==> !Above(values[j], bestValue)
      invariant best.Some? ==> forall j :: 0 <= j < best.value ==> Above(bestValue, values[j])
    {
      var value := UctValue(node.children[i], visited);
      if Above(value, bestValue) {
        bestValue := value;
        best := Some(i);
      }
      i := i + 1;
    }
  }

  /** Whatever the visited values, the first unvisited child wins over every
      child before it, so when every child is unvisited the first is chosen,
      and in general the choice is never a child after the first unvisited
      one. */
  lemma FirstUnvisitedIsBest(children: seq<LegacyNode>, visited: LegacyNode -> real, i: nat, k: nat)
    requires IsFirstBest(UctValues(children, visited), i)
    requires k < |children| && children[k].visits == 0
    requires forall j :: 0 <= j < k ==> children[j].visits > 0
    ensures i == k
  {
    var xs := UctValues(children, visited);
    assert xs[k] == PosInfinity;
    assert !Above(xs[k], xs[i]);
    assert children[i].visits == 0;
    assert !Above(xs[i], xs[k]);
  }

  // ---------------------------------------------------------------------
  // Expansion

  /** The children one expansion appends: one per hand position, holding
      that card as the played card and the hand without it. */
  function ExpansionOf(hand: seq<LegacyCard>): (r: seq<LegacyNode>)
    ensures |r| == |hand|
    ensures forall i :: 0 <= i < |hand| ==>
      && r[i].played == Some(hand[i])
      && r[i].hand == Without(hand, hand[i])
      && r[i].visits == 0 && r[i].wins == 0.0 && r[i].children == []
  {
    seq(|hand|, i requires 0 <= i < |hand| => LegacyNode(Without(hand, hand[i]), Some(hand[i]), 0, 0.0, []))
  }

  /** Appends the expansion of the node's hand to its children, whatever
      children it already has. */
  method Expand(node: LegacyNode) returns (r: LegacyNode)
    ensures r.hand == node.hand && r.played == node.played
    ensures r.visits == node.visits && r.wins == node.wins
    ensures r.children == node.children + ExpansionOf(node.hand)
  {
    var hand := node.hand;
    var added := [];
    var i := 0;
    while i < |hand|
      invariant 0 <= i <= |hand|
      invariant |added| == i
      invariant forall j :: 0 <= j < i ==> added[j] == LegacyNode(Without(hand, hand[j]), Some(hand[j]), 0, 0.0, [])
    {
      var card := hand[i];
      added := added + [LegacyNode(Without(hand, card), Some(card), 0, 0.0, [])];
      i := i + 1;
    }
    assert added == ExpansionOf(hand);
    r := node.(children := node.children + added);
  }

  /** No child holds the card it played, and each child holds a smaller
      hand. */
  lemma ChildDropsPlayedCard(hand: seq<LegacyCard>, i: nat)
    requires i < |hand|
    ensures var child := ExpansionOf(hand)[i];
      && hand[i] !in child.hand
      && |child.hand| < |hand|
      && forall c :: c in hand && c != hand[i] ==> c in child.hand
  {
  }

  // ---------------------------------------------------------------------
  // Simulation

  /** How many enemies the card's attack strictly beats. */
  function Beaten(c: LegacyCard, enemies: seq<LegacyCard>): (r: nat)
    ensures r <= |enemies|
  {
    if |enemies| == 0 then 0
    else Beaten(c, enemies[..|enemies| - 1]) + (if c.atk > enemies[|enemies| - 1].atk then 1 else 0)
  }

  /** The penalty that the `else` of the inner loop charges every hand card:
      with no `break` in the loop, that branch always runs. */
  const Penalty: real := 5.0

  /** `x` added `n` times, the way the inner loop accumulates NA. */
  function Times(x: real, n: nat): real
  {
    if n == 0 then 0.0 else Times(x, n - 1) + x
  }

  lemma {:induction false} TimesIsProduct(x: real, n: nat)
    ensures Times(x, n) == x * (n as real)
  {
    if n > 0 {
      TimesIsProduct(x, n - 1);
      assert x * (n as real) == x * ((n - 1) as real) + x;
    }
  }

  lemma {:induction false} TimesMonotone(x: real, m: nat, n: nat)
    requires x >= 0.0 && m <= n
    ensures 0.0 <= Times(x, m) <= Times(x, n)
    decreases n
  {
    if m < n {
      TimesMonotone(x, m, n - 1);
    } else if n > 0 {
      TimesMonotone(x, n - 1, n - 1);
    }
  }

  /** What one hand card adds to the simulated score: its NA for every
      enemy it beats, less the penalty. */
  function CardScore(c: LegacyCard, enemies: seq<LegacyCard>): real
  {
    Times(c.na, Beaten(c, enemies)) - Penalty
  }

  lemma CardScoreIsProduct(c: LegacyCard, enemies: seq<LegacyCard>)
    ensures CardScore(c, enemies) == c.na * (Beaten(c, enemies) as real) - Penalty
  {
    TimesIsProduct(c.na, Beaten(c, enemies));
  }

  /** The simulated score of a hand: the sum of its cards' scores. */
  function HandScore(hand: seq<LegacyCard>, enemies: seq<LegacyCard>): real
  {
    if |hand| == 0 then 0.0
    else HandScore(hand[..|hand| - 1], enemies) + CardScore(hand[|hand| - 1], enemies)
  }

  /** Adds a card's NA once per enemy it strictly beats, and subtracts the
      penalty once per card. */
  method Simulate(node: LegacyNode, enemies: seq<LegacyCard>) returns (total: real)
    ensures total == HandScore(node.hand, enemies)
  {
    var hand := node.hand;
    total := 0.0;
    var i := 0;
    while i < |hand|
      invariant 0 <= i <= |hand|
      invariant total == HandScore(hand[..i], enemies)
    {
      total := SimulateCard(hand[i], enemies, total);
      assert hand[..i + 1][..i] == hand[..i];
      i := i + 1;
    }
    assert hand[..i] == hand;
  }

  /** The inner loop and its `else` for one hand card. */
  method SimulateCard(card: LegacyCard, enemies: seq<LegacyCard>, total: real) returns (total': real)
    ensures total' == total + CardScore(card, enemies)
  {
    total' := total;
    var j := 0;
    while j < |enemies|
      invariant 0 <= j <= |enemies|
      invariant total' == total + Times(card.na, Beaten(card, enemies[..j]))
    {
      assert enemies[..j + 1][..j] == enemies[..j];
      if card.atk > enemies[j].atk {
        total' := total' + card.na;
      }
      j := j + 1;
    }
    total' := total' - Penalty;
    assert enemies[..j] == enemies;
  }

  /** With no enemies every card only pays the penalty. */
  lemma {:induction false} ScoreWithoutEnemies(hand: seq<LegacyCard>)
    ensures HandScore(hand, []) == -Penalty * (|hand| as real)
  {
    if |hand| > 0 {
      ScoreWithoutEnemies(hand[..|hand| - 1]);
    }
  }

  /** With cards of non-negative NA the score is at least the penalties... */
  lemma {:induction false} ScoreAtLeastPenalties(hand: seq<LegacyCard>, enemies: seq<LegacyCard>)
    requires forall c :: c in hand ==> c.na >= 0.0
    ensures -Penalty * (|hand| as real) <= HandScore(hand, enemies)
  {
    if |hand| > 0 {
      var init, last := hand[..|hand| - 1], hand[|hand| - 1];
      assert forall c :: c in init ==> c in hand;
      ScoreAtLeastPenalties(init, enemies);
      assert last in hand;
      CardScoreBounds(last, enemies);
    }
  }

  /** The score the hand would get if every card beat every enemy. */
  function AllBeatenScore(hand: seq<LegacyCard>, enemies: seq<LegacyCard>): real
  {
    if |hand| == 0 then 0.0
    else AllBeatenScore(hand[..|hand| - 1], enemies) + (Times(hand[|hand| - 1].na, |enemies|) - Penalty)
  }

  /** ... and at most the score of beating every enemy. */
  lemma {:induction false} ScoreAtMostAllBeaten(hand: seq<LegacyCard>, enemies: seq<LegacyCard>)
    requires forall c :: c in hand ==> c.na >= 0.0
    ensures HandScore(hand, enemies) <= AllBeatenScore(hand, enemies)
  {
    if |hand| > 0 {
      var init, last := hand[..|hand| - 1], hand[|hand| - 1];
      assert forall c :: c in init ==> c in hand;
      ScoreAtMostAllBeaten(init, enemies);
      assert last in hand;
      CardScoreBounds(last, enemies);
    }
  }

  lemma CardScoreBounds(c: LegacyCard, enemies: seq<LegacyCard>)
    requires c.na >= 0.0
    ensures -Penalty <= CardScore(c, enemies) <= Times(c.na, |enemies|) - Penalty
  {
    TimesMonotone(c.na, Beaten(c, enemies), |enemies|);
  }

  // ---------------------------------------------------------------------
  // Backpropagation

  /** A path of child positions that exists in the tree. */
  predicate ValidPath(root: LegacyNode, path: seq<nat>)
    decreases path
  {
    |path| == 0 || (path[0] < |root.children| && ValidPath(root.children[path[0]], path[1..]))
  }

  /** The node a valid path leads to. */
  function At(root: LegacyNode, path: seq<nat>): LegacyNode
    requires ValidPath(root, path)
    decreases path
  {
    if |path| == 0 then root else At(root.children[path[0]], path[1..])
  }

  /** Backpropagation from the node at the end of `path`: it and every
      ancestor up to the root gain one visit and the result; every node off
      the path is unchanged, and so is the shape of the tree. */
  function Backpropagate(root: LegacyNode, path: seq<nat>, result: real): (r: LegacyNode)
    requires ValidPath(root, path)
    ensures r.visits == root.visits + 1 && r.wins == root.wins + result
    ensures r.hand == root.hand && r.played == root.played
    ensures |r.children| == |root.children|
    ensures forall i :: 0 <= i < |root.children| && (|path| == 0 || i != path[0]) ==>
      r.children[i] == root.children[i]
    ensures ValidPath(r, path)
    decreases path
  {
    var children :=
      if |path| == 0 then root.children
      else root.children[path[0] := Backpropagate(root.children[path[0]], path[1..], result)];
    assert |path| > 0 ==> children[path[0]] == Backpropagate(root.children[path[0]], path[1..], result);
    root.(visits := root.visits + 1, wins := root.wins + result, children := children)
  }

  /** Every node on the path, the end node and the root included, gains one
      visit and the result. */
  lemma {:induction false} BackpropagateAlongPath(root: LegacyNode, path: seq<nat>, result: real, k: nat)
    requires ValidPath(root, path) && k <= |path|
    ensures ValidPath(root, path[..k])
    ensures var r := Backpropagate(root, path, result);
      && ValidPath(r, path[..k])
      && At(r, path[..k]).visits == At(root, path[..k]).visits + 1
      && At(r, path[..k]).wins == At(root, path[..k]).wins + result
    decreases path
  {
    PrefixValid(root, path, k);
    var r := Backpropagate(root, path, result);
    PrefixValid(r, path, k);
    if k > 0 {
      var child := root.children[path[0]];
      BackpropagateAlongPath(child, path[1..], result, k - 1);
      assert path[..k][1..] == path[1..][..k - 1];
    }
  }

  lemma {:induction false} PrefixValid(root: LegacyNode, path: seq<nat>, k: nat)
    requires ValidPath(root, path) && k <= |path|
    ensures ValidPath(root, path[..k])
    decreases path
  {
    if k > 0 {
      PrefixValid(root.children[path[0]], path[1..], k - 1);
      assert path[..k][1..] == path[1..][..k - 1];
    }
  }

  // ---------------------------------------------------------------------
  // One round of the run loop

  /** One pass of the run loop, without the prompt that ends it: expand the
      root, simulate it, backpropagate into it alone and select a child.
      Children are never visited, so while every child of the root is
      unvisited the choice is always its first child. */
  method Round(root: LegacyNode, enemies: seq<LegacyCard>, visited: LegacyNode -> real)
    returns (root': LegacyNode, best: Option<nat>)
    ensures root'.hand == root.hand
    ensures root'.visits == root.visits + 1
    ensures root'.wins == root.wins + HandScore(root.hand, enemies)
    ensures root'.children == root.children + ExpansionOf(root.hand)
    ensures best.None? <==> |root.children| + |root.hand| == 0
    ensures (forall c :: c in root.children ==> c.visits == 0) ==>
      && (forall c :: c in root'.children ==> c.visits == 0)
      && (best.Some? ==> best.value == 0)
  {
    var expanded := Expand(root);
    var result := Simulate(expanded, enemies);
    root' := Backpropagate(expanded, [], result);
    best := Select(root', visited);
    if best.Some? && forall c :: c in root.children ==> c.visits == 0 {
      assert root'.children[0].visits == 0;
      FirstUnvisitedIsBest(root'.children, visited, best.value, 0);
    }
  }

  /** `k` copies of `xs` one after another. */
  function Repeat<T>(xs: seq<T>, k: nat): seq<T>
  {
    if k == 0 then [] else Repeat(xs, k - 1) + xs
  }

  /** The card a round recommends for a hand whose root children are all
      unvisited: the first card of the hand, if any. */
  function FirstOf(hand: seq<LegacyCard>): Option<LegacyCard>
  {
    if |hand| == 0 then None else Some(hand[0])
  }

  /** The run loop from a fresh root, answered "yes" until `rounds` rounds
      have run. The root's hand never changes, so every round appends a
      further copy of the same children and scores the same hand, and every
      round recommends the first card of the hand. */
  method Run(hand: seq<LegacyCard>, enemies: seq<LegacyCard>, rounds: nat, visited: LegacyNode -> real)
    returns (root: LegacyNode, recommended: seq<Option<LegacyCard>>)
    ensures root.hand == hand
    ensures root.visits == rounds
    ensures root.wins == Times(HandScore(hand, enemies), rounds)
    ensures root.children == Repeat(ExpansionOf(hand), rounds)
    ensures |recommended| == rounds
    ensures forall i :: 0 <= i < rounds ==> recommended[i] == FirstOf(hand)
  {
    root := NewNode(hand);
    recommended := [];
    ghost var score, copy, first := HandScore(hand, enemies), ExpansionOf(hand), FirstOf(hand);
    var k := 0;
    while k < rounds
      invariant 0 <= k <= rounds
      invariant root.hand == hand && root.visits == k
      invariant root.wins == Times(score, k)
      invariant root.children == Repeat(copy, k)
      invariant recommended == Repeat([first], k)
    {
      var card;
      root, card := RecommendingRound(root, enemies, visited, k);
      RepeatStep(copy, k);
      RepeatStep([first], k);
      recommended := recommended + [card];
      k := k + 1;
    }
    RepeatOne(first, rounds);
  }

  lemma RepeatStep<T>(xs: seq<T>, k: nat)
    ensures Repeat(xs, k + 1) == Repeat(xs, k) + xs
  {
  }

  /** One round of the run after `k` earlier ones; gives the card the
      round recommends. */
  method RecommendingRound(root: LegacyNode, enemies: seq<LegacyCard>, visited: LegacyNode -> real, ghost k: nat)
    returns (root': LegacyNode, card: Option<LegacyCard>)
    requires root.children == Repeat(ExpansionOf(root.hand), k)
    ensures root'.hand == root.hand
    ensures root'.visits == root.visits + 1
    ensures root'.wins == root.wins + HandScore(root.hand, enemies)
    ensures root'.children == Repeat(ExpansionOf(root.hand), k + 1)
    ensures card == FirstOf(root.hand)
  {
    RepeatUnvisited(root.hand, k);
    RepeatStartsWithCopy(ExpansionOf(root.hand), k);
    var best;
    root', best := Round(root, enemies, visited);
    card := None;
    if best.Some? {
      assert root'.children[0] == ExpansionOf(root.hand)[0];
      card := root'.children[best.value].played;
    }
  }

  /** A non-empty repetition starts with the first element of the copied
      sequence. */
  lemma {:induction false} RepeatStartsWithCopy<T>(xs: seq<T>, k: nat)
    ensures |Repeat(xs, k)| > 0 ==> |xs| > 0 && Repeat(xs, k)[0] == xs[0]
  {
    if k > 0 {
      RepeatStartsWithCopy(xs, k - 1);
    }
  }

  lemma {:induction false} RepeatUnvisited(hand: seq<LegacyCard>, k: nat)
    ensures forall c :: c in Repeat(ExpansionOf(hand), k) ==> c.visits == 0
  {
    if k > 0 {
      RepeatUnvisited(hand, k - 1);
    }
  }

  lemma {:induction false} RepeatOne<T>(x: T, k: nat)
    ensures |Repeat([x], k)| == k
    ensures forall i :: 0 <= i < k ==> Repeat([x], k)[i] == x
  {
    if k > 0 {
      RepeatOne(x, k - 1);
    }
  }

  /** The first round from a fresh root over a non-empty hand recommends the
      first card of the hand. */
  lemma FirstRoundPlaysFirstCard(hand: seq<LegacyCard>, i: nat, visited: LegacyNode -> real)
    requires |hand| > 0
    requires IsFirstBest(UctValues(ExpansionOf(hand), visited), i)
    ensures ExpansionOf(hand)[i].played == Some(hand[0])
  {
    FirstUnvisitedIsBest(ExpansionOf(hand), visited, i, 0);
  }

}
