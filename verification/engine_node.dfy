/** The search nodes of `mcts/mcts_engine.py` (class MCTSNode): the root
    node that holds the current hand and field, the children one expansion
    creates, the unvisited branch of the UCT value and backpropagation. */
module EngineNode {

  import opened Common
  import opened Cards

  /** A child of the root. It is created with zero counters and nothing ever
      increments them, so it carries none; its parent is always the root. */
  datatype Child = Child(card: Card, hand: seq<Card>, field: seq<Card>)

  /** A node with its counters; `children` is empty on a fresh node. */
  datatype Node = Node(hand: seq<Card>, field: seq<Card>, children: seq<Child>, visits: nat, wins: real)

  function FreshNode(hand: seq<Card>, field: seq<Card>): Node
  {
    Node(hand, field, [], 0, 0.0)
  }

  /** The children one expansion appends, one per listed card, each holding
      the hand without that card and the unchanged field. */
  function ChildrenFor(cards: seq<Card>, hand: seq<Card>, field: seq<Card>): (r: seq<Child>)
    ensures |r| == |cards|
    ensures forall i :: 0 <= i < |cards| ==> r[i] == Child(cards[i], Without(hand, cards[i]), field)
  {
    seq(|cards|, i requires 0 <= i < |cards| => Child(cards[i], Without(hand, cards[i]), field))
  }

  lemma ChildrenForAppend(cards: seq<Card>, c: Card, hand: seq<Card>, field: seq<Card>)
    ensures ChildrenFor(cards + [c], hand, field) == ChildrenFor(cards, hand, field) + [Child(c, Without(hand, c), field)]
  {
  }

  /** The exploration constant. */
  const Exploration: real := 1.41

  /** The UCT value of an unvisited child: the NA of its card plus the
      exploration constant. */
  function UnvisitedUct(na: real): real
  {
    na + Exploration
  }

  /** `i` is the first position holding the maximum of `xs`. */
  predicate IsFirstMax(xs: seq<real>, i: int)
  {
    && 0 <= i < |xs|
    && (forall j :: 0 <= j < |xs| ==> xs[j] <= xs[i])
    && (forall j :: 0 <= j < i ==> xs[j] < xs[i])
  }

  lemma FirstMaxUnique(xs: seq<real>, i: int, k: int)
    requires IsFirstMax(xs, i) && IsFirstMax(xs, k)
    ensures i == k
  {
    assert xs[k] <= xs[i] && xs[i] <= xs[k];
  }

  /** The first position of the maximum, found by a scan from the end. */
  function FirstMaxIndex(xs: seq<real>): (i: nat)
    requires |xs| > 0
    ensures IsFirstMax(xs, i)
  {
    if |xs| == 1 then 0
    else
      var init := xs[..|xs| - 1];
      var j := FirstMaxIndex(init);
      assert forall k :: 0 <= k < |init| ==> init[k] == xs[k];
      if xs[|xs| - 1] > xs[j] then |xs| - 1 else j
  }

  /** Adding the same amount to every value keeps the first maximum. */
  lemma FirstMaxShift(xs: seq<real>, ys: seq<real>, d: real)
    requires |xs| == |ys| > 0
    requires forall k :: 0 <= k < |xs| ==> ys[k] == xs[k] + d
    ensures FirstMaxIndex(ys) == FirstMaxIndex(xs)
  {
    var i := FirstMaxIndex(xs);
    assert IsFirstMax(ys, i);
    FirstMaxUnique(ys, i, FirstMaxIndex(ys));
  }

  /** A node credited with one more visit and a simulation result. */
  function Credit(n: Node, result: real): Node
  {
    n.(visits := n.visits + 1, wins := n.wins + result)
  }

  /** The walk from a node up through its parents to the tree's root:
      `chain[0]` is the node, `chain[i + 1]` the parent of `chain[i]`. Every
      node on the way gains one visit and the result; hand, field and
      children stay as they were. */
  method Backpropagate(chain: seq<Node>, result: real) returns (r: seq<Node>)
    ensures |r| == |chain|
    ensures forall i :: 0 <= i < |chain| ==>
      && r[i].visits == chain[i].visits + 1
      && r[i].wins == chain[i].wins + result
      && r[i].hand == chain[i].hand && r[i].field == chain[i].field && r[i].children == chain[i].children
  {
    r := chain;
    var k := 0;
    while k < |r|
      invariant 0 <= k <= |r| == |chain|
      invariant forall i :: 0 <= i < k ==> r[i] == Credit(chain[i], result)
      invariant forall i :: k <= i < |r| ==> r[i] == chain[i]
    {
      r := r[k := Credit(r[k], result)];
      k := k + 1;
    }
  }

}
