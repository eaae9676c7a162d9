/** Rung trees: instructions in series, and branches whose lanes run in parallel. */
module LadderTree {

  datatype Node<+T> = Step(step: T) | Branch(lanes: seq<Lane<T>>)
  datatype Lane<+T> = Lane(nodes: seq<Node<T>>)

  /** `walk_steps`: the instructions in source order. */
  function Walk<T>(nodes: seq<Node<T>>): seq<T>
  {
    if nodes == [] then [] else WalkNode(nodes[0]) + Walk(nodes[1..])
  }

  function WalkNode<T>(node: Node<T>): seq<T>
  {
    match node
    case Step(step) => [step]
    case Branch(lanes) => WalkLanes(lanes)
  }

  function WalkLanes<T>(lanes: seq<Lane<T>>): seq<T>
  {
    if lanes == [] then [] else Walk(lanes[0].nodes) + WalkLanes(lanes[1..])
  }

  lemma {:induction false} WalkAppend<T>(a: seq<Node<T>>, b: seq<Node<T>>)
    ensures Walk(a + b) == Walk(a) + Walk(b)
    decreases |a|
  {
    if a == [] {
      assert a + b == b;
    } else {
      assert (a + b)[1..] == a[1..] + b;
      WalkAppend(a[1..], b);
    }
  }
}
