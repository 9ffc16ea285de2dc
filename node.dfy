/** Node.cs: a generic graph vertex holding a value and a growing list of labelled
    edges, and the edge that points at another vertex. Vertices are compared by
    reference, so both are classes. */
module Nodes {

  /** `Node<T, E>`: the value is set once by the constructor (its setter is
      private), the edge list only ever grows. */
  class Node<T, E> {
    const value: T
    var edges: seq<Edge<E, T>>

    /** `new Node(value)`: the given value and no edges. */
    constructor(value: T)
      ensures this.value == value
      ensures edges == []
    {
      this.value := value;
      edges := [];
    }

    /** `AddEdge(Edge)`: appends exactly that edge; the earlier edges stay as they were. */
    method AddEdge(edge: Edge<E, T>)
      modifies this
      ensures edges == old(edges) + [edge]
    {
      edges := edges + [edge];
    }

    /** `AddEdge(E, Node)`: appends one new edge with the given label and far end,
        and changes nothing else. */
    method AddNewEdge(edgeValue: E, otherEnd: Node<T, E>)
      modifies this
      ensures |edges| == |old(edges)| + 1
      ensures edges[..|old(edges)|] == old(edges)
      ensures fresh(edges[|old(edges)|])
      ensures edges[|old(edges)|].value == edgeValue
      ensures edges[|old(edges)|].otherEnd == otherEnd
    {
      var edge := new Edge(edgeValue, otherEnd);
      edges := edges + [edge];
    }
  }

  /** `Edge<E, N>`: a label and the vertex at the far end, both fixed at construction. */
  class Edge<E, N> {
    const value: E
    const otherEnd: Node<N, E>

    constructor(value: E, otherEnd: Node<N, E>)
      ensures this.value == value
      ensures this.otherEnd == otherEnd
    {
      this.value := value;
      this.otherEnd := otherEnd;
    }
  }

  /** The labels of the edges in `es` that lead to `b`, with repetitions. */
  function LabelsTo<T, E>(es: seq<Edge<E, T>>, b: Node<T, E>): multiset<E>
  {
    if es == [] then multiset{}
    else
      var last := es[|es| - 1];
      LabelsTo(es[..|es| - 1], b) + if last.otherEnd == b then multiset{last.value} else multiset{}
  }

  /** The labels of all edges in `es`, with repetitions. */
  function Labels<T, E>(es: seq<Edge<E, T>>): multiset<E>
  {
    if es == [] then multiset{} else Labels(es[..|es| - 1]) + multiset{es[|es| - 1].value}
  }

  /** The number of edges in `es` that lead to `b`. */
  function CountTo<T, E>(es: seq<Edge<E, T>>, b: Node<T, E>): nat
  {
    if es == [] then 0
    else CountTo(es[..|es| - 1], b) + if es[|es| - 1].otherEnd == b then 1 else 0
  }

  /** The edges of a list as (label, far end) pairs, with repetitions: the edge
      multiset of a node, independent of the order in which edges were added. */
  ghost function Pairs<T, E>(es: seq<Edge<E, T>>): multiset<(E, Node<T, E>)>
  {
    if es == [] then multiset{}
    else
      var last := es[|es| - 1];
      Pairs(es[..|es| - 1]) + multiset{(last.value, last.otherEnd)}
  }

  /** Appending an edge adds its pair and its label. */
  lemma Snoc<T, E>(es: seq<Edge<E, T>>, e: Edge<E, T>)
    ensures Pairs(es + [e]) == Pairs(es) + multiset{(e.value, e.otherEnd)}
    ensures Labels(es + [e]) == Labels(es) + multiset{e.value}
  {
    assert (es + [e])[..|es|] == es;
  }

  /** The pairs of two lists joined are the pairs of each. */
  lemma {:induction false} PairsConcat<T, E>(xs: seq<Edge<E, T>>, ys: seq<Edge<E, T>>)
    ensures Pairs(xs + ys) == Pairs(xs) + Pairs(ys)
  {
    if ys == [] {
      assert xs + ys == xs;
    } else {
      var init, last := ys[..|ys| - 1], ys[|ys| - 1];
      assert xs + ys == (xs + init) + [last];
      assert ys == init + [last];
      PairsConcat(xs, init);
      Snoc(xs + init, last);
      Snoc(init, last);
    }
  }

  /** Appending an edge keeps the first `k` edges and adds its pair to the rest. */
  lemma SnocAfter<T, E>(es: seq<Edge<E, T>>, e: Edge<E, T>, k: nat)
    requires k <= |es|
    ensures (es + [e])[..k] == es[..k]
    ensures Pairs((es + [e])[k..]) == Pairs(es[k..]) + multiset{(e.value, e.otherEnd)}
  {
    assert (es + [e])[k..] == es[k..] + [e];
    Snoc(es[k..], e);
  }

  /** Every edge of the list is among its pairs. */
  lemma {:induction false} EdgeInPairs<T, E>(es: seq<Edge<E, T>>, e: Edge<E, T>)
    requires e in es
    ensures (e.value, e.otherEnd) in Pairs(es)
  {
    var init := es[..|es| - 1];
    if es[|es| - 1] != e {
      assert es == init + [es[|es| - 1]];
      assert e in init;
      EdgeInPairs(init, e);
    }
  }

  /** Every pair comes from an edge of the list. */
  lemma {:induction false} PairHasEdge<T, E>(es: seq<Edge<E, T>>, w: E, b: Node<T, E>)
    requires (w, b) in Pairs(es)
    ensures exists e :: e in es && e.value == w && e.otherEnd == b
  {
    var init := es[..|es| - 1];
    var last := es[|es| - 1];
    if (w, b) in Pairs(init) {
      PairHasEdge(init, w, b);
      var e :| e in init && e.value == w && e.otherEnd == b;
      assert e in es;
    } else {
      assert last in es && last.value == w && last.otherEnd == b;
    }
  }

  /** Counting label `w` among the labels towards `b` counts the pair `(w, b)`. */
  lemma {:induction false} LabelsToArePairs<T, E>(es: seq<Edge<E, T>>, b: Node<T, E>, w: E)
    ensures LabelsTo(es, b)[w] == Pairs(es)[(w, b)]
  {
    if es != [] {
      LabelsToArePairs(es[..|es| - 1], b, w);
    }
  }

  /** The pairs of a set with label `w`. */
  ghost function WithLabel<T, E>(ps: set<(E, Node<T, E>)>, w: E): set<(E, Node<T, E>)>
  {
    set p | p in ps && p.0 == w
  }

  /** Taking one pair out of a set takes it out of its label's pairs. */
  lemma WithLabelRemove<T, E>(ps: set<(E, Node<T, E>)>, pe: (E, Node<T, E>), w: E)
    requires pe in ps
    ensures |WithLabel(ps, w)| == |WithLabel(ps - {pe}, w)| + if pe.0 == w then 1 else 0
  {
    if pe.0 == w {
      assert WithLabel(ps, w) == WithLabel(ps - {pe}, w) + {pe};
    } else {
      assert WithLabel(ps, w) == WithLabel(ps - {pe}, w);
    }
  }

  /** When the edges are one per pair of a set `ps`, label `w` occurs once per pair
      of `ps` with that label. */
  lemma {:induction false} LabelsOfPairSet<T, E>(es: seq<Edge<E, T>>, ps: set<(E, Node<T, E>)>, w: E)
    requires Pairs(es) == multiset(ps)
    ensures Labels(es)[w] == |WithLabel(ps, w)|
  {
    if es == [] {
      assert |multiset(ps)| == 0;
    } else {
      var init, last := es[..|es| - 1], es[|es| - 1];
      var pe := (last.value, last.otherEnd);
      assert Pairs(init) + multiset{pe} == multiset(ps);
      assert pe in ps by {
        assert multiset(ps)[pe] >= 1;
      }
      assert Pairs(init) == multiset(ps - {pe}) by {
        assert multiset(ps) - multiset{pe} == multiset(ps - {pe});
      }
      LabelsOfPairSet(init, ps - {pe}, w);
      WithLabelRemove(ps, pe, w);
    }
  }

  /** The number of edges towards `b` is the number of labels towards `b`. */
  lemma {:induction false} CountIsLabelCount<T, E>(es: seq<Edge<E, T>>, b: Node<T, E>)
    ensures CountTo(es, b) == |LabelsTo(es, b)|
  {
    if es != [] {
      CountIsLabelCount(es[..|es| - 1], b);
    }
  }
}
