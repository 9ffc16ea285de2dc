/** What the song graph built by `BuildGraph` looks like: where edges lead, how many
    there are between two songs, and how many leave a song. */
module SongGraph {
  import opened Words
  import opened Nodes
  import opened Graph

  /** Every edge of song `i` leads to the node of another song `j`, never back to
      `i`'s own node, and its label is a word of both lyric sets. */
  lemma EdgeJoinsSharedWord(nodes: seq<SongNode>, ls: seq<set<Word>>, i: nat, e: SongEdge)
    requires IsSongGraph(nodes, ls) && i < |nodes| && e in nodes[i].edges
    ensures e.otherEnd != nodes[i]
    ensures exists j :: 0 <= j < |nodes| && j != i && e.otherEnd == nodes[j] && e.value in ls[i] && e.value in ls[j]
  {
    EdgeInPairs(nodes[i].edges, e);
    assert (e.value, e.otherEnd) in SongPairs(ls, nodes, i);
    var j, w :| 0 <= j < |ls| && j != i && w in ls[j] && w in ls[i] && (e.value, e.otherEnd) == (w, nodes[j]);
  }

  /** Edges come in pairs: an edge from song `i` to song `j` has a partner with the
      same label from `j` back to `i`. */
  lemma EdgesAreSymmetric(nodes: seq<SongNode>, ls: seq<set<Word>>, i: nat, j: nat, e: SongEdge)
    requires IsSongGraph(nodes, ls) && i < |nodes| && j < |nodes|
    requires e in nodes[i].edges && e.otherEnd == nodes[j]
    ensures exists f :: f in nodes[j].edges && f.value == e.value && f.otherEnd == nodes[i]
  {
    EdgeJoinsSharedWord(nodes, ls, i, e);
    var k :| 0 <= k < |nodes| && k != i && e.otherEnd == nodes[k] && e.value in ls[i] && e.value in ls[k];
    assert k == j;
    assert (e.value, nodes[i]) in SongPairs(ls, nodes, j);
    PairHasEdge(nodes[j].edges, e.value, nodes[i]);
  }

  /** Song `j`'s node is paired with `w` for song `i` exactly when they are different
      songs and both lyric sets hold `w`. */
  lemma InSongPairs(nodes: seq<SongNode>, ls: seq<set<Word>>, i: nat, j: nat, w: Word)
    requires |nodes| == |ls| && Distinct(nodes) && i < |nodes| && j < |nodes|
    ensures (w, nodes[j]) in SongPairs(ls, nodes, i) <==> i != j && w in ls[i] && w in ls[j]
  {
    if (w, nodes[j]) in SongPairs(ls, nodes, i) {
      var k, v :| 0 <= k < |ls| && k != i && v in ls[k] && v in ls[i] && (w, nodes[j]) == (v, nodes[k]);
      assert k == j;
    }
  }

  /** The labels of the edges from song `i` to song `j` are the words the two lyric
      sets share, each once; a song has no edge to itself. */
  lemma EdgesBetweenAreSharedWords(nodes: seq<SongNode>, ls: seq<set<Word>>, i: nat, j: nat)
    requires IsSongGraph(nodes, ls) && i < |nodes| && j < |nodes|
    ensures LabelsTo(nodes[i].edges, nodes[j]) == if i == j then multiset{} else multiset(ls[i] * ls[j])
    ensures CountTo(nodes[i].edges, nodes[j]) == if i == j then 0 else |ls[i] * ls[j]|
  {
    var expected: multiset<Word> := if i == j then multiset{} else multiset(ls[i] * ls[j]);
    var ps := multiset(SongPairs(ls, nodes, i));
    forall w
      ensures LabelsTo(nodes[i].edges, nodes[j])[w] == expected[w]
    {
      LabelsToArePairs(nodes[i].edges, nodes[j], w);
      InSongPairs(nodes, ls, i, j, w);
      assert ps[(w, nodes[j])] == if i != j && w in ls[i] && w in ls[j] then 1 else 0;
    }
    assert LabelsTo(nodes[i].edges, nodes[j]) == expected;
    CountIsLabelCount(nodes[i].edges, nodes[j]);
  }

  /** Between two songs there are as many edges one way as the other. */
  lemma EdgeCountIsSymmetric(nodes: seq<SongNode>, ls: seq<set<Word>>, i: nat, j: nat)
    requires IsSongGraph(nodes, ls) && i < |nodes| && j < |nodes|
    ensures CountTo(nodes[i].edges, nodes[j]) == CountTo(nodes[j].edges, nodes[i])
  {
    EdgesBetweenAreSharedWords(nodes, ls, i, j);
    EdgesBetweenAreSharedWords(nodes, ls, j, i);
    assert ls[i] * ls[j] == ls[j] * ls[i];
  }

  /** Pairing every node of a set with the same word keeps the number of elements. */
  lemma {:induction false} PairWithCount(w: Word, b: set<SongNode>)
    ensures |set n | n in b :: (w, n)| == |b|
    decreases b
  {
    if b != {} {
      var n :| n in b;
      PairWithCount(w, b - {n});
      assert (set m | m in b :: (w, m)) == (set m | m in b - {n} :: (w, m)) + {(w, n)};
    }
  }

  /** The pairs of song `i` labelled `w`: one per other song holding `w`, if `i` holds it. */
  lemma SongPairsWithLabel(nodes: seq<SongNode>, ls: seq<set<Word>>, i: nat, w: Word)
    requires |nodes| == |ls| && Distinct(nodes) && i < |nodes|
    ensures WithLabel(SongPairs(ls, nodes, i), w)
         == if w in ls[i] then set n | n in Holders(ls, nodes, w) - {nodes[i]} :: (w, n) else {}
  {
    var ps := SongPairs(ls, nodes, i);
    var others := Holders(ls, nodes, w) - {nodes[i]};
    if w in ls[i] {
      forall p | p in WithLabel(ps, w)
        ensures p in set n | n in others :: (w, n)
      {
        var k, v :| 0 <= k < |ls| && k != i && v in ls[k] && v in ls[i] && p == (v, nodes[k]);
        assert nodes[k] in Holders(ls, nodes, w);
      }
      forall p | p in set n | n in others :: (w, n)
        ensures p in WithLabel(ps, w)
      {
        var k :| 0 <= k < |ls| && w in ls[k] && p.1 == nodes[k];
        assert k != i;
      }
    }
  }

  /** Song `i` has one edge labelled `w` to each other song whose lyric set holds
      `w` when its own does, and none otherwise. */
  lemma EdgesPerWord(nodes: seq<SongNode>, ls: seq<set<Word>>, i: nat, w: Word)
    requires IsSongGraph(nodes, ls) && i < |nodes|
    ensures Labels(nodes[i].edges)[w] == if w in ls[i] then |Holders(ls, nodes, w)| - 1 else 0
  {
    LabelsOfPairSet(nodes[i].edges, SongPairs(ls, nodes, i), w);
    SongPairsWithLabel(nodes, ls, i, w);
    if w in ls[i] {
      PairWithCount(w, Holders(ls, nodes, w) - {nodes[i]});
      assert nodes[i] in Holders(ls, nodes, w);
    }
  }

  /** Some word of a non-empty set. */
  ghost function Pick(words: set<Word>): Word
    requires words != {}
  {
    var w :| w in words; w
  }

  /** The sum, over the words of `words`, of the number of other songs holding the word. */
  ghost function DegreeSum(ls: seq<set<Word>>, nodes: seq<SongNode>, words: set<Word>): int
    requires |ls| == |nodes|
    decreases words
  {
    if words == {} then 0
    else
      var w := Pick(words);
      (|Holders(ls, nodes, w)| - 1) + DegreeSum(ls, nodes, words - {w})
  }

  /** The pairs of `ps` whose label is in `words`. */
  ghost function LabelledIn(ps: set<(Word, SongNode)>, words: set<Word>): set<(Word, SongNode)>
  {
    set p | p in ps && p.0 in words
  }

  /** Counting the pairs of song `i` word by word over a part of its lyric set. */
  lemma {:induction false} PairsPerWords(nodes: seq<SongNode>, ls: seq<set<Word>>, i: nat, words: set<Word>)
    requires IsSongGraph(nodes, ls) && i < |nodes| && words <= ls[i]
    ensures |LabelledIn(SongPairs(ls, nodes, i), words)| == DegreeSum(ls, nodes, words)
    decreases words
  {
    var ps := SongPairs(ls, nodes, i);
    if words == {} {
      assert LabelledIn(ps, words) == {};
    } else {
      var w := Pick(words);
      PairsPerWords(nodes, ls, i, words - {w});
      assert LabelledIn(ps, words) == WithLabel(ps, w) + LabelledIn(ps, words - {w});
      assert WithLabel(ps, w) !! LabelledIn(ps, words - {w});
      LabelsOfPairSet(nodes[i].edges, ps, w);
      EdgesPerWord(nodes, ls, i, w);
    }
  }

  /** A list has one pair per edge. */
  lemma {:induction false} PairsCount(es: seq<SongEdge>)
    ensures |Pairs(es)| == |es|
  {
    if es != [] {
      PairsCount(es[..|es| - 1]);
    }
  }

  /** The out-degree of song `i` is the sum, over the words of its lyric set, of the
      number of other songs whose lyric sets hold the word. */
  lemma OutDegree(nodes: seq<SongNode>, ls: seq<set<Word>>, i: nat)
    requires IsSongGraph(nodes, ls) && i < |nodes|
    ensures |nodes[i].edges| == DegreeSum(ls, nodes, ls[i])
  {
    var ps := SongPairs(ls, nodes, i);
    PairsPerWords(nodes, ls, i, ls[i]);
    assert LabelledIn(ps, ls[i]) == ps;
    PairsCount(nodes[i].edges);
  }

  /** Distinct nodes: as many as the list is long. */
  lemma {:induction false} DistinctCount(nodes: seq<SongNode>)
    requires Distinct(nodes)
    ensures |set k | 0 <= k < |nodes| :: nodes[k]| == |nodes|
  {
    if nodes != [] {
      var init := nodes[..|nodes| - 1];
      DistinctCount(init);
      assert (set k | 0 <= k < |nodes| :: nodes[k])
          == (set k | 0 <= k < |init| :: init[k]) + {nodes[|nodes| - 1]};
      assert nodes[|nodes| - 1] !in set k | 0 <= k < |init| :: init[k];
    }
  }

  /** The nodes `BuildGraph` returns are those of the songs with a lyric word; when
      every song has one, which every constructed song does, all songs are in the
      result, each once. */
  lemma ResultHoldsSongsWithWords(nodes: seq<SongNode>, ls: seq<set<Word>>, graphNodes: set<SongNode>)
    requires IsSongGraph(nodes, ls)
    requires graphNodes == set k | 0 <= k < |ls| && ls[k] != {} :: nodes[k]
    ensures forall k :: 0 <= k < |ls| ==> (nodes[k] in graphNodes <==> ls[k] != {})
    ensures (forall k :: 0 <= k < |ls| ==> ls[k] != {}) ==> |graphNodes| == |ls|
  {
    forall k | 0 <= k < |ls| && nodes[k] in graphNodes
      ensures ls[k] != {}
    {
      var l :| 0 <= l < |ls| && ls[l] != {} && nodes[k] == nodes[l];
    }
    if forall k :: 0 <= k < |ls| ==> ls[k] != {} {
      assert graphNodes == set k | 0 <= k < |nodes| :: nodes[k];
      DistinctCount(nodes);
    }
  }
}
