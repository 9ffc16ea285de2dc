/** Program.cs: building the song graph. One node per song; two songs are joined,
    in both directions, by one edge per word their lyric sets share. */
module Graph {
  import opened Words
  import opened Songs
  import opened Nodes

  type SongNode = Node<Song, Word>
  type SongEdge = Edge<Word, Song>

  /** The words of each song's lyric set, in the order of the songs. */
  ghost function LyricSets(songs: seq<Song>): (ls: seq<set<Word>>)
    reads set s | s in songs :: s.lyricSet
    ensures |ls| == |songs|
    ensures forall k :: 0 <= k < |songs| ==> ls[k] == songs[k].lyricSet.elements
  {
    if songs == [] then [] else LyricSets(songs[..|songs| - 1]) + [songs[|songs| - 1].lyricSet.elements]
  }

  ghost predicate Distinct(nodes: seq<SongNode>)
  {
    forall k, l :: 0 <= k < l < |nodes| ==> nodes[k] != nodes[l]
  }

  /** The nodes of the songs whose lyric sets hold `w`. */
  ghost function Holders(ls: seq<set<Word>>, nodes: seq<SongNode>, w: Word): set<SongNode>
    requires |ls| == |nodes|
  {
    set k | 0 <= k < |ls| && w in ls[k] :: nodes[k]
  }

  /** `index` maps exactly the words that occur in some lyric set, each to the
      nodes of the songs containing it. */
  ghost predicate IsIndex(index: map<Word, set<SongNode>>, ls: seq<set<Word>>, nodes: seq<SongNode>)
    requires |ls| == |nodes|
  {
    forall w ::
      (w in index <==> Holders(ls, nodes, w) != {}) &&
      (w in index ==> index[w] == Holders(ls, nodes, w))
  }

  /** A new song's node holds the words of its lyric set. */
  lemma HoldersSnoc(ls: seq<set<Word>>, nodes: seq<SongNode>, s: set<Word>, n: SongNode, w: Word)
    requires |ls| == |nodes|
    ensures Holders(ls + [s], nodes + [n], w) == Holders(ls, nodes, w) + if w in s then {n} else {}
  {
    var ls', nodes' := ls + [s], nodes + [n];
    forall m | m in Holders(ls', nodes', w)
      ensures m in Holders(ls, nodes, w) + if w in s then {n} else {}
    {
      var k :| 0 <= k < |ls'| && w in ls'[k] && m == nodes'[k];
      if k < |ls| {
        assert ls'[k] == ls[k] && nodes'[k] == nodes[k];
      }
    }
    forall m | m in Holders(ls, nodes, w)
      ensures m in Holders(ls', nodes', w)
    {
      var k :| 0 <= k < |ls| && w in ls[k] && m == nodes[k];
      assert ls'[k] == ls[k] && nodes'[k] == nodes[k];
    }
    if w in s {
      assert ls'[|ls|] == s && nodes'[|ls|] == n;
    }
  }

  /** The nodes in the sets of the words of `words`. */
  ghost function NodesIn(dict: map<Word, set<SongNode>>, words: set<Word>): set<SongNode>
  {
    set w, n | w in words && w in dict && n in dict[w] :: n
  }

  /** Every node that occurs in the dictionary. */
  ghost function NodesOf(dict: map<Word, set<SongNode>>): set<SongNode>
  {
    NodesIn(dict, dict.Keys)
  }

  /** The (word, far end) pairs that wiring the words of `words` gives node `a`: for
      every such word whose set holds `a`, every other node of that set. */
  ghost function PairsOf(dict: map<Word, set<SongNode>>, words: set<Word>, a: SongNode): set<(Word, SongNode)>
  {
    set w, b | w in words && w in dict && a in dict[w] && b in dict[w] && b != a :: (w, b)
  }

  /** The pairs that wiring `word` gives `a` towards the nodes of `partners`. */
  ghost function WordPairs(word: Word, partners: set<SongNode>, a: SongNode): set<(Word, SongNode)>
  {
    set b | b in partners && b != a :: (word, b)
  }

  /** The edge list `edges` starts with the `prior` edges and, after them, has exactly
      one edge per pair of `m` and no other edge. */
  ghost predicate Extends(edges: seq<SongEdge>, prior: seq<SongEdge>, m: multiset<(Word, SongNode)>)
  {
    |prior| <= |edges| && edges[..|prior|] == prior && Pairs(edges[|prior|..]) == m
  }

  /** Wiring one more word whose set holds `a` adds that word towards every other
      node of the set. */
  lemma WordStep(dict: map<Word, set<SongNode>>, done: set<Word>, word: Word, a: SongNode)
    requires word in dict && word !in done && a in dict[word]
    ensures multiset(PairsOf(dict, done + {word}, a))
         == multiset(PairsOf(dict, done, a)) + multiset(WordPairs(word, dict[word], a))
  {
    var before, extra := PairsOf(dict, done, a), WordPairs(word, dict[word], a);
    assert PairsOf(dict, done + {word}, a) == before + extra;
    assert before !! extra;
    assert multiset(before + extra) == multiset(before) + multiset(extra);
  }

  /** Wiring a word whose set does not hold `a` gives `a` nothing. */
  lemma WordSkipped(dict: map<Word, set<SongNode>>, done: set<Word>, word: Word, a: SongNode)
    requires word in dict && a !in dict[word]
    ensures PairsOf(dict, done + {word}, a) == PairsOf(dict, done, a)
  {
  }

  /** One more partner other than `a` adds one pair. */
  lemma PartnerStep(word: Word, partners: set<SongNode>, a: SongNode, b: SongNode)
    requires b !in partners && b != a
    ensures multiset(WordPairs(word, partners + {b}, a)) == multiset(WordPairs(word, partners, a)) + multiset{(word, b)}
  {
    assert WordPairs(word, partners + {b}, a) == WordPairs(word, partners, a) + {(word, b)};
  }

  /** A node's own set membership adds no pair. */
  lemma PartnerSelf(word: Word, partners: set<SongNode>, a: SongNode)
    ensures WordPairs(word, partners + {a}, a) == WordPairs(word, partners, a)
  {
  }

  /** Extending twice is extending by both. */
  lemma ExtendsTrans(prior: seq<SongEdge>, mid: seq<SongEdge>, es: seq<SongEdge>,
                     m: multiset<(Word, SongNode)>, extra: multiset<(Word, SongNode)>)
    requires Extends(mid, prior, m) && Extends(es, mid, extra)
    ensures Extends(es, prior, m + extra)
  {
    assert es[|prior|..] == mid[|prior|..] + es[|mid|..];
    PairsConcat(mid[|prior|..], es[|mid|..]);
  }

  /** The innermost loop of `GraphFromDict`: gives `songNode` an edge labelled `word`
      to every other node of `songsWithWord`, after the edges it already has. */
  method LinkToOthers(songNode: SongNode, word: Word, songsWithWord: set<SongNode>)
    modifies songNode
    ensures Extends(songNode.edges, old(songNode.edges), multiset(WordPairs(word, songsWithWord, songNode)))
  {
    ghost var start := songNode.edges;
    var inner := songsWithWord;
    ghost var partners: set<SongNode> := {};
    while inner != {}
      invariant inner + partners == songsWithWord && inner !! partners
      invariant Extends(songNode.edges, start, multiset(WordPairs(word, partners, songNode)))
      decreases inner
    {
      var songWithSameWord :| songWithSameWord in inner;
      inner := inner - {songWithSameWord};
      ghost var edgesBefore := songNode.edges;
      ghost var before := partners;
      partners := partners + {songWithSameWord};
      if songNode == songWithSameWord {
        PartnerSelf(word, before, songNode);
        continue;
      }
      var edge := new Edge(word, songWithSameWord);
      songNode.AddEdge(edge);
      SnocAfter(edgesBefore, edge, |start|);
      PartnerStep(word, before, songNode, songWithSameWord);
    }
  }

  /** The middle loop of `GraphFromDict`: adds every node of `songsWithWord` to the
      collected nodes and gives it an edge labelled `word` to every other node of the set.
      Nodes outside the set are not touched. */
  method LinkWord(word: Word, songsWithWord: set<SongNode>, allNodes: set<SongNode>)
    returns (collected: set<SongNode>)
    modifies songsWithWord
    ensures collected == allNodes + songsWithWord
    ensures forall a :: a in songsWithWord ==>
      Extends(a.edges, old(a.edges), multiset(WordPairs(word, songsWithWord, a)))
  {
    collected := allNodes;
    var outer := songsWithWord;
    ghost var wired: set<SongNode> := {};
    while outer != {}
      invariant outer + wired == songsWithWord && outer !! wired
      invariant collected == allNodes + wired
      invariant forall a :: a in wired ==>
        Extends(a.edges, old(a.edges), multiset(WordPairs(word, songsWithWord, a)))
      invariant forall a :: a in outer ==> a.edges == old(a.edges)
      decreases outer
    {
      var songNode :| songNode in outer;
      outer := outer - {songNode};
      collected := collected + {songNode};
      LinkToOthers(songNode, word, songsWithWord);
      wired := wired + {songNode};
    }
  }

  /** `GraphFromDict`: for every word and every node of its set, the node is collected
      and gets an edge labelled with the word to every other node of the set. The
      result is every node that occurs in the dictionary, and every such node ends up
      with its earlier edges followed by one edge per pair of `PairsOf(dict, dict.Keys, a)`. */
  method GraphFromDict(dict: map<Word, set<SongNode>>) returns (allNodes: set<SongNode>)
    modifies NodesOf(dict)
    ensures allNodes == NodesOf(dict)
    ensures forall a :: a in NodesOf(dict) ==>
      Extends(a.edges, old(a.edges), multiset(PairsOf(dict, dict.Keys, a)))
  {
    allNodes := {};
    var words := dict.Keys;
    ghost var done: set<Word> := {};
    while words != {}
      invariant words + done == dict.Keys && words !! done
      invariant allNodes == NodesIn(dict, done)
      invariant forall a :: a in NodesOf(dict) ==>
        Extends(a.edges, old(a.edges), multiset(PairsOf(dict, done, a)))
      decreases words
    {
      var word :| word in words;
      words := words - {word};
      var songsWithWord := dict[word];
      assert songsWithWord <= NodesOf(dict);
      label BeforeWord:
      allNodes := LinkWord(word, songsWithWord, allNodes);
      forall a | a in NodesOf(dict)
        ensures Extends(a.edges, old(a.edges), multiset(PairsOf(dict, done + {word}, a)))
      {
        if a in songsWithWord {
          ExtendsTrans(old(a.edges), old@BeforeWord(a.edges), a.edges,
                       multiset(PairsOf(dict, done, a)), multiset(WordPairs(word, songsWithWord, a)));
          WordStep(dict, done, word, a);
        } else {
          assert a.edges == old@BeforeWord(a.edges);
          WordSkipped(dict, done, word, a);
        }
      }
      assert NodesIn(dict, done + {word}) == NodesIn(dict, done) + songsWithWord;
      done := done + {word};
    }
  }

  /** The (word, far end) pairs the song graph gives node `i`: for every other song
      `j` and every word the two lyric sets share, the pair of that word and `j`'s node. */
  ghost function SongPairs(ls: seq<set<Word>>, nodes: seq<SongNode>, i: nat): set<(Word, SongNode)>
    requires |ls| == |nodes|
  {
    set j, w | 0 <= j < |ls| && j != i && w in ls[j] && i < |ls| && w in ls[i] :: (w, nodes[j])
  }

  /** The song graph over `nodes`, whose song `k` has the lyric words `ls[k]`: one node
      per song, and the edges of node `i` are one edge per pair of `SongPairs(ls, nodes, i)`. */
  ghost predicate IsSongGraph(nodes: seq<SongNode>, ls: seq<set<Word>>)
    reads set n | n in nodes
  {
    |nodes| == |ls| && Distinct(nodes) &&
    forall i :: 0 <= i < |nodes| ==> Pairs(nodes[i].edges) == multiset(SongPairs(ls, nodes, i))
  }

  /** Wiring the words of a complete index gives the song graph. */
  lemma IndexWiredIsSongGraph(index: map<Word, set<SongNode>>, ls: seq<set<Word>>, nodes: seq<SongNode>)
    requires |ls| == |nodes| && Distinct(nodes) && IsIndex(index, ls, nodes)
    requires forall i :: 0 <= i < |nodes| ==> Extends(nodes[i].edges, [], multiset(PairsOf(index, index.Keys, nodes[i])))
    ensures IsSongGraph(nodes, ls)
  {
    forall i | 0 <= i < |nodes|
      ensures Pairs(nodes[i].edges) == multiset(SongPairs(ls, nodes, i))
    {
      assert nodes[i].edges[0..] == nodes[i].edges;
      IndexPairs(index, ls, nodes, i);
    }
  }

  /** Through a complete index, the pairs of node `i` are those of the song graph. */
  lemma IndexPairs(index: map<Word, set<SongNode>>, ls: seq<set<Word>>, nodes: seq<SongNode>, i: nat)
    requires |ls| == |nodes| && Distinct(nodes) && IsIndex(index, ls, nodes) && i < |nodes|
    ensures PairsOf(index, index.Keys, nodes[i]) == SongPairs(ls, nodes, i)
  {
    forall p | p in PairsOf(index, index.Keys, nodes[i])
      ensures p in SongPairs(ls, nodes, i)
    {
      var (w, b) := p;
      assert nodes[i] in Holders(ls, nodes, w);
      var k :| 0 <= k < |ls| && w in ls[k] && nodes[i] == nodes[k];
      assert k == i;
      assert b in Holders(ls, nodes, w);
      var j :| 0 <= j < |ls| && w in ls[j] && b == nodes[j];
    }
    forall p | p in SongPairs(ls, nodes, i)
      ensures p in PairsOf(index, index.Keys, nodes[i])
    {
      var j, w :| 0 <= j < |ls| && j != i && w in ls[j] && w in ls[i] && p == (w, nodes[j]);
      assert nodes[i] in Holders(ls, nodes, w) && nodes[j] in Holders(ls, nodes, w);
    }
  }

  /** The inner loop of `BuildGraph`: adds `songNode` to the set of every word of
      `lyricWords`, creating the entry of a word not yet in the index. Other entries
      are unchanged. */
  method IndexSong(index: map<Word, set<SongNode>>, songNode: SongNode, lyricWords: set<Word>)
    returns (wordsToSongNodes: map<Word, set<SongNode>>)
    ensures wordsToSongNodes.Keys == index.Keys + lyricWords
    ensures forall w :: w in wordsToSongNodes ==>
      wordsToSongNodes[w] == (if w in index then index[w] else {}) + if w in lyricWords then {songNode} else {}
  {
    wordsToSongNodes := index;
    var rest := lyricWords;
    ghost var seen: set<Word> := {};
    while rest != {}
      invariant rest + seen == lyricWords && rest !! seen
      invariant wordsToSongNodes.Keys == index.Keys + seen
      invariant forall w :: w in wordsToSongNodes ==>
        wordsToSongNodes[w] == (if w in index then index[w] else {}) + if w in seen then {songNode} else {}
      decreases rest
    {
      var word :| word in rest;
      rest := rest - {word};
      if word in wordsToSongNodes {
        var mappedSongs := wordsToSongNodes[word];
        wordsToSongNodes := wordsToSongNodes[word := mappedSongs + {songNode}];
      } else {
        wordsToSongNodes := wordsToSongNodes[word := {songNode}];
      }
      seen := seen + {word};
    }
  }

  /** Indexing the next song's words extends an index of the earlier songs. */
  lemma IndexSnoc(index: map<Word, set<SongNode>>, next: map<Word, set<SongNode>>,
                  ls: seq<set<Word>>, i: nat, nodes: seq<SongNode>, n: SongNode)
    requires i < |ls| && i == |nodes| && IsIndex(index, ls[..i], nodes)
    requires next.Keys == index.Keys + ls[i]
    requires forall w :: w in next ==>
      next[w] == (if w in index then index[w] else {}) + if w in ls[i] then {n} else {}
    ensures IsIndex(next, ls[..i + 1], nodes + [n])
  {
    assert ls[..i + 1] == ls[..i] + [ls[i]];
    forall w
      ensures (w in next <==> Holders(ls[..i + 1], nodes + [n], w) != {})
      ensures (w in next ==> next[w] == Holders(ls[..i + 1], nodes + [n], w))
    {
      HoldersSnoc(ls[..i], nodes, ls[i], n, w);
    }
  }

  /** Once `GraphFromDict` has wired a complete index of fresh nodes, the nodes form the
      song graph and the wired nodes are those of the songs with a lyric word. */
  lemma WiredIndexIsSongGraph(index: map<Word, set<SongNode>>, ls: seq<set<Word>>, nodes: seq<SongNode>)
    requires |ls| == |nodes| && Distinct(nodes) && IsIndex(index, ls, nodes)
    requires forall i :: 0 <= i < |nodes| && nodes[i] in NodesOf(index) ==>
      Extends(nodes[i].edges, [], multiset(PairsOf(index, index.Keys, nodes[i])))
    requires forall i :: 0 <= i < |nodes| && nodes[i] !in NodesOf(index) ==> nodes[i].edges == []
    ensures IsSongGraph(nodes, ls)
    ensures NodesOf(index) == set k | 0 <= k < |ls| && ls[k] != {} :: nodes[k]
  {
    forall i | 0 <= i < |nodes| && nodes[i] !in NodesOf(index)
      ensures Extends(nodes[i].edges, [], multiset(PairsOf(index, index.Keys, nodes[i])))
    {
      assert PairsOf(index, index.Keys, nodes[i]) == {};
    }
    IndexWiredIsSongGraph(index, ls, nodes);
    forall n | n in NodesOf(index)
      ensures n in set k | 0 <= k < |ls| && ls[k] != {} :: nodes[k]
    {
      var w :| w in index && n in index[w];
      var k :| 0 <= k < |ls| && w in ls[k] && n == nodes[k];
    }
    forall k | 0 <= k < |ls| && ls[k] != {}
      ensures nodes[k] in NodesOf(index)
    {
      var w :| w in ls[k];
      assert nodes[k] in Holders(ls, nodes, w);
    }
  }

  /** `BuildGraph`: makes a fresh node for every song, indexes every word of every
      lyric set by the nodes of the songs containing it, and wires the index with
      `GraphFromDict`. The nodes form the song graph, and the result holds exactly the
      nodes of the songs with a non-empty lyric set. */
  method BuildGraph(songs: seq<Song>) returns (graphNodes: set<SongNode>, ghost nodes: seq<SongNode>)
    ensures |nodes| == |songs|
    ensures forall k :: 0 <= k < |songs| ==> fresh(nodes[k]) && nodes[k].value == songs[k]
    ensures IsSongGraph(nodes, old(LyricSets(songs)))
    ensures graphNodes == set k | 0 <= k < |songs| && old(LyricSets(songs))[k] != {} :: nodes[k]
  {
    ghost var ls := LyricSets(songs);
    var wordsToSongNodes: map<Word, set<SongNode>> := map[];
    nodes := [];
    for i := 0 to |songs|
      invariant |nodes| == i
      invariant forall k :: 0 <= k < i ==> fresh(nodes[k]) && nodes[k].value == songs[k] && nodes[k].edges == []
      invariant Distinct(nodes)
      invariant IsIndex(wordsToSongNodes, ls[..i], nodes)
    {
      var songNode := new Node<Song, Word>(songs[i]);
      ghost var before := wordsToSongNodes;
      wordsToSongNodes := IndexSong(wordsToSongNodes, songNode, songs[i].lyricSet.elements);
      IndexSnoc(before, wordsToSongNodes, ls, i, nodes, songNode);
      nodes := nodes + [songNode];
    }
    assert ls[..|songs|] == ls;
    assert forall n :: n in NodesOf(wordsToSongNodes) ==> n in nodes;
    label BeforeWiring:
    graphNodes := GraphFromDict(wordsToSongNodes);
    forall i | 0 <= i < |nodes|
      ensures nodes[i] in NodesOf(wordsToSongNodes) ==>
        Extends(nodes[i].edges, [], multiset(PairsOf(wordsToSongNodes, wordsToSongNodes.Keys, nodes[i])))
      ensures nodes[i] !in NodesOf(wordsToSongNodes) ==> nodes[i].edges == []
    {
      assert old@BeforeWiring(nodes[i].edges) == [];
    }
    WiredIndexIsSongGraph(wordsToSongNodes, ls, nodes);
  }
}
