# lyric_link: the song graph, in Dafny

lyric_link builds a graph of songs. Each song is a title and the set of words of its
lyrics. A word is a piece of the lyrics split on single spaces, lower-cased. `BuildGraph`
makes one node per song and indexes every word by the nodes of the songs that contain it.
`GraphFromDict` then joins the nodes: for every word, it adds an edge labelled with that
word from each node of the word's set to every other node of the set. This project models
these operations and proves what the graph looks like:

- there are no self-loops;
- edges are symmetric;
- labels are shared words;
- there is one edge per shared word between two songs;
- the out-degree is a per-word sum;
- the result holds every song.

Files and modules:

- `objects.dfy` (`Objects`): the `object obj` argument of an overridden `Equals`, and
  unchecked 32-bit `int` arithmetic.
- `word.dfy` (`Words`): `Word.cs`. A word is a value (a datatype), because dictionaries and
  hash sets compare words by value through `Equals`/`GetHashCode`.
- `song.dfy` (`Songs`): `Song.cs`.
  - `string.Split(' ')`, with its inverse `Join` and the round trip.
  - The words of some lyrics.
  - `HashSet<Word>` as the class `WordSet`, because the source compares these sets by
    reference.
  - The `Song` class.
- `node.dfy` (`Nodes`): `Node.cs`.
  - The `Node` and `Edge` classes.
  - Functions that view an edge list as multisets: the labels, the labels towards one
    node, and the (label, far end) pairs.
- `program.dfy` (`Graph`): `Program.cs`.
  - `BuildGraph` and `GraphFromDict`, with one method per nested loop.
  - `IsSongGraph`, the description of the graph they build.
- `song_graph.dfy` (`SongGraph`): the properties of any graph that satisfies `IsSongGraph`.

`BuildGraph` ensures `IsSongGraph(nodes, old(LyricSets(songs)))`. Here `nodes` is the
sequence of nodes it creates, one per song and in song order. This means the edges of
song `i`'s node, taken as a multiset of (label, far end) pairs, are exactly the following:
one pair `(w, nodes[j])` for every other song `j` and every word `w` that the lyric sets
of `i` and `j` share. The lemmas in `SongGraph` derive the listed properties from that
description. The source iterates dictionaries and hash sets in an unspecified order, so the
model picks elements with `:|` and states edge facts as multisets, never as list positions.

## Model

| member | source | states |
|---|---|---|
| Objects.Wrap32 | Song.cs:32 | The value of an overflowing C# `int` expression: in the signed 32-bit range and congruent to the exact value modulo 2^32. |
| Words.Word.Equals | Word.cs:16-26 | False for null and for non-words. Otherwise true exactly when the other word has the same value, which is equality of the two words. |
| Words.Lower | Word.cs:12 | Lower-casing leaves no upper-case letter and changes nothing but the case of letters. |
| Words.From | Word.cs:10-14 | The word's value is lower case and equals the input up to letter case. |
| Words.FromIdempotent | Word.cs:10-14 | Rebuilding a word from its own value gives the same word. |
| Words.FromEqualIff | Word.cs:10-26 | Two strings give equal words if and only if they differ only in letter case. |
| Words.FromKeepsTrailingPunctuation | Word.cs:12 | A trailing non-letter is kept in the word's value, so the word differs from the word without it. |
| Words.JudeWithCommaIsNotJude | Word.cs:10-14 | `From("Jude,")` is the word "jude," and differs from `From("jude")`. |
| Words.Word.HashCode | Word.cs:28-31 | Words that `Equals` calls equal get the same hash: the platform string hash of their common value. |
| Words.EqualWordsHashEqually | Word.cs:28-31 | Equal words have equal hash codes, whatever the string hash is. |
| Songs.Split | Song.cs:14 | `Split(' ')` always gives at least one piece, even for empty lyrics. |
| Songs.SplitSpec | Song.cs:14 | `Split(' ')` gives one piece more than there are separators. No piece holds a separator, and joining the pieces gives back the lyrics. |
| Songs.SplitJoin | Song.cs:14 | Splitting the joined pieces gives back the pieces when none holds the separator. |
| Songs.WordSet.constructor | Song.cs:12 | `new HashSet<Word>()`: a new, empty set of words. |
| Songs.WordSet.Add | Song.cs:14 | `HashSet.Add` inserts the word and reports whether it was new. |
| Songs.Song.constructor | Song.cs:9-15 | The title is stored unchanged. The lyric set is a new set whose words are exactly `From` of every space-separated piece of the lyrics. |
| Songs.LyricWordsBounds | Song.cs:14 | The lyric set is never empty. It has at most as many words as the lyrics have space-separated pieces. |
| Songs.CaseVariantsCollapse | Song.cs:14 | Two pieces that differ only in letter case contribute the same word. |
| Songs.DoubleSpaceGivesEmptyWord | Song.cs:14 | Two consecutive spaces put the empty word into the lyric set. |
| Songs.Song.Equals | Song.cs:17-28 | As written: true exactly for a song with an equal title and the same lyric set object, and reflexive. |
| Songs.DistinctLyricSetsNeverEqual | Song.cs:26-27 | As written, songs with different lyric set objects are never equal, in either direction. |
| Songs.Song.HashCode | Song.cs:30-33 | As written: `Title.GetHashCode() * 17 + LyricSet.GetHashCode()` in unchecked `int` arithmetic, that is, in the signed 32-bit range and congruent to the exact value modulo 2^32. |
| Songs.EqualSongsHashEqually | Song.cs:30-33 | As written, songs that are equal have equal hash codes. |
| Songs.SameSongTwice | Song.cs:17-28 | Two songs built from the same title and lyrics have equal titles and equal words, yet `Equals` calls them different. The corrected equality calls them equal. |
| Songs.Song.ContentEquals | Song.cs:17-28 | Corrected equality: true exactly for a song with an equal title and the same set of words, and reflexive. |
| Songs.ContentEqualsIsEquivalence | Song.cs:17-28 | The corrected equality is reflexive, symmetric and transitive. |
| Songs.ContentEqualSongsHashEqually | Song.cs:30-33 | Songs equal under the corrected equality have equal content-based hash codes. |
| Nodes.Node.constructor | Node.cs:14-17 | A new node holds the given value and has no edges. |
| Nodes.Node.AddEdge | Node.cs:19-22 | Appends exactly the given edge; the earlier edges are unchanged. |
| Nodes.Node.AddNewEdge | Node.cs:24-28 | Appends one new edge with the given label and far end; the earlier edges are unchanged. |
| Nodes.Edge.constructor | Node.cs:36-40 | The edge holds exactly the given label and far end. |
| Nodes.EdgeInPairs | Node.cs:12 | Every edge of a node is counted among its (label, far end) pairs. |
| Nodes.PairHasEdge | Node.cs:12 | Every (label, far end) pair comes from an edge with that label and far end. |
| Graph.IndexSong | Program.cs:36-46 | After one song's words are indexed, the keys are the old keys plus the song's words. Each word's set is its old set, plus the song's node exactly when the song has the word. |
| Graph.IndexSnoc | Program.cs:32-47 | After each song the index maps exactly the words that occur in the songs so far. Each word maps to the nodes of the songs whose lyric sets hold it. |
| Graph.LinkToOthers | Program.cs:69-74 | The node keeps its edges and gains one edge labelled with the word to every other node of the word's set, and no edge to itself. |
| Graph.LinkWord | Program.cs:65-75 | Every node of the word's set is collected and gets those edges; other nodes are not touched. |
| Graph.GraphFromDict | Program.cs:55-79 | The result is every node in the dictionary. Each node keeps its earlier edges and gains one edge per (word, other node) pair over the words whose sets hold it. |
| Graph.WiredIndexIsSongGraph | Program.cs:26-53 | Wiring a complete index of new nodes gives the song graph. The wired nodes are those of the songs with a non-empty lyric set. |
| Graph.BuildGraph | Program.cs:26-53 | One new node per song, holding that song. The nodes form the song graph of the songs' lyric sets. The result is exactly the nodes of the songs with a non-empty lyric set. |
| SongGraph.EdgeJoinsSharedWord | Program.cs:59-74 | No self-loops: every edge leads to another song's node, and its label is in both lyric sets. |
| SongGraph.EdgesAreSymmetric | Program.cs:65-74 | An edge from song `i` to song `j` has a partner with the same label from `j` to `i`. |
| SongGraph.EdgesBetweenAreSharedWords | Program.cs:59-75 | The labels of the edges from `i` to `j` are the shared words, each exactly once. Their number is the number of shared words, and it is 0 from a song to itself. |
| SongGraph.EdgeCountIsSymmetric | Program.cs:65-74 | There are as many edges from `i` to `j` as from `j` to `i`. |
| SongGraph.EdgesPerWord | Program.cs:65-74 | The number of edges of song `i` labelled `w` is one less than the number of songs holding `w` if `i` holds it, and 0 otherwise. |
| SongGraph.OutDegree | Program.cs:65-74 | The out-degree of song `i` is the sum over its lyric words of (number of songs holding the word − 1). |
| SongGraph.ResultHoldsSongsWithWords | Program.cs:65-67 | A node is in the result exactly when its song's lyric set is non-empty. When every lyric set is non-empty, as the Song constructor guarantees, the result holds one node per song. |

## Left out

- `Main` (Program.cs:10-24) only prints the graph. Console output is not modelled.
- `GetSongs` (Program.cs:81-91) is hard-coded sample data. It is not modelled; `Songs.SameSongTwice` uses a shortened lyric of its first song.
- Words.Lower: `string.ToLower` is culture-sensitive. The model lower-cases ASCII letters only and leaves every other character unchanged.
- Words.Word.HashCode: the platform string hash is a parameter, so the only claim made is that equal words hash equally.
- Songs.Song.HashCode: the string hash and the identity hash of `HashSet` are parameters. The `* 17 +` is computed with wrap-around through `Objects.Wrap32`.
- The order in which `Dictionary` and `HashSet` are iterated is unspecified, so the model picks any remaining element. The resulting order of a node's edge list is not captured, only its multiset of (label, far end) pairs.
- Graph.BuildGraph: the source adds a node to a word's `HashSet` in place (`mappedSongs.Add`). The model stores a new set under the word. The two are indistinguishable here because each set is reachable only through the dictionary.
- Graph.GraphFromDict: the triple loop is split into `GraphFromDict`, `LinkWord` and `LinkToOthers`, one method per nested loop. Each keeps its loop, its order of effects and its `continue` on the node itself.
- Graph.BuildGraph: the ghost out-parameter `nodes`, the nodes in song order, exists only to state the result. The source returns only the set.
- Graph.BuildGraph: the postconditions name the lyric sets as they were on entry. BuildGraph has no `modifies` clause, so it changes no lyric set.
- `Node.Value`, `Edge.Value` and `Edge.OtherEnd` have private setters assigned only in constructors. In the model they are `const` fields, so "never changed after construction" holds by declaration rather than by a lemma.
- Program.cs only builds the graph; it contains no path search, so none is modelled.
- Null references are not modelled: Dafny's `string`, `Song`, `Node` and `Edge` types are non-null. In the source, `Word.From(null)` and `new Song(title, null)` throw `NullReferenceException` (Word.cs:12, Song.cs:14). A song with a null title is built. `Equals` throws when the song passed in has a null title (Song.cs:26), and `GetHashCode` throws when the song's own title is null (Song.cs:32). `BuildGraph` throws on a null element of `songs` (Program.cs:36). `AddEdge(null)` stores a null edge and `AddEdge(w, null)` an edge with a null far end (Node.cs:21, Node.cs:26-27). None of these cases is covered.

## Findings

| source | as written | input that shows it | evidently intended | confidence | as-written member | corrected member |
|---|---|---|---|---|---|---|
| Song.cs:26-27 | `other.LyricSet.Equals(this.LyricSet)` calls `HashSet<Word>.Equals`, which `HashSet` does not override, so it compares set references. Two separately built songs are therefore never equal, and `GetHashCode` (Song.cs:32) also uses the reference hash of the set. | `new Song("Hey Jude", "Hey Jude, don't make it bad")` built twice | Songs with equal titles and equal sets of words are equal, with a hash that depends on the words | high that the behaviour is as described; medium that it was unintended; not executed | Songs.SameSongTwice | Songs.Song.ContentEquals |

The rest of the model never compares songs. Graph nodes are compared by reference, as in
the source. So the correction changes no other result.
