/** Song.cs: a song is a title and the set of words of its lyrics. */
module Songs {
  import opened Objects
  import opened Words

  /** The separator the lyrics are split on. */
  const SPACE := ' '

  /** Concatenation of the pieces with one separator between neighbours: the
      inverse of `Split`. */
  function Join(pieces: seq<string>, sep: char): string
    requires |pieces| > 0
  {
    if |pieces| == 1 then pieces[0] else pieces[0] + [sep] + Join(pieces[1..], sep)
  }

  /** Joining after extending the first piece at its front extends the result at its front. */
  lemma JoinExtendFirst(c: char, pieces: seq<string>, sep: char)
    requires |pieces| > 0
    ensures Join([[c] + pieces[0]] + pieces[1..], sep) == [c] + Join(pieces, sep)
  {
    var extended := [[c] + pieces[0]] + pieces[1..];
    assert extended[1..] == pieces[1..];
  }

  /** `string.Split(sep)` with a single separator character and no options: the
      maximal pieces between separators, empty pieces included. There is always at
      least one piece; `SplitSpec` states what the pieces are. */
  function Split(s: string, sep: char): (pieces: seq<string>)
    ensures |pieces| > 0
  {
    if s == [] then [[]]
    else
      var rest := Split(s[1..], sep);
      if s[0] == sep then [[]] + rest else [[s[0]] + rest[0]] + rest[1..]
  }

  /** There is always one piece more than there are separators, no piece holds a
      separator, and joining the pieces again gives back the input. */
  lemma {:induction false} SplitSpec(s: string, sep: char)
    ensures |Split(s, sep)| == multiset(s)[sep] + 1
    ensures forall k :: 0 <= k < |Split(s, sep)| ==> sep !in Split(s, sep)[k]
    ensures Join(Split(s, sep), sep) == s
  {
    if s != [] {
      var rest := Split(s[1..], sep);
      SplitSpec(s[1..], sep);
      assert s == [s[0]] + s[1..];
      assert multiset(s)[sep] == multiset([s[0]])[sep] + multiset(s[1..])[sep];
      if s[0] == sep {
        assert ([[]] + rest)[1..] == rest;
      } else {
        JoinExtendFirst(s[0], rest, sep);
      }
    }
  }

  /** Splitting a piece that holds no separator gives that piece alone. */
  lemma {:induction false} SplitPiece(p: string, sep: char)
    requires sep !in p
    ensures Split(p, sep) == [p]
  {
    if p != [] {
      assert sep !in p[1..];
      SplitPiece(p[1..], sep);
      assert [p[0]] + p[1..] == p;
    }
  }

  /** A piece followed by a separator splits off as the first piece. */
  lemma {:induction false} SplitAfterPiece(p: string, sep: char, rest: string)
    requires sep !in p
    ensures Split(p + [sep] + rest, sep) == [p] + Split(rest, sep)
  {
    var s := p + [sep] + rest;
    if p == [] {
      assert s[0] == sep && s[1..] == rest;
    } else {
      assert s[0] == p[0] && s[1..] == p[1..] + [sep] + rest;
      assert sep !in p[1..];
      SplitAfterPiece(p[1..], sep, rest);
      var tail := Split(s[1..], sep);
      assert tail == [p[1..]] + Split(rest, sep);
      assert tail[0] == p[1..] && tail[1..] == Split(rest, sep);
      assert Split(s, sep) == [[p[0]] + tail[0]] + tail[1..];
      assert [p[0]] + p[1..] == p;
    }
  }

  /** Round trip: splitting the joined pieces gives back the pieces, as long as no
      piece holds the separator. */
  lemma {:induction false} SplitJoin(pieces: seq<string>, sep: char)
    requires |pieces| > 0
    requires forall k :: 0 <= k < |pieces| ==> sep !in pieces[k]
    ensures Split(Join(pieces, sep), sep) == pieces
  {
    if |pieces| == 1 {
      SplitPiece(pieces[0], sep);
    } else {
      SplitJoin(pieces[1..], sep);
      SplitAfterPiece(pieces[0], sep, Join(pieces[1..], sep));
      assert [pieces[0]] + pieces[1..] == pieces;
    }
  }

  /** Two separators in a row produce an empty piece, and it is not the first one. */
  lemma {:induction false} DoubleSeparatorGivesEmptyPiece(s: string, sep: char, i: nat)
    requires i + 1 < |s| && s[i] == sep && s[i + 1] == sep
    ensures exists k :: 1 <= k < |Split(s, sep)| && Split(s, sep)[k] == []
  {
    var rest := Split(s[1..], sep);
    var pieces := Split(s, sep);
    if i == 0 {
      assert s[1..][0] == sep;
      assert rest == [[]] + Split(s[2..], sep) by {
        assert s[1..][1..] == s[2..];
      }
      assert pieces == [[]] + rest;
      assert pieces[1] == [];
    } else {
      DoubleSeparatorGivesEmptyPiece(s[1..], sep, i - 1);
      var k :| 1 <= k < |rest| && rest[k] == [];
      if s[0] == sep {
        assert pieces == [[]] + rest;
        assert pieces[k + 1] == [];
      } else {
        assert pieces == [[s[0]] + rest[0]] + rest[1..];
        assert pieces[k] == [];
      }
    }
  }

  /** The words `Word.From` makes of a sequence of pieces. */
  function WordsOf(pieces: seq<string>): set<Word>
  {
    set p | p in pieces :: From(p)
  }

  /** The set of words of some lyrics: `Word.From` of every piece of the lyrics split
      on single spaces, duplicates and case variants collapsed. */
  function LyricWords(lyrics: string): set<Word>
  {
    WordsOf(Split(lyrics, SPACE))
  }

  /** Adding one piece adds its word. */
  lemma WordsOfSnoc(pieces: seq<string>, p: string)
    ensures WordsOf(pieces + [p]) == WordsOf(pieces) + {From(p)}
  {
    assert forall q :: q in pieces + [p] <==> q in pieces || q == p;
  }

  /** The words of a sequence of pieces are at most as many as the pieces. */
  lemma {:induction false} WordsOfBound(pieces: seq<string>)
    ensures |WordsOf(pieces)| <= |pieces|
  {
    if pieces != [] {
      var last := pieces[|pieces| - 1];
      var init := pieces[..|pieces| - 1];
      WordsOfBound(init);
      assert pieces == init + [last];
      WordsOfSnoc(init, last);
    }
  }

  /** A song's lyric set is never empty (splitting always yields a piece) and has
      at most as many words as the lyrics have space-separated pieces. */
  lemma LyricWordsBounds(lyrics: string)
    ensures LyricWords(lyrics) != {}
    ensures |LyricWords(lyrics)| <= multiset(lyrics)[SPACE] + 1
  {
    var pieces := Split(lyrics, SPACE);
    assert From(pieces[0]) in LyricWords(lyrics);
    WordsOfBound(pieces);
    SplitSpec(lyrics, SPACE);
  }

  /** Case variants collapse: two pieces that differ only in letter case contribute one word. */
  lemma CaseVariantsCollapse(lyrics: string, i: nat, j: nat)
    requires i < |Split(lyrics, SPACE)| && j < |Split(lyrics, SPACE)|
    requires SameUpToCase(Split(lyrics, SPACE)[i], Split(lyrics, SPACE)[j])
    ensures From(Split(lyrics, SPACE)[i]) in LyricWords(lyrics)
    ensures From(Split(lyrics, SPACE)[i]) == From(Split(lyrics, SPACE)[j])
  {
    FromEqualIff(Split(lyrics, SPACE)[i], Split(lyrics, SPACE)[j]);
  }

  /** Two consecutive spaces in the lyrics put the empty word into the lyric set. */
  lemma DoubleSpaceGivesEmptyWord(lyrics: string, i: nat)
    requires i + 1 < |lyrics| && lyrics[i] == SPACE && lyrics[i + 1] == SPACE
    ensures Word("") in LyricWords(lyrics)
  {
    DoubleSeparatorGivesEmptyPiece(lyrics, SPACE, i);
    var pieces := Split(lyrics, SPACE);
    var k :| 1 <= k < |pieces| && pieces[k] == [];
    assert From(pieces[k]) == Word("");
  }

  /** `HashSet<Word>`: a mutable set of words. Its `Equals` is the one inherited from
      `object`, reference identity, which is why it is a class and not a value. */
  class WordSet {
    var elements: set<Word>

    constructor()
      ensures elements == {}
    {
      elements := {};
    }

    /** `HashSet.Add`: inserts the word; true when it was not there before. */
    method Add(w: Word) returns (added: bool)
      modifies this
      ensures elements == old(elements) + {w}
      ensures added <==> w !in old(elements)
    {
      added := w !in elements;
      elements := elements + {w};
    }
  }

  /** A song. Its title and its lyric set object are fixed at construction (private
      setters); the words in the lyric set are those the constructor added. */
  class Song {
    const title: string
    const lyricSet: WordSet

    /** `new Song(title, lyrics)`: adds `Word.From` of every space-separated piece
        of the lyrics, in order, to a new, empty lyric set. */
    constructor(title: string, lyrics: string)
      ensures this.title == title
      ensures fresh(lyricSet)
      ensures lyricSet.elements == LyricWords(lyrics)
    {
      this.title := title;
      lyricSet := new WordSet();
      new;
      var pieces := Split(lyrics, SPACE);
      for k := 0 to |pieces|
        invariant lyricSet.elements == WordsOf(pieces[..k])
      {
        var added := lyricSet.Add(From(pieces[k]));
        assert pieces[..k + 1] == pieces[..k] + [pieces[k]];
        WordsOfSnoc(pieces[..k], pieces[k]);
      }
      assert pieces[..|pieces|] == pieces;
    }

    /** `Song.Equals(object)` as written: false for null and non-songs; otherwise
        equal titles and `LyricSet.Equals`, which on a `HashSet` compares references.
        So two songs are equal only when they share one lyric set object. */
    function Equals(obj: Object<Song>): (r: bool)
      ensures r <==> obj.Instance? && obj.value.title == title && obj.value.lyricSet == lyricSet
      ensures obj == Instance(this) ==> r
    {
      match obj
      case Instance(other) => other.title == title && other.lyricSet == lyricSet
      case _ => false
    }

    /** `Song.GetHashCode()` as written: `Title.GetHashCode() * 17 +
        LyricSet.GetHashCode()` in unchecked 32-bit arithmetic; the string hash and
        the (identity-based) set hash are parameters. */
    function HashCode(titleHash: string -> int, setHash: WordSet -> int): (r: int)
      ensures -0x8000_0000 <= r < 0x8000_0000
      ensures (r - (titleHash(title) * 17 + setHash(lyricSet))) % 0x1_0000_0000 == 0
    {
      Wrap32(titleHash(title) * 17 + setHash(lyricSet))
    }

    /** What `Equals` evidently means: equal titles and equal sets of words. */
    function ContentEquals(obj: Object<Song>): (r: bool)
      reads lyricSet, if obj.Instance? then {obj.value.lyricSet} else {}
      ensures r <==> obj.Instance? && obj.value.title == title && obj.value.lyricSet.elements == lyricSet.elements
      ensures obj == Instance(this) ==> r
    {
      match obj
      case Instance(other) => other.title == title && other.lyricSet.elements == lyricSet.elements
      case _ => false
    }

    /** A hash code consistent with `ContentEquals`: it depends on the words of the
        lyric set, not on the set object. */
    function ContentHashCode(titleHash: string -> int, wordsHash: set<Word> -> int): int
      reads lyricSet
    {
      Wrap32(titleHash(title) * 17 + wordsHash(lyricSet.elements))
    }
  }

  /** As written, `Equals` and `GetHashCode` agree: equal songs hash equally. */
  lemma EqualSongsHashEqually(a: Song, b: Song, titleHash: string -> int, setHash: WordSet -> int)
    requires a.Equals(Instance(b))
    ensures a.HashCode(titleHash, setHash) == b.HashCode(titleHash, setHash)
  {
  }

  /** As written, songs with distinct lyric set objects are never equal, whatever
      their titles and words. */
  lemma DistinctLyricSetsNeverEqual(a: Song, b: Song)
    requires a.lyricSet != b.lyricSet
    ensures !a.Equals(Instance(b)) && !b.Equals(Instance(a))
  {
  }

  /** The corrected equality is an equivalence relation between songs. */
  lemma ContentEqualsIsEquivalence(a: Song, b: Song, c: Song)
    ensures a.ContentEquals(Instance(a))
    ensures a.ContentEquals(Instance(b)) ==> b.ContentEquals(Instance(a))
    ensures a.ContentEquals(Instance(b)) && b.ContentEquals(Instance(c)) ==> a.ContentEquals(Instance(c))
  {
  }

  /** The corrected equality agrees with the content-based hash code. */
  lemma ContentEqualSongsHashEqually(a: Song, b: Song, titleHash: string -> int, wordsHash: set<Word> -> int)
    requires a.ContentEquals(Instance(b))
    ensures a.ContentHashCode(titleHash, wordsHash) == b.ContentHashCode(titleHash, wordsHash)
  {
  }

  /** Two songs built from the same title and lyrics: `Equals` as written calls them
      different, while the corrected equality calls them equal. */
  method SameSongTwice() returns (a: Song, b: Song)
    ensures a.title == b.title && a.lyricSet.elements == b.lyricSet.elements
    ensures !a.Equals(Instance(b))
    ensures a.ContentEquals(Instance(b))
  {
    a := new Song("Hey Jude", "Hey Jude, don't make it bad");
    b := new Song("Hey Jude", "Hey Jude, don't make it bad");
  }
}
