/** Word.cs: a lyric word, the lower-cased form of a piece of lyrics. */
module Words {
  import opened Objects

  /** A word is its lower-cased string. The source's constructor is private, so every
      word comes from `From`; in the model too, words are built only by `From` (and by
      the literals of the lemmas that name `From`'s results). Equality of this datatype
      is the value equality that `Word.Equals` implements. */
  datatype Word = Word(value: string)
  {
    /** `Word.Equals(object)`: false for null and for objects that are not words,
        otherwise the comparison of the two strings. */
    function Equals(obj: Object<Word>): (r: bool)
      ensures r <==> obj == Instance(this)
    {
      match obj
      case Instance(other) => other.value == value
      case _ => false
    }

    /** `Word.GetHashCode()`: the platform's string hash of the value, taken as a parameter.
        Every word that `Equals` calls equal to this one has the same hash. */
    function HashCode(stringHash: string -> int): (r: int)
      ensures forall other: Word :: Equals(Instance(other)) ==> r == stringHash(other.value)
    {
      stringHash(value)
    }
  }

  predicate IsUpper(c: char)
  {
    'A' <= c <= 'Z'
  }

  /** ASCII lower-casing of one character. */
  function LowerChar(c: char): char
  {
    if IsUpper(c) then (c as int + 32) as char else c
  }

  predicate IsLowerCase(s: string)
  {
    forall i :: 0 <= i < |s| ==> !IsUpper(s[i])
  }

  /** `a` and `b` are the same character, or the same letter in its two cases. */
  predicate SameLetter(a: char, b: char)
  {
    a == b
    || (IsUpper(a) && b as int == a as int + 32)
    || (IsUpper(b) && a as int == b as int + 32)
  }

  /** `s` and `t` differ at most in the case of their letters. */
  predicate SameUpToCase(s: string, t: string)
  {
    |s| == |t| && forall i :: 0 <= i < |s| ==> SameLetter(s[i], t[i])
  }

  /** `string.ToLower()`, restricted to ASCII letters. The result has no upper-case
      letter and differs from the input only in the case of its letters, which
      together determine it. */
  function Lower(s: string): (r: string)
    ensures IsLowerCase(r)
    ensures SameUpToCase(s, r)
  {
    if s == [] then [] else [LowerChar(s[0])] + Lower(s[1..])
  }

  /** `Word.From(s)`: lower-cases `s` and nothing else. */
  function From(s: string): (w: Word)
    ensures IsLowerCase(w.value)
    ensures SameUpToCase(s, w.value)
  {
    Word(Lower(s))
  }

  /** Lower-casing leaves a string without upper-case letters unchanged. */
  lemma {:induction false} LowerOfLowerCase(s: string)
    requires IsLowerCase(s)
    ensures Lower(s) == s
  {
    if s != [] {
      LowerOfLowerCase(s[1..]);
    }
  }

  /** `From` is idempotent: re-normalising a word's value gives the same word. */
  lemma {:induction false} FromIdempotent(s: string)
    ensures From(From(s).value) == From(s)
  {
    LowerOfLowerCase(Lower(s));
  }

  /** Two pieces of lyrics give equal words exactly when they differ only in letter case. */
  lemma FromEqualIff(s: string, t: string)
    ensures From(s) == From(t) <==> SameUpToCase(s, t)
  {
    var r, q := Lower(s), Lower(t);
    if r == q {
      forall i | 0 <= i < |s|
        ensures SameLetter(s[i], t[i])
      {
        assert SameLetter(s[i], r[i]) && SameLetter(t[i], q[i]);
      }
    }
    if SameUpToCase(s, t) {
      assert |r| == |q|;
      forall i | 0 <= i < |r|
        ensures r[i] == q[i]
      {
        assert SameLetter(s[i], r[i]) && SameLetter(t[i], q[i]);
      }
    }
  }

  /** Lower-casing distributes over concatenation. */
  lemma {:induction false} LowerAppend(s: string, t: string)
    ensures Lower(s + t) == Lower(s) + Lower(t)
  {
    if s == [] {
      assert s + t == t;
    } else {
      var st := s + t;
      assert st[0] == s[0] && st[1..] == s[1..] + t;
      LowerAppend(s[1..], t);
      calc {
        Lower(st);
        [LowerChar(s[0])] + Lower(s[1..] + t);
        [LowerChar(s[0])] + (Lower(s[1..]) + Lower(t));
        ([LowerChar(s[0])] + Lower(s[1..])) + Lower(t);
      }
    }
  }

  /** `From` strips no punctuation: a trailing character that is not a letter stays
      in the word, so for example "Jude," and "jude" are different words. */
  lemma FromKeepsTrailingPunctuation(s: string, c: char)
    requires !IsUpper(c) && !('a' <= c <= 'z')
    ensures From(s + [c]).value == From(s).value + [c]
    ensures From(s + [c]) != From(s)
  {
    LowerAppend(s, [c]);
  }

  /** The concrete case: the comma of "Jude," is kept. */
  lemma JudeWithCommaIsNotJude()
    ensures From("Jude,") != From("jude")
    ensures From("Jude,") == Word("jude,")
  {
    FromKeepsTrailingPunctuation("Jude", ',');
    assert Lower("Jude") == "jude" by {
      assert "Jude"[1..] == "ude";
      assert "ude"[1..] == "de";
      assert "de"[1..] == "e";
      assert "e"[1..] == "";
    }
    assert "Jude" + [','] == "Jude,";
  }

  /** Equal words have equal hash codes, whatever the string hash is. */
  lemma EqualWordsHashEqually(a: Word, b: Word, stringHash: string -> int)
    requires a.Equals(Instance(b))
    ensures a.HashCode(stringHash) == b.HashCode(stringHash)
  {
  }
}
