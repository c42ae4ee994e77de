/** The most-recently-used word list behind the shell's completer: touching a
    word moves it (or puts it) in front, and a full list drops its last word. */
module Completers {
  import opened Base

  /** ws without the first occurrence of w (`list.remove`). */
  function RemoveFirst(ws: seq<string>, w: string): seq<string> {
    if ws == [] then []
    else if ws[0] == w then ws[1..]
    else [ws[0]] + RemoveFirst(ws[1..], w)
  }

  /** Removing the first occurrence, found at index i, splices it out. */
  lemma {:induction false} RemoveFirstAt(ws: seq<string>, w: string, i: nat)
    requires i < |ws| && ws[i] == w && w !in ws[..i]
    ensures RemoveFirst(ws, w) == ws[..i] + ws[i + 1..]
  {
    if i > 0 {
      assert ws[1..][..i - 1] == ws[..i][1..];
      RemoveFirstAt(ws[1..], w, i - 1);
      assert ws[1..][i..] == ws[i + 1..];
    }
  }

  /** The index of the first occurrence of a word that occurs. */
  lemma {:induction false} FirstOccurrence(ws: seq<string>, w: string) returns (i: nat)
    requires w in ws
    ensures i < |ws| && ws[i] == w && w !in ws[..i]
  {
    if ws[0] == w {
      i := 0;
    } else {
      var j := FirstOccurrence(ws[1..], w);
      i := j + 1;
      assert ws[..i] == [ws[0]] + ws[1..][..j];
    }
  }

  /** The list after one touch, or None when `pop` is applied to an empty list
      (the word is new, the list is empty and the limit is 0: IndexError). */
  function Touched(ws: seq<string>, w: string, maxWords: int): Option<seq<string>> {
    if w in ws then Some([w] + RemoveFirst(ws, w))
    else if |ws| == maxWords then
      if ws == [] then None else Some([w] + ws[..|ws| - 1])
    else Some([w] + ws)
  }

  /** The list after touching every word of xs from left to right; None as
      soon as one touch raises. */
  function TouchedAll(ws: seq<string>, xs: seq<string>, maxWords: int): Option<seq<string>>
    decreases |xs|
  {
    if xs == [] then Some(ws)
    else match Touched(ws, xs[0], maxWords)
      case None => None
      case Some(ws') => TouchedAll(ws', xs[1..], maxWords)
  }

  /** A word already in the list moves to the front; the others keep their order
      and the length is unchanged. */
  lemma TouchPresent(ws: seq<string>, w: string, maxWords: int, i: nat)
    requires i < |ws| && ws[i] == w && w !in ws[..i]
    ensures Touched(ws, w, maxWords) == Some([w] + ws[..i] + ws[i + 1..])
    ensures |Touched(ws, w, maxWords).value| == |ws|
  {
    assert w in ws;
    RemoveFirstAt(ws, w, i);
    assert [w] + RemoveFirst(ws, w) == [w] + ws[..i] + ws[i + 1..];
  }

  /** A new word in a full list pushes out the last word; the length stays at the limit. */
  lemma TouchAbsentFull(ws: seq<string>, w: string, maxWords: int)
    requires w !in ws && |ws| == maxWords && ws != []
    ensures Touched(ws, w, maxWords) == Some([w] + ws[..|ws| - 1])
    ensures |Touched(ws, w, maxWords).value| == maxWords
  {
  }

  /** A new word in a list that is not exactly full is added in front; nothing is dropped. */
  lemma TouchAbsentGrows(ws: seq<string>, w: string, maxWords: int)
    requires w !in ws && |ws| != maxWords
    ensures Touched(ws, w, maxWords) == Some([w] + ws)
  {
  }

  /** Touching the front word changes nothing. */
  lemma TouchFrontIdempotent(ws: seq<string>, w: string, maxWords: int)
    requires ws != [] && ws[0] == w
    ensures Touched(ws, w, maxWords) == Some(ws)
  {
    assert ws[..0] == [];
    TouchPresent(ws, w, maxWords, 0);
    assert [w] + ws[1..] == ws;
  }

  /** A touch that does not raise leaves w in front, keeps the list free of
      duplicates and never lengthens a list that is within its limit past it. */
  lemma TouchFacts(ws: seq<string>, w: string, maxWords: int)
    requires Touched(ws, w, maxWords).Some?
    ensures Touched(ws, w, maxWords).value[0] == w
    ensures Distinct(ws) ==> Distinct(Touched(ws, w, maxWords).value)
    ensures |ws| <= maxWords ==> |Touched(ws, w, maxWords).value| <= maxWords
    ensures |Touched(ws, w, maxWords).value| > 0
  {
    var r := Touched(ws, w, maxWords).value;
    if w in ws {
      var i := FirstOccurrence(ws, w);
      TouchPresent(ws, w, maxWords, i);
      assert r == [w] + ws[..i] + ws[i + 1..];
      if Distinct(ws) {
        forall a, b | 0 <= a < b < |r| ensures r[a] != r[b] {
          if a == 0 {
            assert r[b] == if b - 1 < i then ws[b - 1] else ws[b];
          } else {
            assert r[a] == if a - 1 < i then ws[a - 1] else ws[a];
            assert r[b] == if b - 1 < i then ws[b - 1] else ws[b];
          }
        }
      }
    } else if |ws| == maxWords {
      assert r == [w] + ws[..|ws| - 1];
      if Distinct(ws) {
        forall a, b | 0 <= a < b < |r| ensures r[a] != r[b] {
          if a == 0 {
            assert r[b] == ws[b - 1];
          }
        }
      }
    } else {
      assert r == [w] + ws;
    }
  }

  /** After touching a non-empty batch, the last word of the batch is in front,
      and a list within its limit stays within it. */
  lemma {:induction false} TouchedAllFacts(ws: seq<string>, xs: seq<string>, maxWords: int)
    requires TouchedAll(ws, xs, maxWords).Some?
    ensures xs != [] ==>
      |TouchedAll(ws, xs, maxWords).value| > 0 && TouchedAll(ws, xs, maxWords).value[0] == xs[|xs| - 1]
    ensures |ws| <= maxWords ==> |TouchedAll(ws, xs, maxWords).value| <= maxWords
    decreases |xs|
  {
    if xs != [] {
      TouchFacts(ws, xs[0], maxWords);
      var ws' := Touched(ws, xs[0], maxWords).value;
      TouchedAllFacts(ws', xs[1..], maxWords);
      if |xs| > 1 {
        assert xs[1..][|xs[1..]| - 1] == xs[|xs| - 1];
      } else {
        assert TouchedAll(ws', xs[1..], maxWords) == Some(ws');
      }
    }
  }

  class MostRecentlyUsedWords {
    var words: seq<string>
    const maxWords: int

    constructor (maxWords: int, words: seq<string>)
      ensures this.maxWords == maxWords && this.words == words
    {
      this.maxWords := maxWords;
      this.words := words;
    }

    /** Puts word in front: an existing occurrence is removed first, otherwise
        a full list loses its last word. ok is false when the removal of the
        last word raises, and then nothing has changed. */
    method Touch(word: string) returns (ok: bool)
      modifies this
      ensures ok <==> Touched(old(words), word, maxWords).Some?
      ensures words == Touched(old(words), word, maxWords).GetOr(old(words))
    {
      var i := 0;
      while i < |words| && words[i] != word
        invariant 0 <= i <= |words|
        invariant word !in words[..i]
      {
        i := i + 1;
      }
      if i < |words| {
        RemoveFirstAt(words, word, i);
        words := words[..i] + words[i + 1..];
      } else {
        assert words[..i] == words;
        if |words| == maxWords {
          if words == [] {
            return false;
          }
          words := words[..|words| - 1];
        }
      }
      words := [word] + words;
      ok := true;
    }

    /** Touches the words one by one, stopping at the first touch that raises. */
    method TouchWords(xs: seq<string>) returns (ok: bool)
      modifies this
      ensures ok <==> TouchedAll(old(words), xs, maxWords).Some?
      ensures ok ==> TouchedAll(old(words), xs, maxWords) == Some(words)
      ensures !ok ==> words == old(words)
    {
      var k := 0;
      while k < |xs|
        invariant 0 <= k <= |xs|
        invariant TouchedAll(old(words), xs, maxWords) == TouchedAll(words, xs[k..], maxWords)
        invariant words != [] || words == old(words)
      {
        ok := Touch(xs[k]);
        if !ok {
          return;
        }
        assert xs[k..][1..] == xs[k + 1..];
        k := k + 1;
      }
      ok := true;
    }
  }
}
