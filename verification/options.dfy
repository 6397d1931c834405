/** The answer options of the replace step: drop the current item by id, take every
    other item's pure word, keep the first three, append the answer, and shuffle. */
module Options {
  import opened Types

  function Min(a: int, b: int): int {
    if a <= b then a else b
  }

  /** No two entries share an id. */
  predicate IdsDistinct(words: seq<WordPair>) {
    forall i, j :: 0 <= i < j < |words| ==> words[i].id != words[j].id
  }

  /** No two entries share a pure word. */
  predicate PureWordsDistinct(words: seq<WordPair>) {
    forall i, j :: 0 <= i < j < |words| ==> words[i].pure_word != words[j].pure_word
  }

  /** The entries whose id differs from `id`, in list order (`filter`). */
  function OthersThan(words: seq<WordPair>, id: string): (r: seq<WordPair>)
    ensures |r| <= |words|
    ensures forall w :: w in r <==> w in words && w.id != id
  {
    if |words| == 0 then []
    else if words[0].id != id then [words[0]] + OthersThan(words[1..], id)
    else OthersThan(words[1..], id)
  }

  /** The pure word of every entry, in list order (`map`). */
  function PureWords(words: seq<WordPair>): (r: seq<string>)
    ensures |r| == |words|
    ensures forall k :: 0 <= k < |words| ==> r[k] == words[k].pure_word
  {
    if |words| == 0 then [] else [words[0].pure_word] + PureWords(words[1..])
  }

  /** The first `n` elements, or all of them when there are fewer (`slice(0, n)`). */
  function Take<T>(s: seq<T>, n: nat): (r: seq<T>)
    ensures |r| == Min(n, |s|)
    ensures r == s[..|r|]
  {
    if |s| <= n then s else s[..n]
  }

  /** The wrong answers offered beside the current item's pure word. */
  function Distractors(words: seq<WordPair>, current: WordPair): seq<string> {
    Take(PureWords(OthersThan(words, current.id)), 3)
  }

  /** The options before shuffling: the distractors followed by the answer. */
  function Candidates(words: seq<WordPair>, current: WordPair): (r: seq<string>)
  {
    Distractors(words, current) + [current.pure_word]
  }

  /** For any list, the options are one more than the distractors, at most four, and
      the last of them is the answer. */
  lemma CandidatesShape(words: seq<WordPair>, current: WordPair)
    ensures var r := Candidates(words, current);
      && |r| == Min(3, |OthersThan(words, current.id)|) + 1
      && r[|r| - 1] == current.pure_word
  {
  }

  /** Any arrangement of the options has as many of them as the options themselves and
      offers the answer. */
  lemma ArrangementOffersAnswer(options: seq<string>, words: seq<WordPair>, current: WordPair)
    requires multiset(options) == multiset(Candidates(words, current))
    ensures |options| == Min(3, |OthersThan(words, current.id)|) + 1
    ensures current.pure_word in options
  {
    var r := Candidates(words, current);
    CandidatesShape(words, current);
    assert |options| == |multiset(options)| == |multiset(r)| == |r|;
    assert r[|r| - 1] in multiset(r);
  }

  /** Filtering out an id that no entry carries keeps every entry. */
  lemma {:induction false} OthersThanNone(words: seq<WordPair>, id: string)
    requires forall k :: 0 <= k < |words| ==> words[k].id != id
    ensures OthersThan(words, id) == words
  {
    if |words| > 0 {
      OthersThanNone(words[1..], id);
    }
  }

  /** With distinct ids, filtering by the id of entry `i` removes exactly entry `i`. */
  lemma {:induction false} OthersThanExactlyOne(words: seq<WordPair>, i: nat)
    requires IdsDistinct(words)
    requires i < |words|
    ensures OthersThan(words, words[i].id) == words[..i] + words[i + 1..]
  {
    var id := words[i].id;
    if i == 0 {
      OthersThanNone(words[1..], id);
    } else {
      var tail := words[1..];
      assert IdsDistinct(tail) by {
        forall a, b | 0 <= a < b < |tail| ensures tail[a].id != tail[b].id {
          assert tail[a] == words[a + 1] && tail[b] == words[b + 1];
        }
      }
      assert tail[i - 1] == words[i];
      OthersThanExactlyOne(tail, i - 1);
      assert words[0].id != id;
      assert tail[..i - 1] == words[1..i];
      assert tail[i..] == words[i + 1..];
      assert words[..i] == [words[0]] + words[1..i];
    }
  }

  /** With distinct ids and distinct pure words, the options for entry `i` are the
      pure words of the first up to three other entries, in list order, followed by
      entry `i`'s pure word; there are min(3, n - 1) + 1 of them and the answer occurs
      exactly once. */
  lemma CandidatesFor(words: seq<WordPair>, i: nat)
    requires IdsDistinct(words) && PureWordsDistinct(words)
    requires i < |words|
    ensures var r := Candidates(words, words[i]);
      && r == Take(PureWords(words[..i] + words[i + 1..]), 3) + [words[i].pure_word]
      && |r| == Min(3, |words| - 1) + 1
      && multiset(r)[words[i].pure_word] == 1
  {
    var others := words[..i] + words[i + 1..];
    OthersThanExactlyOne(words, i);
    var d := Take(PureWords(others), 3);
    var answer := words[i].pure_word;
    forall k | 0 <= k < |d|
      ensures d[k] != answer
    {
      assert d[k] == others[k].pure_word;
      if k < i {
        assert others[k] == words[k];
      } else {
        assert others[k] == words[k + 1];
      }
    }
    assert answer !in d;
    assert multiset(d)[answer] == 0;
    assert multiset(d + [answer]) == multiset(d) + multiset{answer};
  }
}
