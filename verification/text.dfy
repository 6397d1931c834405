/** The string handling the identify step relies on: splitting the mixed sentence on
    single spaces, removing punctuation from a clicked token, lower-casing, and the
    resulting match rule. */
module Text {

  /** The characters the identify step removes from a token, wherever they occur. */
  predicate IsPunctuation(c: char) {
    c == '.' || c == ',' || c == '!' || c == '?' || c == ';'
  }

  predicate HasNoPunctuation(s: string) {
    forall k :: 0 <= k < |s| ==> !IsPunctuation(s[k])
  }

  // ---------------------------------------------------------------------------
  // Splitting on a separator, as `String.prototype.split` with a one-character
  // separator does: consecutive separators give empty pieces and the result is
  // never empty.
  // ---------------------------------------------------------------------------

  function Split(s: string, sep: char): (r: seq<string>)
    ensures |r| >= 1
    ensures forall t :: t in r ==> sep !in t
    decreases |s|
  {
    if |s| == 0 then [""]
    else
      var rest := Split(s[1..], sep);
      if s[0] == sep then [""] + rest
      else [[s[0]] + rest[0]] + rest[1..]
  }

  /** The inverse of Split: the pieces glued back together with the separator. */
  function Join(parts: seq<string>, sep: char): string
    requires |parts| >= 1
  {
    if |parts| == 1 then parts[0] else parts[0] + [sep] + Join(parts[1..], sep)
  }

  /** Gluing the pieces of a split back together gives the original text. */
  lemma {:induction false} JoinSplit(s: string, sep: char)
    ensures Join(Split(s, sep), sep) == s
    decreases |s|
  {
    if |s| > 0 {
      JoinSplit(s[1..], sep);
      var rest := Split(s[1..], sep);
      if s[0] == sep {
        assert Split(s, sep)[1..] == rest;
        assert s == [sep] + s[1..];
      } else {
        var r := Split(s, sep);
        if |rest| == 1 {
          assert r == [[s[0]] + rest[0]];
        } else {
          assert r[1..] == rest[1..];
          assert Join(rest, sep) == rest[0] + [sep] + Join(rest[1..], sep);
          assert s == [s[0]] + s[1..];
        }
      }
    }
  }

  /** Splitting a join of separator-free pieces gives the pieces back. */
  lemma {:induction false} SplitJoin(parts: seq<string>, sep: char)
    requires |parts| >= 1
    requires forall t :: t in parts ==> sep !in t
    ensures Split(Join(parts, sep), sep) == parts
    decreases |parts|, |parts[0]|
  {
    var p := parts[0];
    if |p| == 0 {
      if |parts| > 1 {
        SplitJoin(parts[1..], sep);
        var j := Join(parts, sep);
        assert j == [sep] + Join(parts[1..], sep);
        assert j[1..] == Join(parts[1..], sep);
        assert parts == [""] + parts[1..];
      }
    } else {
      var shorter := [p[1..]] + parts[1..];
      assert forall t :: t in shorter ==> sep !in t by {
        forall t | t in shorter ensures sep !in t {
          if t == p[1..] {
            assert p == parts[0] && sep !in p;
            assert p == [p[0]] + t;
          } else {
            assert t in parts;
          }
        }
      }
      SplitJoin(shorter, sep);
      var j := Join(parts, sep);
      assert p[0] != sep by { assert p[0] in p; }
      if |parts| == 1 {
        assert j[1..] == Join(shorter, sep);
        assert [p[0]] + p[1..] == p;
        assert [p] == parts;
      } else {
        assert shorter[1..] == parts[1..];
        assert j[1..] == Join(shorter, sep);
        assert [p[0]] + p[1..] == p;
        assert [p] + parts[1..] == parts;
      }
    }
  }

  /** Joining four, five or six pieces written out. */
  lemma JoinFour(a: string, b: string, c: string, d: string, sep: char)
    ensures Join([a, b, c, d], sep) == a + [sep] + b + [sep] + c + [sep] + d
  {
    var p := [a, b, c, d];
    assert p[1..] == [b, c, d] && p[1..][1..] == [c, d] && p[1..][1..][1..] == [d];
    assert Join([c, d], sep) == c + [sep] + d;
    assert Join([b, c, d], sep) == b + [sep] + (c + [sep] + d);
  }

  lemma JoinFive(a: string, b: string, c: string, d: string, e: string, sep: char)
    ensures Join([a, b, c, d, e], sep) == a + [sep] + b + [sep] + c + [sep] + d + [sep] + e
  {
    assert [a, b, c, d, e][1..] == [b, c, d, e];
    JoinFour(b, c, d, e, sep);
  }

  lemma JoinSix(a: string, b: string, c: string, d: string, e: string, f: string, sep: char)
    ensures Join([a, b, c, d, e, f], sep) == a + [sep] + b + [sep] + c + [sep] + d + [sep] + e + [sep] + f
  {
    assert [a, b, c, d, e, f][1..] == [b, c, d, e, f];
    JoinFive(b, c, d, e, f, sep);
  }

  /** The tokens the identify step renders as buttons: the sentence split on single spaces. */
  function Tokens(sentence: string): seq<string> {
    Split(sentence, ' ')
  }

  // ---------------------------------------------------------------------------
  // Punctuation removal (every occurrence, not only trailing ones).
  // ---------------------------------------------------------------------------

  function StripPunctuation(s: string): (r: string)
    ensures |r| <= |s|
    ensures HasNoPunctuation(r)
    ensures forall c :: c in r ==> c in s
  {
    if |s| == 0 then ""
    else if IsPunctuation(s[0]) then StripPunctuation(s[1..])
    else [s[0]] + StripPunctuation(s[1..])
  }

  /** Removing punctuation distributes over concatenation, so a punctuation character
      anywhere in a token is dropped. */
  lemma {:induction false} StripConcat(a: string, b: string)
    ensures StripPunctuation(a + b) == StripPunctuation(a) + StripPunctuation(b)
    decreases |a|
  {
    if |a| > 0 {
      assert (a + b)[1..] == a[1..] + b;
      StripConcat(a[1..], b);
    } else {
      assert a + b == b;
    }
  }

  /** A token without punctuation is left as it is. */
  lemma {:induction false} StripClean(s: string)
    requires HasNoPunctuation(s)
    ensures StripPunctuation(s) == s
    decreases |s|
  {
    if |s| > 0 {
      StripClean(s[1..]);
      assert s == [s[0]] + s[1..];
    }
  }

  /** Removal is idempotent. */
  lemma StripIdempotent(s: string)
    ensures StripPunctuation(StripPunctuation(s)) == StripPunctuation(s)
  {
    StripClean(StripPunctuation(s));
  }

  // ---------------------------------------------------------------------------
  // Lower-casing: a length-preserving, character-by-character map. It folds the
  // ASCII capitals, the Latin-1 capitals (which cover Ç, Ê, Î and Û) and Ş.
  // ---------------------------------------------------------------------------

  predicate IsUpper(c: char) {
    ('A' <= c <= 'Z') || ('À' <= c <= 'Þ' && c != '×') || c == 'Ş'
  }

  function LowerChar(c: char): (r: char)
    ensures !IsUpper(r)
    ensures !IsUpper(c) ==> r == c
  {
    if c == 'Ş' then 'ş'
    else if IsUpper(c) then (c as int + 32) as char
    else c
  }

  function ToLower(s: string): (r: string)
    ensures |r| == |s|
    ensures forall k :: 0 <= k < |s| ==> r[k] == LowerChar(s[k])
  {
    if |s| == 0 then "" else [LowerChar(s[0])] + ToLower(s[1..])
  }

  /** Lower-casing a lower-cased string changes nothing. */
  lemma ToLowerIdempotent(s: string)
    ensures ToLower(ToLower(s)) == ToLower(s)
  {
  }

  // ---------------------------------------------------------------------------
  // The identify match rule.
  // ---------------------------------------------------------------------------

  /** A clicked token matches the loanword when, with every punctuation character
      removed, its lower-case form equals the loanword's lower-case form. */
  predicate IdentifyMatches(token: string, dirtyWord: string) {
    ToLower(StripPunctuation(token)) == ToLower(dirtyWord)
  }

  /** A match needs the punctuation-free token to be exactly as long as the loanword. */
  lemma MatchNeedsEqualLength(token: string, dirtyWord: string)
    requires IdentifyMatches(token, dirtyWord)
    ensures |StripPunctuation(token)| == |dirtyWord|
  {
    assert |ToLower(StripPunctuation(token))| == |ToLower(dirtyWord)|;
  }

  /** Inserting a punctuation character anywhere in a token does not change whether it matches. */
  lemma PunctuationAnywhereIgnored(a: string, p: char, b: string, dirtyWord: string)
    requires IsPunctuation(p)
    ensures IdentifyMatches(a + [p] + b, dirtyWord) <==> IdentifyMatches(a + b, dirtyWord)
  {
    StripConcat(a + [p], b);
    StripConcat(a, [p]);
    StripConcat(a, b);
    assert StripPunctuation([p]) == "";
    assert StripPunctuation(a + [p]) == StripPunctuation(a);
  }

  /** The match ignores case on the clicked side. */
  lemma MatchIgnoresCase(token: string, dirtyWord: string)
    ensures IdentifyMatches(ToLower(token), dirtyWord) <==> IdentifyMatches(token, dirtyWord)
  {
    StripLowerCommute(token);
    ToLowerIdempotent(StripPunctuation(token));
  }

  /** Lower-casing neither creates nor removes punctuation, so the two steps commute. */
  lemma {:induction false} StripLowerCommute(s: string)
    ensures StripPunctuation(ToLower(s)) == ToLower(StripPunctuation(s))
    decreases |s|
  {
    if |s| > 0 {
      StripLowerCommute(s[1..]);
      assert ToLower(s)[1..] == ToLower(s[1..]);
      assert IsPunctuation(LowerChar(s[0])) == IsPunctuation(s[0]);
    }
  }

  /** A loanword without punctuation matches itself, whatever its case. */
  lemma MatchesItself(dirtyWord: string)
    requires HasNoPunctuation(dirtyWord)
    ensures IdentifyMatches(dirtyWord, dirtyWord)
  {
    StripClean(dirtyWord);
  }
}
