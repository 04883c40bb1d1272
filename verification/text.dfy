/** Case-insensitive substring matching, as used for request paths and user
    agents (a regular-expression search of plain words with case ignored). */
module Text {

  /** ASCII lower-casing of one character: a capital letter becomes the
      small letter at the same position of the alphabet, every other
      character is unchanged, and no capital letter is left. */
  function Lower(c: char): (d: char)
    ensures !('A' <= d <= 'Z')
    ensures 'A' <= c <= 'Z' ==> 'a' <= d <= 'z' && d as int - 'a' as int == c as int - 'A' as int
    ensures !('A' <= c <= 'Z') ==> d == c
  {
    if 'A' <= c <= 'Z' then (c as int + 32) as char else c
  }

  /** Lower-casing of a whole string, character by character: same length,
      no capital letter left. */
  function LowerStr(s: string): (r: string)
    ensures |r| == |s|
    ensures forall i :: 0 <= i < |s| ==> r[i] == Lower(s[i])
    ensures forall i :: 0 <= i < |r| ==> !('A' <= r[i] <= 'Z')
  {
    seq(|s|, i requires 0 <= i < |s| => Lower(s[i]))
  }

  /** Lower-casing twice is lower-casing once. */
  lemma LowerStrIdempotent(s: string)
    ensures LowerStr(LowerStr(s)) == LowerStr(s)
  {
  }

  /** A small letter and its capital fold to the same character. */
  lemma CaseFolds(c: char)
    requires 'a' <= c <= 'z'
    ensures Lower((c as int - 32) as char) == Lower(c) == c
  {
  }

  /** `t` occurs in `s` starting at position `i`. */
  predicate OccursAt(s: string, t: string, i: int) {
    0 <= i <= |s| - |t| && s[i..i + |t|] == t
  }

  /** Reference definition: `t` occurs in `s` at some position. */
  ghost predicate Occurs(s: string, t: string) {
    exists i :: OccursAt(s, t, i)
  }

  /** Left-to-right search for `t` in `s`. */
  function Search(s: string, t: string): bool
    decreases |s|
  {
    if |t| > |s| then false
    else if s[..|t|] == t then true
    else Search(s[1..], t)
  }

  /** The search finds `t` exactly when `t` occurs somewhere in `s`. */
  lemma {:induction false} SearchCorrect(s: string, t: string)
    ensures Search(s, t) <==> Occurs(s, t)
    decreases |s|
  {
    if |t| > |s| {
    } else if s[..|t|] == t {
      assert OccursAt(s, t, 0);
    } else {
      SearchCorrect(s[1..], t);
      if Occurs(s[1..], t) {
        var i :| OccursAt(s[1..], t, i);
        assert s[i + 1..i + 1 + |t|] == s[1..][i..i + |t|];
        assert OccursAt(s, t, i + 1);
      }
      if Occurs(s, t) {
        var i :| OccursAt(s, t, i);
        assert i != 0 by { assert s[..|t|] == s[0..0 + |t|]; }
        assert s[1..][i - 1..i - 1 + |t|] == s[i..i + |t|];
        assert OccursAt(s[1..], t, i - 1);
      }
    }
  }

  /** Case-insensitive "contains": `needle` occurs in `hay` once both are
      lower-cased. */
  predicate ContainsFold(hay: string, needle: string) {
    Search(LowerStr(hay), LowerStr(needle))
  }

  /** The window of `hay` at `i` equals `needle` ignoring case. */
  predicate FoldsAt(hay: string, needle: string, i: int) {
    0 <= i <= |hay| - |needle| && LowerStr(hay[i..i + |needle|]) == LowerStr(needle)
  }

  /** `ContainsFold` holds exactly when some window of `hay` lower-cases to
      the lower-cased needle. */
  lemma ContainsFoldCorrect(hay: string, needle: string)
    ensures ContainsFold(hay, needle) <==> exists i :: FoldsAt(hay, needle, i)
  {
    var h, n := LowerStr(hay), LowerStr(needle);
    SearchCorrect(h, n);
    forall i
      ensures OccursAt(h, n, i) <==> FoldsAt(hay, needle, i)
    {
      if 0 <= i <= |hay| - |needle| {
        assert h[i..i + |n|] == LowerStr(hay[i..i + |needle|]);
      }
    }
  }

  /** Case-insensitive match against any token of the list (the alternation
      `tok1|tok2|...`). */
  predicate MatchesAnyToken(s: string, tokens: seq<string>) {
    exists k :: 0 <= k < |tokens| && ContainsFold(s, tokens[k])
  }

  /** A string that contains a word also matches any longer token list that
      still holds that word. */
  lemma MatchesAnyTokenMono(s: string, tokens: seq<string>, more: seq<string>)
    requires forall k :: 0 <= k < |tokens| ==> tokens[k] in more
    requires MatchesAnyToken(s, tokens)
    ensures MatchesAnyToken(s, more)
  {
    var k :| 0 <= k < |tokens| && ContainsFold(s, tokens[k]);
    var j :| 0 <= j < |more| && more[j] == tokens[k];
  }

  /** One window that matches ignoring case is enough for the string to
      contain the needle ignoring case. */
  lemma ContainsFoldAt(hay: string, needle: string, i: int)
    requires FoldsAt(hay, needle, i)
    ensures ContainsFold(hay, needle)
  {
    ContainsFoldCorrect(hay, needle);
  }
}
