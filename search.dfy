/**
 * The `search` filter of the transaction listing: a case-insensitive
 * match of the search text against a record's title or description.
 * The search text is read as a literal substring (no regular-expression
 * metacharacters) and case is folded on ASCII letters only.
 */
module Search {
  import opened Transactions

  /** Simple case folding: an ASCII upper-case letter becomes lower case. */
  function Fold(c: char): char
  {
    if 'A' <= c <= 'Z' then (c as int + 32) as char else c
  }

  function FoldString(s: string): (r: string)
    ensures |r| == |s|
    ensures forall i :: 0 <= i < |s| ==> r[i] == Fold(s[i])
  {
    if s == [] then [] else [Fold(s[0])] + FoldString(s[1..])
  }

  /** `pat` occurs in `text` at position `i`. */
  ghost predicate OccursAt(pat: string, text: string, i: int)
  {
    0 <= i <= |text| - |pat| && text[i..i + |pat|] == pat
  }

  /** `pat` occurs in `text` starting at some position: the meaning of a substring match. */
  ghost predicate OccursIn(pat: string, text: string)
  {
    exists i :: OccursAt(pat, text, i)
  }

  /** The scan that decides a substring match, one starting position at a time. */
  function Contains(text: string, pat: string): (b: bool)
    ensures b ==> |pat| <= |text|
    ensures pat == [] ==> b
    decreases |text|
  {
    if pat <= text then true
    else if text == [] then false
    else Contains(text[1..], pat)
  }

  /** The scan finds `pat` exactly when `pat` occurs somewhere in `text`. */
  lemma {:induction false} ContainsIffOccurs(text: string, pat: string)
    ensures Contains(text, pat) <==> OccursIn(pat, text)
    decreases |text|
  {
    if pat <= text {
      assert OccursAt(pat, text, 0);
    } else if text == [] {
      assert forall i :: OccursAt(pat, text, i) ==> pat <= text;
    } else {
      ContainsIffOccurs(text[1..], pat);
      if OccursIn(pat, text[1..]) {
        var i :| OccursAt(pat, text[1..], i);
        TailSlice(text, i, |pat|);
        assert OccursAt(pat, text, i + 1);
      }
      if OccursIn(pat, text) {
        var i :| OccursAt(pat, text, i);
        assert i > 0 by {
          assert OccursAt(pat, text, 0) ==> pat <= text;
        }
        TailSlice(text, i - 1, |pat|);
        assert OccursAt(pat, text[1..], i - 1);
      }
    }
  }

  /** A slice of the text without its first character is the slice one position further on. */
  lemma TailSlice(text: string, i: int, n: int)
    requires text != [] && 0 <= i && 0 <= n && i + n <= |text| - 1
    ensures text[1..][i..i + n] == text[i + 1..i + 1 + n]
  {
  }

  /** Folding twice is folding once. */
  lemma FoldStringIdempotent(s: string)
    ensures FoldString(FoldString(s)) == FoldString(s)
  {
  }

  /**
   * The listing's query: `{ $or: [ { title: { $regex: search, $options: 'i' } },
   * { description: ... } ] }`, read as a literal, case-insensitive substring test.
   */
  predicate MatchesSearch(t: Transaction, search: string)
    ensures MatchesSearch(t, search) ==> |search| <= |t.title| || |search| <= |t.description|
  {
    Contains(FoldString(t.title), FoldString(search))
    || Contains(FoldString(t.description), FoldString(search))
  }

  /**
   * A record matches exactly when the folded search text occurs in its
   * folded title or in its folded description.
   */
  lemma MatchesSearchIff(t: Transaction, search: string)
    ensures MatchesSearch(t, search) <==>
      OccursIn(FoldString(search), FoldString(t.title))
      || OccursIn(FoldString(search), FoldString(t.description))
  {
    ContainsIffOccurs(FoldString(t.title), FoldString(search));
    ContainsIffOccurs(FoldString(t.description), FoldString(search));
  }

  /** The empty search text, the default, matches every record. */
  lemma EmptySearchMatches(t: Transaction)
    ensures MatchesSearch(t, "")
  {
  }

  /** Case does not matter: searching for the folded text gives the same verdict. */
  lemma MatchIgnoresCase(t: Transaction, search: string)
    ensures MatchesSearch(t, FoldString(search)) == MatchesSearch(t, search)
  {
    FoldStringIdempotent(search);
  }
}
