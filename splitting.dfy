/**
  The two regular-expression splits the chunker uses, written out as scans:
  `re.split(r'\n\s*\n', text)` for paragraphs and
  `re.split(r'(?<=[.!?])\s+', text)` for sentences.  Both scan left to right
  and cut at each leftmost match, so the text is the pieces interleaved with
  the matched separators.
*/
module Splitting {
  import opened Text

  /** The two separator patterns. */
  datatype Pattern = ParagraphBreak | SentenceBreak

  /** Where a paragraph break starting at `i` ends, or -1: `\n`, then the
      longest run of blanks that still leaves a final `\n` inside it (the
      greedy `\s*` gives back characters until the last `\n` of the run). */
  function ParagraphBreakEnd(s: string, i: nat): (e: int)
    requires i < |s|
    ensures e == -1 || (i + 2 <= e <= |s| && s[i] == '\n' && s[e - 1] == '\n')
    ensures e != -1 ==> forall m :: i < m < e ==> IsSpace(s[m])
    ensures e == -1 <==> s[i] != '\n' || forall m :: i < m < SpaceRunEnd(s, i + 1) ==> s[m] != '\n'
    ensures e != -1 ==> forall m :: e <= m < SpaceRunEnd(s, i + 1) ==> s[m] != '\n'
  {
    if s[i] != '\n' then -1
    else
      var k := LastIndexIn(s, '\n', i + 1, SpaceRunEnd(s, i + 1));
      if k == -1 then -1 else k + 1
  }

  predicate IsTerminal(c: char) {
    c == '.' || c == '!' || c == '?'
  }

  /** Where a sentence break starting at `i` ends, or -1: the whole run of
      blanks at `i`, when it follows `.`, `!` or `?`. */
  function SentenceBreakEnd(s: string, i: nat): (e: int)
    requires i < |s|
    ensures e != -1 <==> i > 0 && IsTerminal(s[i - 1]) && IsSpace(s[i])
    ensures e != -1 ==> i < e <= |s| && (forall m :: i <= m < e ==> IsSpace(s[m])) && (e < |s| ==> !IsSpace(s[e]))
  {
    if i > 0 && IsTerminal(s[i - 1]) && IsSpace(s[i]) then SpaceRunEnd(s, i) else -1
  }

  /** Where a match of `pattern` starting at `i` ends, or -1 when none starts there. */
  function MatchEnd(pattern: Pattern, s: string, i: nat): (e: int)
    requires i < |s|
    ensures e == -1 || i < e <= |s|
  {
    match pattern
    case ParagraphBreak => ParagraphBreakEnd(s, i)
    case SentenceBreak => SentenceBreakEnd(s, i)
  }

  /** The pieces of `s[start..]`, scanning for a match from `i`. */
  function Pieces(pattern: Pattern, s: string, start: nat, i: nat): (r: seq<string>)
    requires start <= i <= |s|
    ensures |r| >= 1
    decreases |s| - i
  {
    if i == |s| then [s[start..]]
    else
      var e := MatchEnd(pattern, s, i);
      if e == -1 then Pieces(pattern, s, start, i + 1)
      else [s[start..i]] + Pieces(pattern, s, e, e)
  }

  /** The spans `(start, end)` of the matches the scan finds from `i`, in order. */
  function Matches(pattern: Pattern, s: string, i: nat): (b: seq<(nat, nat)>)
    requires i <= |s|
    ensures forall j :: 0 <= j < |b| ==> i <= b[j].0 < b[j].1 <= |s| && MatchEnd(pattern, s, b[j].0) == b[j].1
    ensures forall j :: 0 <= j < |b| - 1 ==> b[j].1 <= b[j + 1].0
    decreases |s| - i
  {
    if i == |s| then []
    else
      var e := MatchEnd(pattern, s, i);
      if e == -1 then Matches(pattern, s, i + 1)
      else [(i, e)] + Matches(pattern, s, e)
  }

  /** Where piece `j` starts, when the text from `start` is cut at the spans `b`. */
  function PieceStart(b: seq<(nat, nat)>, start: nat, j: nat): nat
    requires j <= |b|
  {
    if j == 0 then start else b[j - 1].1
  }

  /** Where piece `j` ends, when a text of length `n` is cut at the spans `b`. */
  function PieceEnd(b: seq<(nat, nat)>, n: nat, j: nat): nat
    requires j <= |b|
  {
    if j == |b| then n else b[j].0
  }

  /** No match of `pattern` starts in `s[lo..hi]`. */
  predicate NoMatchIn(pattern: Pattern, s: string, lo: nat, hi: nat)
    requires hi <= |s|
  {
    forall m :: lo <= m < hi ==> MatchEnd(pattern, s, m) == -1
  }

  /** The text of the spans `b` of `s`. */
  function Separators(s: string, b: seq<(nat, nat)>): (t: seq<string>)
    requires forall j :: 0 <= j < |b| ==> b[j].0 <= b[j].1 <= |s|
    ensures |t| == |b|
  {
    if b == [] then [] else [s[b[0].0..b[0].1]] + Separators(s, b[1..])
  }

  /** `pieces[0] + seps[0] + pieces[1] + ... + pieces[|seps|]`. */
  function Interleave(pieces: seq<string>, seps: seq<string>): string
    requires |pieces| == |seps| + 1
    decreases |seps|
  {
    if seps == [] then pieces[0] else pieces[0] + seps[0] + Interleave(pieces[1..], seps[1..])
  }

  /** `r` is `s[start..]` cut at the matches `b`: the pieces with the matched
      text between them rebuild it, each piece is the text between two
      consecutive matches, and no match of `pattern` starts inside a piece. */
  predicate SplitAt(pattern: Pattern, s: string, start: nat, r: seq<string>, b: seq<(nat, nat)>)
    requires start <= |s|
  {
    && |r| == |b| + 1
    && (forall j :: 0 <= j < |b| ==> start <= b[j].0 <= b[j].1 <= |s|)
    && Interleave(r, Separators(s, b)) == s[start..]
    && forall j :: 0 <= j < |r| ==>
         && PieceStart(b, start, j) <= PieceEnd(b, |s|, j) <= |s|
         && r[j] == s[PieceStart(b, start, j)..PieceEnd(b, |s|, j)]
         && NoMatchIn(pattern, s, PieceStart(b, start, j), PieceEnd(b, |s|, j))
  }

  /** Putting one more match and the piece before it in front of a split of
      the text after that match. */
  lemma SplitAtCons(pattern: Pattern, s: string, start: nat, i: nat, e: nat, r: seq<string>, b: seq<(nat, nat)>)
    requires start <= i < e <= |s|
    requires NoMatchIn(pattern, s, start, i)
    requires SplitAt(pattern, s, e, r, b)
    ensures SplitAt(pattern, s, start, [s[start..i]] + r, [(i, e)] + b)
  {
    var r1, b1 := [s[start..i]] + r, [(i, e)] + b;
    InterleaveCons(s, start, i, e, r, b);
    forall j | 0 <= j < |r1|
      ensures && PieceStart(b1, start, j) <= PieceEnd(b1, |s|, j) <= |s|
              && r1[j] == s[PieceStart(b1, start, j)..PieceEnd(b1, |s|, j)]
              && NoMatchIn(pattern, s, PieceStart(b1, start, j), PieceEnd(b1, |s|, j))
    {
      if j > 0 {
        assert r1[j] == r[j - 1];
        assert PieceStart(b1, start, j) == PieceStart(b, e, j - 1);
        assert PieceEnd(b1, |s|, j) == PieceEnd(b, |s|, j - 1);
      }
    }
  }

  lemma InterleaveCons(s: string, start: nat, i: nat, e: nat, r: seq<string>, b: seq<(nat, nat)>)
    requires start <= i <= e <= |s|
    requires |r| == |b| + 1
    requires forall j :: 0 <= j < |b| ==> b[j].0 <= b[j].1 <= |s|
    requires Interleave(r, Separators(s, b)) == s[e..]
    ensures Interleave([s[start..i]] + r, Separators(s, [(i, e)] + b)) == s[start..]
  {
    var r1, b1, rest := [s[start..i]] + r, [(i, e)] + b, Separators(s, b);
    assert Separators(s, b1) == [s[i..e]] + rest by {
      assert b1[1..] == b;
    }
    assert Interleave(r1, [s[i..e]] + rest) == s[start..i] + s[i..e] + s[e..] by {
      assert r1[1..] == r && ([s[i..e]] + rest)[1..] == rest;
    }
    SliceThree(s, start, i, e);
  }

  lemma SliceThree(s: string, a: nat, b: nat, c: nat)
    requires a <= b <= c <= |s|
    ensures s[a..] == s[a..b] + s[b..c] + s[c..]
  {
    assert s[a..] == s[a..b] + s[b..];
    assert s[b..] == s[b..c] + s[c..];
  }

  /** The scan cuts `s[start..]` exactly at the matches it finds, provided
      none started in the part already scanned. */
  lemma {:induction false} PiecesBetweenMatches(pattern: Pattern, s: string, start: nat, i: nat)
    requires start <= i <= |s|
    requires NoMatchIn(pattern, s, start, i)
    ensures SplitAt(pattern, s, start, Pieces(pattern, s, start, i), Matches(pattern, s, i))
    decreases |s| - i
  {
    if i == |s| {
      assert Pieces(pattern, s, start, i) == [s[start..]];
    } else {
      var e := MatchEnd(pattern, s, i);
      if e == -1 {
        PiecesBetweenMatches(pattern, s, start, i + 1);
      } else {
        PiecesBetweenMatches(pattern, s, e, e);
        SplitAtCons(pattern, s, start, i, e, Pieces(pattern, s, e, e), Matches(pattern, s, e));
      }
    }
  }

  /** `re.split(r'\n\s*\n', s)`: `s` cut at the leftmost paragraph breaks. */
  function ParagraphSplit(s: string): (r: seq<string>)
    ensures |r| >= 1
    ensures SplitAt(ParagraphBreak, s, 0, r, Matches(ParagraphBreak, s, 0))
  {
    PiecesBetweenMatches(ParagraphBreak, s, 0, 0);
    Pieces(ParagraphBreak, s, 0, 0)
  }

  /** `re.split(r'(?<=[.!?])\s+', s)`: `s` cut at the leftmost sentence breaks. */
  function SentenceSplit(s: string): (r: seq<string>)
    ensures |r| >= 1
    ensures SplitAt(SentenceBreak, s, 0, r, Matches(SentenceBreak, s, 0))
  {
    PiecesBetweenMatches(SentenceBreak, s, 0, 0);
    Pieces(SentenceBreak, s, 0, 0)
  }
}
