/**
  The document chunker: a sliding character window that prefers to end
  after a `.` or a newline, and greedy packing of paragraphs or sentences
  up to a character budget.
*/
module Chunking {
  import opened Wrappers
  import opened Text
  import opened Splitting

  predicate IsBreak(c: char) {
    c == '.' || c == '\n'
  }

  function Max(a: int, b: int): int {
    if a < b then b else a
  }

  /** The end of the window that starts at `start`: `start + chunk_size`, or,
      when that falls short of the end of the text, just after the last `.`
      or newline of the window, provided that lies after `start`. */
  function WindowEnd(text: string, size: int, start: int): (end: int)
    ensures start + size >= |text| ==> end == start + size
    ensures 0 <= start && 0 <= start + size < |text| ==>
      && end <= start + size
      && ((exists m :: start < m < start + size && IsBreak(text[m])) ==>
            start + 1 < end && IsBreak(text[end - 1]) && forall m :: end <= m < start + size ==> !IsBreak(text[m]))
      && ((forall m :: start < m < start + size ==> !IsBreak(text[m])) ==> end == start + size)
  {
    var end := start + size;
    if end < |text| then
      var periodIdx := RFind(text, '.', start, end);
      var newlineIdx := RFind(text, '\n', start, end);
      var breakIdx := Max(periodIdx, newlineIdx);
      if breakIdx > start then breakIdx + 1 else end
    else end
  }

  /** Where the loop of the original starts its next window: `end - chunk_overlap`. */
  function AsWrittenNext(text: string, size: int, overlap: int, start: int): int
  {
    WindowEnd(text, size, start) - overlap
  }

  /** The next window start of the model: the original's `end - chunk_overlap`
      whenever that moves forward, and one past the current start otherwise. */
  function NextStart(text: string, size: int, overlap: int, start: nat): (r: nat)
    ensures r > start
    ensures AsWrittenNext(text, size, overlap, start) > start ==> r == AsWrittenNext(text, size, overlap, start)
    ensures AsWrittenNext(text, size, overlap, start) <= start ==> r == start + 1
  {
    var next := AsWrittenNext(text, size, overlap, start);
    if next > start then next else start + 1
  }

  /** The `(start, end)` windows the loop visits from `start` on. */
  function Windows(text: string, size: int, overlap: int, start: nat): seq<(nat, int)>
    decreases |text| - start
  {
    if start >= |text| then []
    else [(start, WindowEnd(text, size, start))] + Windows(text, size, overlap, NextStart(text, size, overlap, start))
  }

  /** The stripped text of each window, dropping the blank ones. */
  function WindowChunks(text: string, w: seq<(nat, int)>): (r: seq<string>)
    ensures forall c :: c in r ==> c != [] && IsStripped(c)
    ensures forall i :: 0 <= i < |w| && Strip(PySlice(text, w[i].0, w[i].1)) != [] ==>
      Strip(PySlice(text, w[i].0, w[i].1)) in r
    ensures |r| <= |w|
  {
    if |w| == 0 then []
    else
      var c := Strip(PySlice(text, w[0].0, w[0].1));
      var rest := WindowChunks(text, w[1..]);
      assert forall i :: 1 <= i < |w| ==> w[i] == w[1..][i - 1];
      (if c == [] then [] else [c]) + rest
  }

  /** What `chunk_by_tokens` returns. */
  function TokenChunks(text: string, size: int, overlap: int): seq<string>
  {
    WindowChunks(text, Windows(text, size, overlap, 0))
  }

  /** The windows tile the text as the loop walks it: each starts inside the
      text, ends where `WindowEnd` says, is at most `chunk_size` wide, and the
      next one starts where `NextStart` says; the walk ends past the text. */
  lemma {:induction false} WindowsShape(text: string, size: int, overlap: int, start: nat)
    ensures var w := Windows(text, size, overlap, start);
      && (w == [] <==> start >= |text|)
      && (w != [] ==> w[0].0 == start && NextStart(text, size, overlap, w[|w| - 1].0) >= |text|)
      && (forall i :: 0 <= i < |w| ==>
            && w[i].0 < |text|
            && w[i].1 == WindowEnd(text, size, w[i].0)
            && (0 <= size ==> w[i].1 - w[i].0 <= size))
      && (forall i :: 0 <= i < |w| - 1 ==> w[i + 1].0 == NextStart(text, size, overlap, w[i].0))
    decreases |text| - start
  {
    if start < |text| {
      var next := NextStart(text, size, overlap, start);
      WindowsShape(text, size, overlap, next);
      var w := Windows(text, size, overlap, start);
      var rest := Windows(text, size, overlap, next);
      assert w == [(start, WindowEnd(text, size, start))] + rest;
      forall i | 1 <= i < |w| ensures w[i] == rest[i - 1] {
      }
    }
  }

  /** With a positive `chunk_size` and an overlap that is not negative, a
      window ends after it starts and the next window starts no later than
      it ends. */
  lemma NextWithinWindow(text: string, size: int, overlap: int, start: nat)
    requires 1 <= size && 0 <= overlap && start < |text|
    ensures start < WindowEnd(text, size, start)
    ensures NextStart(text, size, overlap, start) <= WindowEnd(text, size, start)
  {
    if start + size < |text| && !exists m :: start < m < start + size && IsBreak(text[m]) {
      assert WindowEnd(text, size, start) == start + size;
    }
  }

  /** Position `k` lies inside one of the windows `w`. */
  predicate InSomeWindow(w: seq<(nat, int)>, k: int) {
    exists i :: 0 <= i < |w| && w[i].0 <= k < w[i].1
  }

  /** With a positive `chunk_size` and an overlap that is not negative, every
      character of the text from `start` on lies inside some window: the
      windows leave no gap. */
  lemma {:induction false} WindowsCover(text: string, size: int, overlap: int, start: nat)
    requires 1 <= size && 0 <= overlap
    ensures forall k :: start <= k < |text| ==> InSomeWindow(Windows(text, size, overlap, start), k)
    decreases |text| - start
  {
    if start < |text| {
      var next := NextStart(text, size, overlap, start);
      NextWithinWindow(text, size, overlap, start);
      WindowsCover(text, size, overlap, next);
      var w, rest := Windows(text, size, overlap, start), Windows(text, size, overlap, next);
      assert w == [(start, WindowEnd(text, size, start))] + rest;
      forall k | start <= k < |text|
        ensures InSomeWindow(w, k)
      {
        if k < WindowEnd(text, size, start) {
          assert w[0].0 <= k < w[0].1;
        } else {
          assert next <= k;
          assert InSomeWindow(rest, k);
          var j :| 0 <= j < |rest| && rest[j].0 <= k < rest[j].1;
          assert w[j + 1] == rest[j];
        }
      }
    }
  }

  /** The empty text gives no chunks. */
  lemma TokenChunksEmpty(size: int, overlap: int)
    ensures TokenChunks("", size, overlap) == []
  {
  }

  /** A text no longer than `chunk_size - chunk_overlap` that is not all
      blank comes back as one chunk, its own `strip()`. */
  lemma ShortTextOneChunk(text: string, size: int, overlap: int)
    requires 0 <= overlap && 0 < |text| <= size - overlap
    requires !AllSpace(text)
    ensures TokenChunks(text, size, overlap) == [Strip(text)]
  {
    assert WindowEnd(text, size, 0) == size;
    assert NextStart(text, size, overlap, 0) == size - overlap;
    assert Windows(text, size, overlap, 0) == [(0, size)];
    assert PySlice(text, 0, size) == text;
  }

  /** The original's step moves forward whenever the window is wider than the
      overlap and no `.` or newline falls within `chunk_overlap` characters
      after the window start; then the model and the original take the same step. */
  lemma StepAdvances(text: string, size: int, overlap: int, start: nat)
    requires start < |text| && overlap < size
    requires forall m :: start < m < start + overlap && m < |text| ==> !IsBreak(text[m])
    ensures AsWrittenNext(text, size, overlap, start) > start
    ensures NextStart(text, size, overlap, start) == AsWrittenNext(text, size, overlap, start)
  {
    var end := WindowEnd(text, size, start);
    if start + size < |text| && exists m :: start < m < start + size && IsBreak(text[m]) {
      assert IsBreak(text[end - 1]);
      assert end - 1 >= start + overlap;
    }
  }

  /** The original's step does not move forward when the last `.` or newline
      of a window that stops short of the end lies after the window start but
      at most `chunk_overlap - 1` characters after it. */
  lemma StepStalls(text: string, size: int, overlap: int, start: nat, b: nat)
    requires start < b <= start + overlap - 1 && start + size < |text| && b < start + size
    requires IsBreak(text[b])
    requires forall m :: b < m < start + size ==> !IsBreak(text[m])
    ensures AsWrittenNext(text, size, overlap, start) <= start
  {
    var end := WindowEnd(text, size, start);
    assert end - 1 == b by {
      assert IsBreak(text[end - 1]);
    }
  }

  /** When the original's step from a window that stops short of the end
      falls back to a position `n` with `0 <= n <= start` (and the overlap is
      at most `chunk_size`), the window at `n` ends at the same break, so the
      step from `n` leads to `n` again: the loop repeats that window for ever. */
  lemma AsWrittenStaysBelow(text: string, size: int, overlap: int, start: nat)
    requires start + size < |text| && overlap <= size
    requires 0 <= AsWrittenNext(text, size, overlap, start) <= start
    ensures var n := AsWrittenNext(text, size, overlap, start);
      AsWrittenNext(text, size, overlap, n) == n
  {
    var end := WindowEnd(text, size, start);
    var n: nat := end - overlap;
    if exists m :: start < m < start + size && IsBreak(text[m]) {
      var b: nat := end - 1;
      assert forall m :: b < m < n + size ==> !IsBreak(text[m]) by {
        assert n + size <= start + size;
      }
      EndsAtLastBreak(text, size, n, b);
    }
  }

  /** A window that stops short of the end and whose last `.` or newline
      after its start is at `b` ends just after `b`. */
  lemma EndsAtLastBreak(text: string, size: int, start: nat, b: nat)
    requires start < b < start + size < |text| && IsBreak(text[b])
    requires forall m :: b < m < start + size ==> !IsBreak(text[m])
    ensures WindowEnd(text, size, start) == b + 1
  {
    var end := WindowEnd(text, size, start);
    assert start + 1 < end && IsBreak(text[end - 1]);
  }

  /** When the original's step from a window that stops short of the end
      lands exactly on -1 (and `chunk_overlap < chunk_size`), the window at -1
      searches an empty range, ends at `chunk_size - 1` and holds no text, and
      the loop resumes at `chunk_size - 1 - chunk_overlap`. */
  lemma AsWrittenRecovers(text: string, size: int, overlap: int, start: nat)
    requires start + size < |text| && overlap < size
    requires AsWrittenNext(text, size, overlap, start) == -1
    ensures WindowEnd(text, size, -1) == size - 1
    ensures PySlice(text, -1, size - 1) == []
    ensures AsWrittenNext(text, size, overlap, -1) == size - 1 - overlap
  {
    assert WindowEnd(text, size, start) >= start + 1;
    assert RFind(text, '.', -1, size - 1) == -1 && RFind(text, '\n', -1, size - 1) == -1;
  }

  /** When the original's step from a window that stops short of the end
      lands at -2 or lower (and `chunk_overlap < chunk_size`), the window
      there searches an empty range, ends at 0 and holds no text; the loop
      moves to `-chunk_overlap` and repeats that empty window for ever. */
  lemma AsWrittenSinks(text: string, size: int, overlap: int, start: nat)
    requires start + size < |text| && overlap < size
    requires AsWrittenNext(text, size, overlap, start) <= -2
    ensures var n := AsWrittenNext(text, size, overlap, start);
      && WindowEnd(text, size, n) == 0 && PySlice(text, n, 0) == []
      && AsWrittenNext(text, size, overlap, n) == -overlap
    ensures WindowEnd(text, size, -overlap) == 0 && PySlice(text, -overlap, 0) == []
    ensures AsWrittenNext(text, size, overlap, -overlap) == -overlap
  {
    var n := AsWrittenNext(text, size, overlap, start);
    assert WindowEnd(text, size, start) >= start + 1;
    assert RFind(text, '.', n, n + size) == -1 && RFind(text, '\n', n, n + size) == -1;
    assert RFind(text, '.', -overlap, -overlap + size) == -1 && RFind(text, '\n', -overlap, -overlap + size) == -1;
  }

  /** In the original, `chunk_by_tokens("abc." + "b" * 16)` with
      `chunk_size=10` and `chunk_overlap=5` steps from 0 back to -1 and then
      on to 4, where the model steps from 0 to 1. */
  lemma AsWrittenRecoversExample()
    ensures var t := "abc.bbbbbbbbbbbbbbbb";
      && AsWrittenNext(t, 10, 5, 0) == -1
      && AsWrittenNext(t, 10, 5, -1) == 4
      && NextStart(t, 10, 5, 0) == 1
  {
    var t := "abc.bbbbbbbbbbbbbbbb";
    assert RFind(t, '.', 0, 10) == 3;
    assert RFind(t, '\n', 0, 10) == -1;
    AsWrittenRecovers(t, 10, 5, 0);
  }

  /** In the original, `chunk_by_tokens("a.bbbbbbbbbb")` with `chunk_size=10`
      and `chunk_overlap=5` moves its start 0, -3, -5, -5, ...: the start stays
      below the text length for ever and the loop never exits. */
  lemma AsWrittenLoopRepeats()
    ensures var t := "a.bbbbbbbbbb";
      && AsWrittenNext(t, 10, 5, 0) == -3
      && AsWrittenNext(t, 10, 5, -3) == -5
      && AsWrittenNext(t, 10, 5, -5) == -5
      && -5 < |t|
  {
    var t := "a.bbbbbbbbbb";
    assert RFind(t, '.', 0, 10) == 1;
    assert RFind(t, '\n', 0, 10) == -1;
    assert RFind(t, '.', -3, 7) == -1;
    assert RFind(t, '.', -5, 5) == -1;
  }

  // ---------------------------------------------------------------------
  // Paragraph and sentence packing

  /** The stripped pieces that are not blank, in order. */
  function Kept(pieces: seq<string>): (r: seq<string>)
    ensures forall p :: p in r ==> p != [] && IsStripped(p)
    ensures forall i :: 0 <= i < |pieces| && Strip(pieces[i]) != [] ==> Strip(pieces[i]) in r
    ensures |r| <= |pieces|
  {
    if |pieces| == 0 then []
    else
      var p := Strip(pieces[|pieces| - 1]);
      assert forall i :: 0 <= i < |pieces| - 1 ==> pieces[i] == pieces[..|pieces| - 1][i];
      Kept(pieces[..|pieces| - 1]) + (if p == [] then [] else [p])
  }

  /** The greedy grouping: a piece joins the current group unless the
      group's joined text plus the piece exceeds `chunk_size`. */
  function Groups(kept: seq<string>, sep: string, size: int): seq<seq<string>>
  {
    if |kept| == 0 then []
    else
      var gs := Groups(kept[..|kept| - 1], sep, size);
      var p := kept[|kept| - 1];
      if |gs| == 0 then [[p]]
      else if |Join(gs[|gs| - 1], sep)| + |p| > size then gs + [[p]]
      else gs[..|gs| - 1] + [gs[|gs| - 1] + [p]]
  }

  function Flatten(gs: seq<seq<string>>): seq<string>
  {
    if |gs| == 0 then [] else Flatten(gs[..|gs| - 1]) + gs[|gs| - 1]
  }

  function JoinEach(gs: seq<seq<string>>, sep: string): (r: seq<string>)
    ensures |r| == |gs|
    ensures forall i :: 0 <= i < |gs| ==> r[i] == Join(gs[i], sep)
  {
    if |gs| == 0 then [] else JoinEach(gs[..|gs| - 1], sep) + [Join(gs[|gs| - 1], sep)]
  }

  /** What `chunk_by_paragraphs` and `chunk_by_sentences` return for the split pieces. */
  function Packed(pieces: seq<string>, sep: string, size: int): seq<string>
  {
    JoinEach(Groups(Kept(pieces), sep, size), sep)
  }

  /** The groups are non-empty and hold the kept pieces in order, none lost. */
  lemma GroupsPartition(kept: seq<string>, sep: string, size: int)
    ensures var gs := Groups(kept, sep, size);
      && Flatten(gs) == kept
      && (forall i :: 0 <= i < |gs| ==> gs[i] != [])
      && (kept == [] <==> gs == [])
  {
    GroupsNonEmpty(kept, sep, size);
    GroupsFlatten(kept, sep, size);
  }

  lemma {:induction false} GroupsNonEmpty(kept: seq<string>, sep: string, size: int)
    ensures var gs := Groups(kept, sep, size);
      && (kept == [] <==> gs == [])
      && (forall i :: 0 <= i < |gs| ==> gs[i] != [])
  {
    if |kept| > 0 {
      var k' := kept[..|kept| - 1];
      GroupsNonEmpty(k', sep, size);
      var gs := Groups(k', sep, size);
      var p := kept[|kept| - 1];
      if |gs| > 0 && |Join(gs[|gs| - 1], sep)| + |p| <= size {
        var r := gs[..|gs| - 1] + [gs[|gs| - 1] + [p]];
        forall i | 0 <= i < |r| ensures r[i] != [] {
          if i < |r| - 1 {
            assert r[i] == gs[i];
          }
        }
      } else if |gs| > 0 {
        var r := gs + [[p]];
        forall i | 0 <= i < |r| ensures r[i] != [] {
          if i < |gs| {
            assert r[i] == gs[i];
          }
        }
      }
    }
  }

  lemma {:induction false} GroupsFlatten(kept: seq<string>, sep: string, size: int)
    ensures Flatten(Groups(kept, sep, size)) == kept
  {
    if |kept| > 0 {
      var k' := kept[..|kept| - 1];
      GroupsFlatten(k', sep, size);
      var gs := Groups(k', sep, size);
      var p := kept[|kept| - 1];
      assert kept == k' + [p];
      if |gs| > 0 && |Join(gs[|gs| - 1], sep)| + |p| <= size {
        var r := gs[..|gs| - 1] + [gs[|gs| - 1] + [p]];
        assert r[..|r| - 1] == gs[..|gs| - 1];
        assert Flatten(r) == Flatten(gs[..|gs| - 1]) + (gs[|gs| - 1] + [p]);
      } else if |gs| > 0 {
        assert (gs + [[p]])[..|gs|] == gs;
      }
    }
  }

  /** Within each group every piece after the first fitted: the text joined
      so far plus the piece was within `size`. */
  predicate FitsWithin(gs: seq<seq<string>>, sep: string, size: int) {
    forall i, j :: 0 <= i < |gs| && 1 <= j < |gs[i]| ==> |Join(gs[i][..j], sep)| + |gs[i][j]| <= size
  }

  /** Each group after the first is non-empty and was opened on overflow: the
      previous group's joined text plus its first piece exceeds `size`. */
  predicate BreaksOnOverflow(gs: seq<seq<string>>, sep: string, size: int) {
    forall i :: 1 <= i < |gs| ==> gs[i] != [] && |Join(gs[i - 1], sep)| + |gs[i][0]| > size
  }

  /** Within a group every piece fitted: the text joined so far plus the
      piece was within `chunk_size`. */
  lemma {:induction false} GroupsFit(kept: seq<string>, sep: string, size: int)
    ensures FitsWithin(Groups(kept, sep, size), sep, size)
  {
    if |kept| > 0 {
      var k' := kept[..|kept| - 1];
      GroupsFit(k', sep, size);
      var gs := Groups(k', sep, size);
      var p := kept[|kept| - 1];
      if |gs| > 0 && |Join(gs[|gs| - 1], sep)| + |p| <= size {
        FitsExtendLast(gs, p, sep, size);
      } else if |gs| > 0 {
        FitsNewGroup(gs, p, sep, size);
      }
    }
  }

  lemma FitsExtendLast(gs: seq<seq<string>>, p: string, sep: string, size: int)
    requires FitsWithin(gs, sep, size) && gs != []
    requires |Join(gs[|gs| - 1], sep)| + |p| <= size
    ensures FitsWithin(gs[..|gs| - 1] + [gs[|gs| - 1] + [p]], sep, size)
  {
    var old_last := gs[|gs| - 1];
    var last := old_last + [p];
    var r := gs[..|gs| - 1] + [last];
    forall i, j | 0 <= i < |r| && 1 <= j < |r[i]| ensures |Join(r[i][..j], sep)| + |r[i][j]| <= size {
      if i < |r| - 1 {
        assert r[i] == gs[i];
      } else if j < |last| - 1 {
        assert last[..j] == old_last[..j];
        assert last[j] == old_last[j];
        assert |Join(gs[|gs| - 1][..j], sep)| + |gs[|gs| - 1][j]| <= size;
      } else {
        assert last[..j] == old_last;
      }
    }
  }

  lemma FitsNewGroup(gs: seq<seq<string>>, p: string, sep: string, size: int)
    requires FitsWithin(gs, sep, size)
    ensures FitsWithin(gs + [[p]], sep, size)
  {
    var r := gs + [[p]];
    forall i, j | 0 <= i < |r| && 1 <= j < |r[i]| ensures |Join(r[i][..j], sep)| + |r[i][j]| <= size {
      assert i < |gs|;
      assert r[i] == gs[i];
    }
  }

  /** A new group starts only on overflow: the previous group's joined text
      plus the first piece of the next exceeds `chunk_size`. */
  lemma {:induction false} GroupsBreak(kept: seq<string>, sep: string, size: int)
    ensures BreaksOnOverflow(Groups(kept, sep, size), sep, size)
  {
    if |kept| > 0 {
      var k' := kept[..|kept| - 1];
      GroupsBreak(k', sep, size);
      GroupsNonEmpty(k', sep, size);
      var gs := Groups(k', sep, size);
      var p := kept[|kept| - 1];
      if |gs| > 0 && |Join(gs[|gs| - 1], sep)| + |p| <= size {
        BreaksExtendLast(gs, p, sep, size);
      } else if |gs| > 0 {
        BreaksNewGroup(gs, p, sep, size);
      }
    }
  }

  lemma BreaksExtendLast(gs: seq<seq<string>>, p: string, sep: string, size: int)
    requires BreaksOnOverflow(gs, sep, size) && gs != [] && gs[|gs| - 1] != []
    ensures BreaksOnOverflow(gs[..|gs| - 1] + [gs[|gs| - 1] + [p]], sep, size)
  {
    var r := gs[..|gs| - 1] + [gs[|gs| - 1] + [p]];
    forall i | 1 <= i < |r| ensures r[i] != [] && |Join(r[i - 1], sep)| + |r[i][0]| > size {
      assert r[i - 1] == gs[i - 1];
      if i == |r| - 1 {
        assert r[i][0] == gs[i][0];
      } else {
        assert r[i] == gs[i];
      }
    }
  }

  lemma BreaksNewGroup(gs: seq<seq<string>>, p: string, sep: string, size: int)
    requires BreaksOnOverflow(gs, sep, size) && gs != []
    requires |Join(gs[|gs| - 1], sep)| + |p| > size
    ensures BreaksOnOverflow(gs + [[p]], sep, size)
  {
    var r := gs + [[p]];
    forall i | 1 <= i < |r| ensures r[i] != [] && |Join(r[i - 1], sep)| + |r[i][0]| > size {
      assert r[i - 1] == gs[i - 1];
      if i < |gs| {
        assert r[i] == gs[i];
      }
    }
  }

  /** The first and last characters of a join of non-empty parts are those of
      its first and last parts. */
  lemma {:induction false} JoinEnds(parts: seq<string>, sep: string)
    requires parts != [] && forall i :: 0 <= i < |parts| ==> parts[i] != []
    ensures var j := Join(parts, sep);
      j != [] && j[0] == parts[0][0] && j[|j| - 1] == parts[|parts| - 1][|parts[|parts| - 1]| - 1]
  {
    if |parts| > 1 {
      var p' := parts[..|parts| - 1];
      JoinEnds(p', sep);
    }
  }

  /** Joining stripped, non-empty pieces gives a stripped, non-empty text. */
  lemma JoinStripped(parts: seq<string>, sep: string)
    requires parts != [] && forall p :: p in parts ==> p != [] && IsStripped(p)
    ensures Join(parts, sep) != [] && IsStripped(Join(parts, sep))
  {
    assert forall i :: 0 <= i < |parts| ==> parts[i] in parts;
    JoinEnds(parts, sep);
    assert parts[|parts| - 1] in parts;
  }

  /** Every packed chunk is non-empty and stripped, and is either a single
      piece or within `chunk_size` plus one separator. */
  lemma PackedChunks(pieces: seq<string>, sep: string, size: int)
    ensures var gs := Groups(Kept(pieces), sep, size);
      forall i :: 0 <= i < |gs| ==>
        && Packed(pieces, sep, size)[i] != []
        && IsStripped(Packed(pieces, sep, size)[i])
        && (|gs[i]| == 1 || |Packed(pieces, sep, size)[i]| <= size + |sep|)
  {
    var kept := Kept(pieces);
    var gs := Groups(kept, sep, size);
    GroupsPartition(kept, sep, size);
    GroupsFit(kept, sep, size);
    forall i | 0 <= i < |gs|
      ensures Packed(pieces, sep, size)[i] != [] && IsStripped(Packed(pieces, sep, size)[i])
      ensures |gs[i]| == 1 || |Packed(pieces, sep, size)[i]| <= size + |sep|
    {
      FlattenMember(gs, i);
      JoinStripped(gs[i], sep);
      var g := gs[i];
      if |g| > 1 {
        assert g[..|g| - 1 + 1] == g;
      }
    }
  }

  lemma {:induction false} FlattenMember(gs: seq<seq<string>>, i: nat)
    requires i < |gs|
    ensures forall p :: p in gs[i] ==> p in Flatten(gs)
  {
    if i < |gs| - 1 {
      FlattenMember(gs[..|gs| - 1], i);
    }
  }

  /** Joining the chunks with the separator gives the kept pieces joined with
      it: packing neither drops nor reorders anything. */
  lemma {:induction false} PackedJoin(pieces: seq<string>, sep: string, size: int)
    requires Kept(pieces) != []
    ensures Join(Packed(pieces, sep, size), sep) == Join(Kept(pieces), sep)
  {
    var gs := Groups(Kept(pieces), sep, size);
    GroupsPartition(Kept(pieces), sep, size);
    JoinFlatten(gs, sep);
  }

  lemma {:induction false} JoinFlatten(gs: seq<seq<string>>, sep: string)
    requires gs != [] && forall i :: 0 <= i < |gs| ==> gs[i] != []
    ensures Join(JoinEach(gs, sep), sep) == Join(Flatten(gs), sep)
  {
    if |gs| > 1 {
      var gs' := gs[..|gs| - 1];
      JoinFlatten(gs', sep);
      FlattenNonEmpty(gs');
      JoinAppend(Flatten(gs'), gs[|gs| - 1], sep);
      assert JoinEach(gs, sep)[..|gs| - 1] == JoinEach(gs', sep);
    } else {
      assert Flatten(gs) == gs[0];
      assert JoinEach(gs, sep) == [Join(gs[0], sep)];
    }
  }

  lemma {:induction false} FlattenNonEmpty(gs: seq<seq<string>>)
    requires gs != [] && gs[0] != []
    ensures Flatten(gs) != []
  {
    if |gs| > 1 {
      FlattenNonEmpty(gs[..|gs| - 1]);
    }
  }

  /** The chunks of a strategy: `paragraphs` and `sentences` pack their
      split pieces, any other name slides the token window. */
  function StrategyChunks(text: string, strategy: string, size: int, overlap: int): seq<string>
  {
    if strategy == "paragraphs" then Packed(ParagraphSplit(text), "\n\n", size)
    else if strategy == "sentences" then Packed(SentenceSplit(text), " ", size)
    else TokenChunks(text, size, overlap)
  }

  /** One entry of `chunk_document`'s result. */
  datatype ChunkRecord = ChunkRecord(text: string, chunkId: nat, chunkCount: nat, metadata: Metadata)

  class DocumentChunker {
    const chunkSize: int
    const chunkOverlap: int

    constructor (chunkSize: int, chunkOverlap: int)
      ensures this.chunkSize == chunkSize && this.chunkOverlap == chunkOverlap
    {
      this.chunkSize := chunkSize;
      this.chunkOverlap := chunkOverlap;
    }

    /** The sliding window over characters. */
    method ChunkByTokens(text: string) returns (chunks: seq<string>)
      ensures chunks == TokenChunks(text, chunkSize, chunkOverlap)
      ensures text == [] ==> chunks == []
    {
      if |text| == 0 {
        return [];
      }
      chunks := [];
      var start: nat := 0;
      while start < |text|
        invariant chunks + WindowChunks(text, Windows(text, chunkSize, chunkOverlap, start))
          == TokenChunks(text, chunkSize, chunkOverlap)
        decreases |text| - start
      {
        var end := WindowEnd(text, chunkSize, start);
        var chunk := Strip(PySlice(text, start, end));
        WindowChunksStep(text, chunkSize, chunkOverlap, start, chunks);
        if chunk != [] {
          chunks := chunks + [chunk];
        }
        var next := end - chunkOverlap;
        if next <= start {
          next := start + 1;
        }
        assert next == NextStart(text, chunkSize, chunkOverlap, start);
        start := next;
      }
    }

    /** The accumulator loop shared by the paragraph and sentence strategies. */
    method PackPieces(pieces: seq<string>, sep: string) returns (chunks: seq<string>)
      ensures chunks == Packed(pieces, sep, chunkSize)
    {
      chunks := [];
      var current := "";
      for i := 0 to |pieces|
        invariant PackState(Kept(pieces[..i]), sep, chunkSize, chunks, current)
      {
        ghost var kept := Kept(pieces[..i]);
        var piece := Strip(pieces[i]);
        KeptStep(pieces, i);
        if piece == [] {
          continue;
        }
        PackStep(kept, sep, chunkSize, chunks, current, piece);
        if |current| + |piece| > chunkSize && current != [] {
          chunks := chunks + [Strip(current)];
          current := piece;
        } else {
          current := if current != [] then current + sep + piece else piece;
        }
        assert PackState(kept + [piece], sep, chunkSize, chunks, current);
      }
      assert pieces[..|pieces|] == pieces;
      PackFinish(Kept(pieces), sep, chunkSize, chunks, current);
      if current != [] {
        chunks := chunks + [Strip(current)];
      }
    }

    method ChunkByParagraphs(text: string) returns (chunks: seq<string>)
      ensures chunks == Packed(ParagraphSplit(text), "\n\n", chunkSize)
    {
      var paragraphs := ParagraphSplit(text);
      chunks := PackPieces(paragraphs, "\n\n");
    }

    method ChunkBySentences(text: string) returns (chunks: seq<string>)
      ensures chunks == Packed(SentenceSplit(text), " ", chunkSize)
    {
      var sentences := SentenceSplit(text);
      chunks := PackPieces(sentences, " ");
    }

    /** Chunks `text` with the named strategy and numbers the chunks. */
    method ChunkDocument(text: string, strategy: string, metadata: Option<Metadata>) returns (result: seq<ChunkRecord>)
      ensures var chunks := StrategyChunks(text, strategy, chunkSize, chunkOverlap);
        && |result| == |chunks|
        && forall i :: 0 <= i < |result| ==>
             result[i] == ChunkRecord(chunks[i], i, |chunks|, MetadataOrEmpty(metadata))
    {
      var chunks;
      if strategy == "paragraphs" {
        chunks := ChunkByParagraphs(text);
      } else if strategy == "sentences" {
        chunks := ChunkBySentences(text);
      } else {
        chunks := ChunkByTokens(text);
      }
      result := NumberChunks(chunks, MetadataOrEmpty(metadata));
    }
  }

  /** The record loop of `chunk_document`: each chunk with its position, the
      chunk count and the shared metadata. */
  method NumberChunks(chunks: seq<string>, metadata: Metadata) returns (result: seq<ChunkRecord>)
    ensures |result| == |chunks|
    ensures forall i :: 0 <= i < |result| ==> result[i] == ChunkRecord(chunks[i], i, |chunks|, metadata)
  {
    result := [];
    for i := 0 to |chunks|
      invariant |result| == i
      invariant forall k :: 0 <= k < i ==> result[k] == ChunkRecord(chunks[k], k, |chunks|, metadata)
    {
      result := result + [ChunkRecord(chunks[i], i, |chunks|, metadata)];
    }
  }

  /** The last group joins into a non-empty, stripped text. */
  lemma LastGroupStripped(kept: seq<string>, sep: string, size: int)
    requires forall p :: p in kept ==> p != [] && IsStripped(p)
    requires Groups(kept, sep, size) != []
    ensures var gs := Groups(kept, sep, size);
      Join(gs[|gs| - 1], sep) != [] && IsStripped(Join(gs[|gs| - 1], sep))
  {
    var gs := Groups(kept, sep, size);
    GroupsPartition(kept, sep, size);
    FlattenMember(gs, |gs| - 1);
    JoinStripped(gs[|gs| - 1], sep);
  }

  lemma KeptStep(pieces: seq<string>, i: nat)
    requires i < |pieces|
    ensures Strip(pieces[i]) == [] ==> Kept(pieces[..i + 1]) == Kept(pieces[..i])
    ensures Strip(pieces[i]) != [] ==> Kept(pieces[..i + 1]) == Kept(pieces[..i]) + [Strip(pieces[i])]
  {
    assert pieces[..i + 1][..i] == pieces[..i];
    assert Kept(pieces[..i]) + [] == Kept(pieces[..i]);
  }

  /** State of the accumulator loop that packs pieces, after the pieces `kept`: the
      chunks emitted so far are the joined groups but the last, and the
      current chunk is the joined last group (empty before the first piece). */
  ghost predicate PackState(kept: seq<string>, sep: string, size: int, chunks: seq<string>, current: string) {
    var gs := Groups(kept, sep, size);
    && (gs == [] ==> chunks == [] && current == [])
    && (gs != [] ==> chunks == JoinEach(gs[..|gs| - 1], sep) && current == Join(gs[|gs| - 1], sep))
  }

  /** One non-blank piece: the loop either emits the current chunk and starts
      afresh with the piece, or appends the piece to it, and either way keeps
      the accumulator state. */
  lemma PackStep(kept: seq<string>, sep: string, size: int, chunks: seq<string>, current: string, p: string)
    requires forall q :: q in kept ==> q != [] && IsStripped(q)
    requires PackState(kept, sep, size, chunks, current)
    ensures |current| + |p| > size && current != [] ==>
      PackState(kept + [p], sep, size, chunks + [Strip(current)], p)
    ensures !(|current| + |p| > size && current != []) ==>
      PackState(kept + [p], sep, size, chunks, if current != [] then current + sep + p else p)
  {
    var gs := Groups(kept, sep, size);
    var k := kept + [p];
    assert k[..|k| - 1] == kept;
    if gs != [] {
      LastGroupStripped(kept, sep, size);
      StripStripped(current);
      assert JoinEach(gs, sep) == JoinEach(gs[..|gs| - 1], sep) + [current];
      var g := gs[|gs| - 1] + [p];
      assert g[..|g| - 1] == gs[|gs| - 1];
      assert (gs + [[p]])[..|gs|] == gs;
    }
  }

  /** After the last piece the pending current chunk, if any, is the last one. */
  lemma PackFinish(kept: seq<string>, sep: string, size: int, chunks: seq<string>, current: string)
    requires forall q :: q in kept ==> q != [] && IsStripped(q)
    requires PackState(kept, sep, size, chunks, current)
    ensures current != [] ==> chunks + [Strip(current)] == JoinEach(Groups(kept, sep, size), sep)
    ensures current == [] ==> chunks == JoinEach(Groups(kept, sep, size), sep)
  {
    var gs := Groups(kept, sep, size);
    if gs != [] {
      LastGroupStripped(kept, sep, size);
      StripStripped(current);
      assert JoinEach(gs, sep) == JoinEach(gs[..|gs| - 1], sep) + [current];
    }
  }

  /** One window of the walk: the chunks found so far followed by those of
      the walk from `start` are the chunks found so far with the stripped
      first window added, when not blank, followed by those of the walk from
      the next start. */
  lemma WindowChunksStep(text: string, size: int, overlap: int, start: nat, done: seq<string>)
    requires start < |text|
    ensures var c := Strip(PySlice(text, start, WindowEnd(text, size, start)));
      done + WindowChunks(text, Windows(text, size, overlap, start))
      == (if c == [] then done else done + [c]) + WindowChunks(text, Windows(text, size, overlap, NextStart(text, size, overlap, start)))
  {
    var w := Windows(text, size, overlap, start);
    var rest := Windows(text, size, overlap, NextStart(text, size, overlap, start));
    assert w == [(start, WindowEnd(text, size, start))] + rest;
    assert w[1..] == rest;
    var c := Strip(PySlice(text, start, WindowEnd(text, size, start)));
    var after := WindowChunks(text, rest);
    if c != [] {
      assert done + ([c] + after) == (done + [c]) + after;
    } else {
      assert [] + after == after;
    }
  }
}
