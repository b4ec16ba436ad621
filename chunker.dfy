/**
 * The sliding-window chunker (construct_ai.py, chunk_text): windows of
 * `size` characters, each next window starting `overlap` characters before
 * the previous one ended, the last window cut at the end of the text.
 */
module Chunker {

  /** A half-open window [lo, hi) over the text. */
  datatype Span = Span(lo: nat, hi: nat)

  /** Python's `s[k:]` for k >= 0: empty when k is past the end. */
  function Drop(s: string, k: nat): (r: string)
    ensures |r| == if k <= |s| then |s| - k else 0
  {
    if k <= |s| then s[k..] else ""
  }

  function Concat(ss: seq<string>): (r: string)
  {
    if ss == [] then "" else ss[0] + Concat(ss[1..])
  }

  /** The windows the loop emits once it has reached `start`. */
  function WindowsFrom(n: nat, size: nat, overlap: nat, start: nat): (r: seq<Span>)
    requires overlap < size && start < n
    decreases n - start
  {
    if start + size >= n then [Span(start, n)]
    else [Span(start, start + size)] + WindowsFrom(n, size, overlap, start + size - overlap)
  }

  /** Requirement of chunk_text for termination: the text fits, or the
      window advances. */
  predicate Advances(n: nat, size: int, overlap: int)
  {
    size >= n || 0 <= overlap < size
  }

  /** The spans of chunk_text(text, size, overlap) for a text of length n. */
  function ChunkSpans(n: nat, size: int, overlap: int): (r: seq<Span>)
    requires Advances(n, size, overlap)
  {
    if size >= n then [Span(0, n)] else WindowsFrom(n, size as nat, overlap as nat, 0)
  }

  predicate SpansIn(spans: seq<Span>, n: nat)
  {
    forall i :: 0 <= i < |spans| ==> spans[i].lo <= spans[i].hi <= n
  }

  function Slices(text: string, spans: seq<Span>): (r: seq<string>)
    requires SpansIn(spans, |text|)
    ensures |r| == |spans|
  {
    if spans == [] then [] else [text[spans[0].lo..spans[0].hi]] + Slices(text, spans[1..])
  }

  /** Each chunk is the text between its span's bounds. */
  lemma {:induction false} SlicesAt(text: string, spans: seq<Span>, i: nat)
    requires SpansIn(spans, |text|) && i < |spans|
    ensures Slices(text, spans)[i] == text[spans[i].lo..spans[i].hi]
  {
    if i > 0 {
      assert SpansIn(spans[1..], |text|) by {
        forall j | 0 <= j < |spans[1..]| ensures spans[1..][j] == spans[j + 1] { }
      }
      SlicesAt(text, spans[1..], i - 1);
    }
  }

  /** Shape of the windows: in bounds, each full-size but the last, the last
      ending at n, consecutive windows overlapping by exactly `overlap`. */
  ghost predicate WindowShape(spans: seq<Span>, n: nat, size: nat, overlap: nat, start: nat)
  {
    && |spans| >= 1
    && spans[0].lo == start
    && spans[|spans| - 1].hi == n
    && SpansIn(spans, n)
    && (forall i :: 0 <= i < |spans| ==> spans[i].lo < spans[i].hi && spans[i].hi - spans[i].lo <= size)
    && (forall i :: 0 <= i < |spans| - 1 ==> spans[i].hi - spans[i].lo == size)
    && (forall i :: 0 <= i < |spans| - 1 ==> spans[i + 1].lo + overlap == spans[i].hi)
  }

  /** One step of the window recursion, with the tail named. */
  lemma WindowsFromUnfold(n: nat, size: nat, overlap: nat, start: nat)
    requires overlap < size && start < n && start + size < n
    ensures WindowsFrom(n, size, overlap, start)
            == [Span(start, start + size)] + WindowsFrom(n, size, overlap, start + size - overlap)
  {
  }

  lemma {:induction false} WindowsFromEnds(n: nat, size: nat, overlap: nat, start: nat)
    requires overlap < size && start < n
    ensures var w := WindowsFrom(n, size, overlap, start);
      |w| >= 1 && w[0].lo == start && w[|w| - 1].hi == n
    decreases n - start
  {
    if start + size < n {
      WindowsFromEnds(n, size, overlap, start + size - overlap);
    }
  }

  lemma {:induction false} WindowsFromBounds(n: nat, size: nat, overlap: nat, start: nat)
    requires overlap < size && start < n
    ensures var w := WindowsFrom(n, size, overlap, start);
      forall i :: 0 <= i < |w| ==> start <= w[i].lo < w[i].hi <= n && w[i].hi - w[i].lo <= size
    ensures SpansIn(WindowsFrom(n, size, overlap, start), n)
    decreases n - start
  {
    if start + size < n {
      var next := start + size - overlap;
      WindowsFromBounds(n, size, overlap, next);
      WindowsFromUnfold(n, size, overlap, start);
    }
  }

  lemma {:induction false} WindowsFromFull(n: nat, size: nat, overlap: nat, start: nat)
    requires overlap < size && start < n
    ensures var w := WindowsFrom(n, size, overlap, start);
      forall i :: 0 <= i < |w| - 1 ==> w[i].hi - w[i].lo == size
    decreases n - start
  {
    if start + size < n {
      var next := start + size - overlap;
      WindowsFromFull(n, size, overlap, next);
      WindowsFromUnfold(n, size, overlap, start);
    }
  }

  lemma {:induction false} WindowsFromOverlap(n: nat, size: nat, overlap: nat, start: nat)
    requires overlap < size && start < n
    ensures var w := WindowsFrom(n, size, overlap, start);
      forall i :: 0 <= i < |w| - 1 ==> w[i + 1].lo + overlap == w[i].hi
    decreases n - start
  {
    if start + size < n {
      var next := start + size - overlap;
      WindowsFromOverlap(n, size, overlap, next);
      WindowsFromEnds(n, size, overlap, next);
      WindowsFromUnfold(n, size, overlap, start);
      var w := WindowsFrom(n, size, overlap, start);
      var rest := WindowsFrom(n, size, overlap, next);
      forall i | 0 <= i < |w| - 1
        ensures w[i + 1].lo + overlap == w[i].hi
      {
        if i > 0 { assert w[i] == rest[i - 1] && w[i + 1] == rest[i]; }
      }
    }
  }

  lemma WindowsFromShape(n: nat, size: nat, overlap: nat, start: nat)
    requires overlap < size && start < n
    ensures WindowShape(WindowsFrom(n, size, overlap, start), n, size, overlap, start)
  {
    WindowsFromEnds(n, size, overlap, start);
    WindowsFromBounds(n, size, overlap, start);
    WindowsFromFull(n, size, overlap, start);
    WindowsFromOverlap(n, size, overlap, start);
  }

  /** The shape properties of chunk_text's spans. */
  lemma ChunkSpansShape(n: nat, size: int, overlap: int)
    requires Advances(n, size, overlap)
    ensures var spans := ChunkSpans(n, size, overlap);
      && |spans| >= 1
      && spans[0].lo == 0
      && spans[|spans| - 1].hi == n
      && SpansIn(spans, n)
      && (forall i :: 0 <= i < |spans| ==> spans[i].hi - spans[i].lo <= size)
      && (forall i :: 0 <= i < |spans| - 1 ==> spans[i].hi - spans[i].lo == size)
      && (forall i :: 0 <= i < |spans| - 1 ==> spans[i + 1].lo == spans[i].hi - overlap)
  {
    if size < n {
      WindowsFromShape(n, size as nat, overlap as nat, 0);
    }
  }

  /** The spans lie inside the text. */
  lemma ChunkSpansIn(n: nat, size: int, overlap: int)
    requires Advances(n, size, overlap)
    ensures SpansIn(ChunkSpans(n, size, overlap), n)
  {
    if size < n {
      WindowsFromBounds(n, size as nat, overlap as nat, 0);
    }
  }

  /** One chunk exactly when the whole text fits. */
  lemma ChunkSpansSingle(n: nat, size: int, overlap: int)
    requires Advances(n, size, overlap)
    ensures |ChunkSpans(n, size, overlap)| == 1 <==> size >= n
  {
    if size < n {
      var s := size as nat;
      assert 0 + s < n;
      assert ChunkSpans(n, size, overlap) == [Span(0, s)] + WindowsFrom(n, s, overlap as nat, s - overlap as nat);
    }
  }

  /** Number of windows from `start`, given that the previous window (or the
      origin) leaves more than `overlap` characters. */
  lemma {:induction false} WindowsFromCount(n: nat, size: nat, overlap: nat, start: nat)
    requires overlap < size && start < n && n - start > overlap
    ensures |WindowsFrom(n, size, overlap, start)| == CeilDiv(n - start - overlap, size - overlap)
    decreases n - start
  {
    if start + size < n {
      WindowsFromCount(n, size, overlap, start + size - overlap);
    }
  }

  /** The number of steps of `d` needed to cover `x`. */
  function CeilDiv(x: int, d: nat): nat
    requires d > 0
    decreases x
  {
    if x <= 0 then 0 else 1 + CeilDiv(x - d, d)
  }

  /** CeilDiv is the ceiling of x / d: the least multiple of d not below x. */
  lemma {:induction false} CeilDivIsCeiling(x: nat, d: nat)
    requires d > 0
    ensures x <= CeilDiv(x, d) * d < x + d
    decreases x
  {
    var c := CeilDiv(x, d);
    if x > 0 {
      if x <= d {
        assert CeilDiv(x - d, d) == 0;
        assert c == 1;
      } else {
        CeilDivIsCeiling(x - d, d);
        assert c * d == CeilDiv(x - d, d) * d + d;
      }
    }
  }

  /** For a text longer than the window: ceil((n - overlap) / (size - overlap)) chunks. */
  lemma ChunkSpansCount(n: nat, size: int, overlap: int)
    requires 0 <= overlap < size < n
    ensures |ChunkSpans(n, size, overlap)| == CeilDiv(n - overlap, size - overlap)
  {
    WindowsFromCount(n, size as nat, overlap as nat, 0);
  }

  /** 50000 characters in 40000-character windows overlapping by 4000: two
      spans, the second starting 4000 before the first ends. */
  lemma ChunkSpansExample()
    ensures ChunkSpans(50000, 40000, 4000) == [Span(0, 40000), Span(36000, 50000)]
  {
    assert WindowsFrom(50000, 40000, 4000, 36000) == [Span(36000, 50000)];
  }

  /** The text a list of chunks stands for: the first chunk, then every later
      chunk without its first `overlap` characters. */
  function Stitch(chunks: seq<string>, overlap: nat): string
  {
    if chunks == [] then "" else chunks[0] + Concat(DropEach(chunks[1..], overlap))
  }

  function DropEach(chunks: seq<string>, k: nat): (r: seq<string>)
    ensures |r| == |chunks|
    ensures forall i :: 0 <= i < |r| ==> r[i] == Drop(chunks[i], k)
  {
    if chunks == [] then [] else [Drop(chunks[0], k)] + DropEach(chunks[1..], k)
  }

  lemma SlicesCons(text: string, s: Span, rest: seq<Span>)
    requires s.lo <= s.hi <= |text| && SpansIn(rest, |text|)
    ensures SpansIn([s] + rest, |text|)
    ensures Slices(text, [s] + rest) == [text[s.lo..s.hi]] + Slices(text, rest)
  {
    assert ([s] + rest)[1..] == rest;
  }

  lemma DropEachConcatCons(head: string, rest: seq<string>, k: nat)
    ensures Concat(DropEach([head] + rest, k)) == Drop(head, k) + Concat(DropEach(rest, k))
  {
    assert ([head] + rest)[1..] == rest;
    var d := DropEach([head] + rest, k);
    assert d == [Drop(head, k)] + DropEach(rest, k);
    assert d[1..] == DropEach(rest, k);
  }

  /** One window in front of chunks that spell out the text from its end:
      with the overlap removed, together they spell out the text from the
      window's start plus the overlap. */
  lemma CoverStep(text: string, lo: nat, hi: nat, overlap: nat, later: seq<string>)
    requires lo + overlap <= hi <= |text|
    requires Concat(DropEach(later, overlap)) == text[hi..]
    ensures Concat(DropEach([text[lo..hi]] + later, overlap)) == text[lo + overlap..]
  {
    var piece := text[lo..hi];
    DropEachConcatCons(piece, later, overlap);
    assert Drop(piece, overlap) == text[lo + overlap..hi];
    assert text[lo + overlap..] == text[lo + overlap..hi] + text[hi..];
  }

  /** The later windows, overlap removed, spell out the text from the end of
      the window before `start`. */
  lemma {:induction false} WindowsRestCover(text: string, size: nat, overlap: nat, start: nat)
    requires overlap < size && start < |text| && |text| - start > overlap
    ensures SpansIn(WindowsFrom(|text|, size, overlap, start), |text|)
    ensures Concat(DropEach(Slices(text, WindowsFrom(|text|, size, overlap, start)), overlap))
            == text[start + overlap..]
    decreases |text| - start
  {
    var n := |text|;
    WindowsFromBounds(n, size, overlap, start);
    if start + size >= n {
      assert WindowsFrom(n, size, overlap, start) == [Span(start, n)];
      SlicesCons(text, Span(start, n), []);
      assert Concat(DropEach([], overlap)) == "" == text[n..];
      CoverStep(text, start, n, overlap, []);
      assert [text[start..n]] + [] == [text[start..n]];
    } else {
      var next := start + size - overlap;
      WindowsRestCover(text, size, overlap, next);
      var rest := WindowsFrom(n, size, overlap, next);
      WindowsFromUnfold(n, size, overlap, start);
      SlicesCons(text, Span(start, start + size), rest);
      CoverStep(text, start, start + size, overlap, Slices(text, rest));
    }
  }

  /** Reconstruction: stitching the chunks back together gives the text. */
  lemma ChunksReconstruct(text: string, size: int, overlap: int)
    requires Advances(|text|, size, overlap) && overlap >= 0
    ensures SpansIn(ChunkSpans(|text|, size, overlap), |text|)
    ensures Stitch(Slices(text, ChunkSpans(|text|, size, overlap)), overlap as nat) == text
  {
    var n := |text|;
    ChunkSpansIn(n, size, overlap);
    if size >= n {
      assert ChunkSpans(n, size, overlap) == [Span(0, n)];
      SlicesCons(text, Span(0, n), []);
      assert [Span(0, n)] + [] == [Span(0, n)];
      assert text[0..n] == text;
      StitchOne(text, overlap as nat);
    } else {
      assert ChunkSpans(n, size, overlap) == WindowsFrom(n, size as nat, overlap as nat, 0);
      WindowsReconstruct(text, size as nat, overlap as nat);
    }
  }

  lemma StitchOne(chunk: string, overlap: nat)
    ensures Stitch([chunk], overlap) == chunk
  {
    assert [chunk][1..] == [];
    assert DropEach([], overlap) == [];
    assert Stitch([chunk], overlap) == chunk + Concat([]);
  }

  lemma WindowsReconstruct(text: string, s: nat, o: nat)
    requires o < s < |text|
    ensures SpansIn(WindowsFrom(|text|, s, o, 0), |text|)
    ensures Stitch(Slices(text, WindowsFrom(|text|, s, o, 0)), o) == text
  {
    var n := |text|;
    var rest := WindowsFrom(n, s, o, s - o);
    WindowsFromUnfold(n, s, o, 0);
    WindowsRestCover(text, s, o, s - o);
    assert s - o + o == s;
    SlicesCons(text, Span(0, s), rest);
    var chunks := Slices(text, WindowsFrom(n, s, o, 0));
    assert chunks == [text[0..s]] + Slices(text, rest);
    assert chunks[0] == text[0..s];
    assert chunks[1..] == Slices(text, rest);
    assert Concat(DropEach(chunks[1..], o)) == text[s..];
    assert text == text[0..s] + text[s..];
  }

  /** The chunks from `start`: the window there, then the chunks from the
      next start, or the rest of the text when the window reaches the end. */
  lemma SlicesFromUnfold(text: string, s: nat, o: nat, start: nat)
    requires o < s && start < |text|
    ensures SpansIn(WindowsFrom(|text|, s, o, start), |text|)
    ensures start + s >= |text| ==> Slices(text, WindowsFrom(|text|, s, o, start)) == [text[start..]]
    ensures start + s < |text| ==>
      && SpansIn(WindowsFrom(|text|, s, o, start + s - o), |text|)
      && Slices(text, WindowsFrom(|text|, s, o, start))
         == [text[start..start + s]] + Slices(text, WindowsFrom(|text|, s, o, start + s - o))
  {
    var n := |text|;
    WindowsFromBounds(n, s, o, start);
    if start + s >= n {
      assert WindowsFrom(n, s, o, start) == [Span(start, n)];
      SlicesCons(text, Span(start, n), []);
      assert [Span(start, n)] + [] == [Span(start, n)];
      assert text[start..n] == text[start..];
    } else {
      WindowsFromUnfold(n, s, o, start);
      WindowsFromBounds(n, s, o, start + s - o);
      SlicesCons(text, Span(start, start + s), WindowsFrom(n, s, o, start + s - o));
    }
  }

  /**
   * chunk_text: the loop appends `text[start:end]` and moves `start` to
   * `end - overlap` until a window reaches the end of the text.
   */
  method ChunkText(text: string, size: int, overlap: int) returns (chunks: seq<string>)
    requires Advances(|text|, size, overlap)
    ensures SpansIn(ChunkSpans(|text|, size, overlap), |text|)
    ensures chunks == Slices(text, ChunkSpans(|text|, size, overlap))
  {
    if size >= |text| {
      SlicesCons(text, Span(0, |text|), []);
      assert text[0..|text|] == text;
      return [text];
    }
    var n, s, o := |text|, size as nat, overlap as nat;
    WindowsFromBounds(n, s, o, 0);
    ghost var all := Slices(text, WindowsFrom(n, s, o, 0));
    chunks := [];
    var start: nat := 0;
    while start < n
      invariant start < n
      invariant SpansIn(WindowsFrom(n, s, o, start), n)
      invariant chunks + Slices(text, WindowsFrom(n, s, o, start)) == all
      decreases n - start
    {
      var end := start + s;
      if end > n {
        end := n;
      }
      ghost var before := chunks;
      SlicesFromUnfold(text, s, o, start);
      chunks := chunks + [text[start..end]];
      if end >= n {
        assert text[start..end] == text[start..];
        break;
      }
      var next := end - o;
      ghost var later := Slices(text, WindowsFrom(n, s, o, next));
      assert before + ([text[start..end]] + later) == chunks + later;
      start := next;
    }
  }
}
