/**
 * The post-processing pass over the summaries directory (construct_ai.py,
 * clean_ai_summaries): every `.txt` summary loses the characters outside
 * letters, digits, `.,!?` and whitespace, and is rewritten only when that
 * changed it.
 */
module Cleanup {
  import opened Text

  /** The characters the pattern `[^a-zA-Z0-9.,!?\s]` leaves in place. */
  predicate IsAllowed(ch: char)
  {
    || ('a' <= ch <= 'z') || ('A' <= ch <= 'Z') || ('0' <= ch <= '9')
    || ch == '.' || ch == ',' || ch == '!' || ch == '?'
    || IsWhitespace(ch)
  }

  predicate AllAllowed(s: string)
  {
    forall i :: 0 <= i < |s| ==> IsAllowed(s[i])
  }

  /** The substitution of every disallowed character by nothing. */
  function Clean(s: string): (r: string)
    ensures |r| <= |s|
    ensures AllAllowed(r)
  {
    if s == [] then []
    else (if IsAllowed(s[0]) then [s[0]] else []) + Clean(s[1..])
  }

  /** The positions of `s` from `j` on that hold allowed characters, ascending. */
  function KeptFrom(s: string, j: nat): seq<nat>
    requires j <= |s|
    decreases |s| - j
  {
    if j == |s| then [] else (if IsAllowed(s[j]) then [j] else []) + KeptFrom(s, j + 1)
  }

  /** The filter distributes over concatenation, so it acts character by
      character and keeps the order of what it keeps. */
  lemma {:induction false} CleanAppend(a: string, b: string)
    ensures Clean(a + b) == Clean(a) + Clean(b)
  {
    if a == [] {
      assert a + b == b;
    } else {
      var h := if IsAllowed(a[0]) then [a[0]] else [];
      assert (a + b)[0] == a[0] && (a + b)[1..] == a[1..] + b;
      CleanAppend(a[1..], b);
      assert Clean(a + b) == h + (Clean(a[1..]) + Clean(b));
    }
  }

  lemma CleanOne(ch: char)
    ensures Clean([ch]) == if IsAllowed(ch) then [ch] else []
  {
    assert [ch][1..] == [];
  }

  lemma {:induction false} KeptFromShape(s: string, j: nat)
    requires j <= |s|
    ensures var kept := KeptFrom(s, j);
      && (forall k :: 0 <= k < |kept| ==> j <= kept[k] < |s|)
      && (forall k, l :: 0 <= k < l < |kept| ==> kept[k] < kept[l])
      && (forall i :: j <= i < |s| ==> (IsAllowed(s[i]) <==> i in kept))
      && |kept| == |Clean(s[j..])|
      && (forall k :: 0 <= k < |kept| ==> Clean(s[j..])[k] == s[kept[k]])
    decreases |s| - j
  {
    if j < |s| {
      KeptFromShape(s, j + 1);
      assert s[j..][1..] == s[j + 1..];
      assert s[j..][0] == s[j];
    }
  }

  /** The output is exactly the allowed characters of the input, in their
      order: position k of the output is the k-th allowed position of the
      input, and the allowed positions are listed without omission. */
  lemma CleanIsAllowedSubsequence(s: string)
    ensures var kept := KeptFrom(s, 0);
      && (forall k, l :: 0 <= k < l < |kept| ==> kept[k] < kept[l])
      && (forall i :: 0 <= i < |s| ==> (IsAllowed(s[i]) <==> i in kept))
      && |Clean(s)| == |kept|
      && (forall k :: 0 <= k < |kept| ==> 0 <= kept[k] < |s| && Clean(s)[k] == s[kept[k]])
  {
    KeptFromShape(s, 0);
    assert s[0..] == s;
  }

  /** Every allowed character keeps all its occurrences and every disallowed
      one loses them all. */
  lemma {:induction false} CleanCounts(s: string)
    ensures forall ch :: multiset(Clean(s))[ch] == if IsAllowed(ch) then multiset(s)[ch] else 0
  {
    if s != [] {
      CleanCounts(s[1..]);
      assert s == [s[0]] + s[1..];
      assert multiset(s) == multiset([s[0]]) + multiset(s[1..]);
      assert multiset(Clean(s)) == multiset(if IsAllowed(s[0]) then [s[0]] else []) + multiset(Clean(s[1..]));
    }
  }

  /** Only a text made of allowed characters comes through unchanged. */
  lemma {:induction false} CleanFixedIff(s: string)
    ensures Clean(s) == s <==> AllAllowed(s)
  {
    if s != [] {
      CleanFixedIff(s[1..]);
      if AllAllowed(s) {
        assert AllAllowed(s[1..]);
      }
    }
  }

  /** Cleaning twice is cleaning once. */
  lemma CleanIdempotent(s: string)
    ensures Clean(Clean(s)) == Clean(s)
  {
    CleanFixedIff(Clean(s));
  }

  /** One file found while walking the summaries directory. */
  datatype SummaryFile = SummaryFile(path: string, name: string, content: string)

  /** A file is overwritten when it is a `.txt` file the filter changes. */
  predicate NeedsRewrite(f: SummaryFile)
  {
    EndsWith(f.name, ".txt") && Clean(f.content) != f.content
  }

  /** The overwrites the pass performs, in walk order. */
  function Rewrites(files: seq<SummaryFile>): seq<SummaryFile>
  {
    if files == [] then []
    else
      (if NeedsRewrite(files[0]) then [files[0].(content := Clean(files[0].content))] else [])
      + Rewrites(files[1..])
  }

  function TxtCount(files: seq<SummaryFile>): nat
  {
    if files == [] then 0
    else (if EndsWith(files[0].name, ".txt") then 1 else 0) + TxtCount(files[1..])
  }

  /** The directory after the pass: the rewritten files hold their cleaned text. */
  function AfterCleanup(files: seq<SummaryFile>): (r: seq<SummaryFile>)
    ensures |r| == |files|
  {
    if files == [] then []
    else
      (if NeedsRewrite(files[0]) then [files[0].(content := Clean(files[0].content))] else [files[0]])
      + AfterCleanup(files[1..])
  }

  lemma {:induction false} RewritesAppend(a: seq<SummaryFile>, b: seq<SummaryFile>)
    ensures Rewrites(a + b) == Rewrites(a) + Rewrites(b)
    ensures TxtCount(a + b) == TxtCount(a) + TxtCount(b)
  {
    if a == [] {
      assert a + b == b;
    } else {
      var h := if NeedsRewrite(a[0]) then [a[0].(content := Clean(a[0].content))] else [];
      assert (a + b)[0] == a[0] && (a + b)[1..] == a[1..] + b;
      RewritesAppend(a[1..], b);
      assert Rewrites(a) == h + Rewrites(a[1..]);
      assert Rewrites(a + b) == h + (Rewrites(a[1..]) + Rewrites(b));
    }
  }

  /** A file is rewritten exactly when it is a `.txt` file holding some
      disallowed character. */
  lemma NeedsRewriteIff(f: SummaryFile)
    ensures NeedsRewrite(f) <==> EndsWith(f.name, ".txt") && exists i :: 0 <= i < |f.content| && !IsAllowed(f.content[i])
  {
    CleanFixedIff(f.content);
  }

  /** The pass is idempotent on the directory: a second pass right after the
      first rewrites nothing and leaves every file as it is. */
  lemma {:induction false} SecondPassWritesNothing(files: seq<SummaryFile>)
    ensures Rewrites(AfterCleanup(files)) == []
    ensures AfterCleanup(AfterCleanup(files)) == AfterCleanup(files)
  {
    if files != [] {
      var f := files[0];
      var g := if NeedsRewrite(f) then f.(content := Clean(f.content)) else f;
      CleanIdempotent(f.content);
      CleanFixedIff(f.content);
      assert !NeedsRewrite(g);
      SecondPassWritesNothing(files[1..]);
      assert AfterCleanup(files) == [g] + AfterCleanup(files[1..]);
      assert AfterCleanup(files)[1..] == AfterCleanup(files[1..]);
    }
  }

  /** The pass over the walked files: counts the `.txt` files scanned and
      overwrites, in order, those the filter changes. */
  method CleanSummaries(files: seq<SummaryFile>) returns (writes: seq<SummaryFile>, scanned: nat, cleaned: nat)
    ensures writes == Rewrites(files)
    ensures scanned == TxtCount(files)
    ensures cleaned == |writes|
    ensures forall k :: 0 <= k < |writes| ==> AllAllowed(writes[k].content) && EndsWith(writes[k].name, ".txt")
  {
    writes, scanned, cleaned := [], 0, 0;
    for i := 0 to |files|
      invariant writes == Rewrites(files[..i])
      invariant scanned == TxtCount(files[..i])
      invariant cleaned == |writes|
      invariant forall k :: 0 <= k < |writes| ==> AllAllowed(writes[k].content) && EndsWith(writes[k].name, ".txt")
    {
      var f := files[i];
      assert files[..i + 1] == files[..i] + [f];
      RewritesAppend(files[..i], [f]);
      assert [f][1..] == [];
      if EndsWith(f.name, ".txt") {
        scanned := scanned + 1;
        var cleanedContent := Clean(f.content);
        if cleanedContent != f.content {
          writes := writes + [f.(content := cleanedContent)];
          cleaned := cleaned + 1;
        }
      }
    }
    assert files[..|files|] == files;
  }
}
