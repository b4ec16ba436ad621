/**
 * Finding the documents that still need a summary, and writing the summaries
 * (construct_ai.py, discover_files_to_process and process_discovered_files).
 *
 * Paths are absolute and normalised: a directory is the sequence of its
 * component names, `Join` spells it as `/c1/c2/...`, and the directory walk
 * is given as the list of (directory below the root, file names) pairs it
 * yields, in order.  The file system itself is a parameter: the set of
 * summary paths that exist, and a reader from path and kind to content.
 */
module Discovery {
  import opened Text
  import opened Strategy
  import Prompts
  import Reducer

  /** The summaries directory, relative to the working directory. */
  const SummariesDir: string := "ai summaries"

  /** What a summary's file name is made of: the source name's root and this. */
  const SummarySuffix: string := "_ai_summary.txt"

  // ---------------------------------------------------------------------
  // Path strings

  /** The absolute path of a sequence of components. */
  function Join(parts: seq<string>): (path: string)
  {
    if parts == [] then "" else "/" + parts[0] + Join(parts[1..])
  }

  /** A directory entry name as the walk yields it. */
  predicate IsName(c: string)
  {
    c != "" && '/' !in c && c != "." && c != ".."
  }

  /** `os.path.join(a, b)` for a directory without trailing slash and a relative `b`. */
  function PathJoin(a: string, b: string): (path: string)
  {
    a + "/" + b
  }

  /** A text cut at the last occurrence of a character: what precedes it and
      what follows it, or (when it does not occur) nothing and the whole text. */
  datatype Split = Split(head: string, found: bool, tail: string)

  function SplitAtLast(s: string, ch: char): (r: Split)
    decreases |s|
  {
    if s == [] then Split("", false, "")
    else if s[|s| - 1] == ch then Split(s[..|s| - 1], true, "")
    else var r := SplitAtLast(s[..|s| - 1], ch); r.(tail := r.tail + [s[|s| - 1]])
  }

  /** The cut puts the text back together and leaves no `ch` after it. */
  lemma {:induction false} SplitAtLastShape(s: string, ch: char)
    ensures var r := SplitAtLast(s, ch);
      && s == r.head + (if r.found then [ch] else []) + r.tail
      && ch !in r.tail
      && (!r.found ==> r.head == "")
    decreases |s|
  {
    if s != [] && s[|s| - 1] != ch {
      SplitAtLastShape(s[..|s| - 1], ch);
      assert s == s[..|s| - 1] + [s[|s| - 1]];
    }
  }

  /** Cutting `a`, `ch`, `b` with no `ch` in `b` gives back `a` and `b`. */
  lemma {:induction false} SplitAtLastJoin(a: string, ch: char, b: string)
    requires ch !in b
    ensures SplitAtLast(a + [ch] + b, ch) == Split(a, true, b)
    decreases |b|
  {
    var s := a + [ch] + b;
    if b == [] {
      assert s[..|s| - 1] == a;
    } else {
      assert s[..|s| - 1] == a + [ch] + b[..|b| - 1];
      SplitAtLastJoin(a, ch, b[..|b| - 1]);
      assert b == b[..|b| - 1] + [b[|b| - 1]];
    }
  }

  /** `os.path.basename`: what follows the last slash. */
  function Basename(p: string): (name: string)
  {
    SplitAtLast(p, '/').tail
  }

  /** `os.path.dirname` on a normalised path: what precedes the last slash,
      or `/` when that slash is the leading one. */
  function Dirname(p: string): (dir: string)
  {
    var r := SplitAtLast(p, '/');
    if !r.found then "" else if r.head == "" then "/" else r.head
  }

  /** `os.path.relpath` of a path at or below `start`: `.` for `start`
      itself, otherwise the part below it.  Paths elsewhere are returned
      unchanged; no caller in this model passes one. */
  function RelPath(path: string, start: string): (rel: string)
  {
    if path == start then "."
    else if StartsWith(path, start + "/") then path[|start| + 1..]
    else path
  }

  lemma {:induction false} JoinAppend(a: seq<string>, b: seq<string>)
    ensures Join(a + b) == Join(a) + Join(b)
  {
    if a == [] {
      assert a + b == b;
    } else {
      assert (a + b)[1..] == a[1..] + b;
      JoinAppend(a[1..], b);
    }
  }

  /** Appending a final component is joining it on. */
  lemma JoinSnoc(parts: seq<string>, name: string)
    ensures Join(parts + [name]) == PathJoin(Join(parts), name)
  {
    JoinAppend(parts, [name]);
    assert [name][1..] == [];
  }

  /** For a path joined from a directory and a slash-free name, basename
      recovers the name and dirname the directory. */
  lemma SplitPathJoin(dir: string, name: string)
    requires dir != "" && '/' !in name
    ensures Basename(PathJoin(dir, name)) == name
    ensures Dirname(PathJoin(dir, name)) == dir
  {
    assert PathJoin(dir, name) == dir + ['/'] + name;
    SplitAtLastJoin(dir, '/', name);
  }

  // ---------------------------------------------------------------------
  // File names

  predicate OnlyDots(s: string)
  {
    forall k :: 0 <= k < |s| ==> s[k] == '.'
  }

  /**
   * `os.path.splitext` of a base name: the extension starts at the last
   * dot, provided some character before that dot is not itself a dot
   * (leading dots belong to the root); otherwise the extension is empty.
   */
  function SplitExt(name: string): (r: (string, string))
  {
    var cut := SplitAtLast(name, '.');
    if cut.found && !OnlyDots(cut.head) then (cut.head, "." + cut.tail) else (name, "")
  }

  /** Root and extension put the name back together; the extension is empty
      or one dot followed by no other. */
  lemma SplitExtShape(name: string)
    ensures SplitExt(name).0 + SplitExt(name).1 == name
    ensures var ext := SplitExt(name).1;
      ext == "" || (ext[0] == '.' && '.' !in ext[1..])
  {
    SplitAtLastShape(name, '.');
    var cut := SplitAtLast(name, '.');
    assert ("." + cut.tail)[1..] == cut.tail;
  }

  /** The name of a document's summary file. */
  function SummaryFileName(name: string): (r: string)
  {
    SplitExt(name).0 + SummarySuffix
  }

  /** A name with a dot-free extension after a stem that is not all dots
      loses exactly that extension. */
  lemma SplitExtDotted(stem: string, ext: string)
    requires !OnlyDots(stem) && '.' !in ext
    ensures SplitExt(stem + "." + ext) == (stem, "." + ext)
    ensures SummaryFileName(stem + "." + ext) == stem + SummarySuffix
  {
    assert stem + "." + ext == stem + ['.'] + ext;
    SplitAtLastJoin(stem, '.', ext);
  }

  /** A name whose part before the last dot is all dots has no extension. */
  lemma SplitExtHidden(front: string, ext: string)
    requires OnlyDots(front) && '.' !in ext
    ensures SplitExt(front + "." + ext) == (front + "." + ext, "")
    ensures SummaryFileName(front + "." + ext) == front + "." + ext + SummarySuffix
  {
    assert front + "." + ext == front + ['.'] + ext;
    SplitAtLastJoin(front, '.', ext);
  }

  /** Documents that differ only in their extension share one summary name. */
  lemma SummaryNamesCollide()
    ensures SummaryFileName("report.txt") == SummaryFileName("report.pdf") == "report_ai_summary.txt"
  {
    assert "report"[0] != '.';
    assert "report" + "." + "txt" == "report.txt";
    assert "report" + "." + "pdf" == "report.pdf";
    assert "report" + SummarySuffix == "report_ai_summary.txt";
    SplitExtDotted("report", "txt");
    SplitExtDotted("report", "pdf");
  }

  /** Only the last extension is replaced, and a name that is all extension
      keeps it. */
  lemma SummaryNameExamples()
    ensures SummaryFileName(".pdf") == ".pdf_ai_summary.txt"
    ensures SummaryFileName("notes.v2.gdoc") == "notes.v2_ai_summary.txt"
  {
    assert "notes.v2"[0] != '.';
    assert "notes.v2" + "." + "gdoc" == "notes.v2.gdoc";
    assert "" + "." + "pdf" == ".pdf";
    assert "notes.v2" + SummarySuffix == "notes.v2_ai_summary.txt";
    assert ".pdf" + SummarySuffix == ".pdf_ai_summary.txt";
    SplitExtDotted("notes.v2", "gdoc");
    SplitExtHidden("", "pdf");
  }

  /** The extension filter of discovery: the lower-cased name ends in one of
      the three supported extensions. */
  predicate IsSupported(name: string)
  {
    var l := Lower(name);
    EndsWith(l, ".txt") || EndsWith(l, ".pdf") || EndsWith(l, ".gdoc")
  }

  datatype FileKind = Txt | Pdf | Gdoc | Unsupported

  function StripDots(s: string): (r: string)
    ensures |r| <= |s| && r == s[|s| - |r|..] && (r == "" || r[0] != '.')
  {
    if s != [] && s[0] == '.' then StripDots(s[1..]) else s
  }

  /** The `file_type` the processing loop derives: the extension without its
      dots, lower-cased. */
  function FileType(name: string): (t: string)
  {
    Lower(StripDots(SplitExt(name).1))
  }

  /** The dispatch of read_file_content on the (again lower-cased) type. */
  function Classify(fileType: string): (kind: FileKind)
  {
    var t := Lower(fileType);
    if t == "pdf" then Pdf
    else if t == "txt" then Txt
    else if t == "gdoc" then Gdoc
    else Unsupported
  }

  /** A name ending, in lower case, with a dotted extension `suffix` has a
      dot where the suffix starts and a dot-free rest that lower-cases to the
      extension. */
  lemma DottedSuffix(name: string, suffix: string)
    requires 2 <= |suffix| && suffix[0] == '.' && '.' !in suffix[1..]
    requires EndsWith(Lower(name), suffix)
    ensures |suffix| <= |name|
    ensures var m := |name| - |suffix|;
      name[m] == '.' && '.' !in name[m + 1..] && Lower(name[m + 1..]) == suffix[1..]
  {
    var m := |name| - |suffix|;
    var l := Lower(name);
    var ext := name[m + 1..];
    assert l[m] == suffix[0];
    forall j | 0 <= j < |ext| ensures ext[j] != '.' && LowerChar(ext[j]) == suffix[1..][j] {
      assert l[m + 1 + j] == suffix[1..][j];
    }
  }

  /** After a stem that is not all dots, the type is the lower-cased extension. */
  lemma FileTypeDotted(stem: string, ext: string)
    requires !OnlyDots(stem) && ext != "" && '.' !in ext
    ensures FileType(stem + "." + ext) == Lower(ext)
  {
    SplitExtDotted(stem, ext);
    assert ("." + ext)[1..] == ext;
    assert StripDots(ext) == ext;
  }

  /** After a front of nothing but dots, there is no type. */
  lemma FileTypeHidden(front: string, ext: string)
    requires OnlyDots(front) && '.' !in ext
    ensures FileType(front + "." + ext) == ""
  {
    SplitExtHidden(front, ext);
    assert Lower("") == "";
  }

  /** The type of a name with its last dot at `m`, after a front of nothing
      but dots: none. */
  lemma FileTypeHiddenAt(name: string, m: nat)
    requires m < |name| && name[m] == '.' && '.' !in name[m + 1..]
    requires OnlyDots(name[..m])
    ensures FileType(name) == ""
  {
    assert name == name[..m] + "." + name[m + 1..];
    FileTypeHidden(name[..m], name[m + 1..]);
  }

  /** The type of a name with its last dot at `m`, after a front that is
      not all dots: the lower-cased rest. */
  lemma FileTypeDottedAt(name: string, m: nat, t: string)
    requires m + 1 < |name| && name[m] == '.' && '.' !in name[m + 1..]
    requires !OnlyDots(name[..m]) && Lower(name[m + 1..]) == t
    ensures FileType(name) == t
  {
    assert name == name[..m] + "." + name[m + 1..];
    FileTypeDotted(name[..m], name[m + 1..]);
  }

  /** A name ending, in lower case, with a dotted extension `suffix` after a
      front that is not all dots has that extension, without its dot, as its
      type. */
  lemma FileTypeOfSuffix(name: string, suffix: string)
    requires 2 <= |suffix| && suffix[0] == '.' && '.' !in suffix[1..]
    requires EndsWith(Lower(name), suffix) && !OnlyDots(name[..|name| - |suffix|])
    ensures FileType(name) == suffix[1..]
  {
    var m := |name| - |suffix|;
    DottedSuffix(name, suffix);
    assert name[m] == '.' && '.' !in name[m + 1..] && Lower(name[m + 1..]) == suffix[1..];
    assert m + 1 < |name| && !OnlyDots(name[..m]);
    FileTypeDottedAt(name, m, suffix[1..]);
  }

  /** A name ending, in lower case, with a dotted extension `suffix` after
      nothing but dots (such as `.pdf`) has no type. */
  lemma FileTypeOfHiddenSuffix(name: string, suffix: string)
    requires 2 <= |suffix| && suffix[0] == '.' && '.' !in suffix[1..]
    requires EndsWith(Lower(name), suffix) && OnlyDots(name[..|name| - |suffix|])
    ensures FileType(name) == ""
  {
    var m := |name| - |suffix|;
    DottedSuffix(name, suffix);
    assert m < |name|;
    assert name[m] == '.' && '.' !in name[m + 1..];
    assert OnlyDots(name[..m]);
    FileTypeHiddenAt(name, m);
  }

  lemma ClassifyNames()
    ensures Classify("txt") == Txt && Classify("pdf") == Pdf && Classify("gdoc") == Gdoc
    ensures Classify("") == Unsupported
  {
    assert Lower("txt") == "txt";
    assert Lower("pdf") == "pdf";
    assert Lower("gdoc") == "gdoc";
    assert Lower("") == "";
  }

  /** Every supported name is read as the kind its extension says, except a
      name that is nothing but dots before that extension (such as `.pdf`),
      which discovery accepts but processing rejects as unsupported. */
  lemma SupportedClassified(name: string)
    requires IsSupported(name)
    ensures var suffix := if EndsWith(Lower(name), ".txt") then ".txt" else if EndsWith(Lower(name), ".pdf") then ".pdf" else ".gdoc";
      && (Classify(FileType(name)) == Unsupported <==> OnlyDots(name[..|name| - |suffix|]))
      && (Classify(FileType(name)) != Unsupported ==>
            Classify(FileType(name)) == (if suffix == ".txt" then Txt else if suffix == ".pdf" then Pdf else Gdoc))
  {
    var suffix := if EndsWith(Lower(name), ".txt") then ".txt" else if EndsWith(Lower(name), ".pdf") then ".pdf" else ".gdoc";
    assert suffix[1..] == if suffix == ".txt" then "txt" else if suffix == ".pdf" then "pdf" else "gdoc";
    ClassifyNames();
    if OnlyDots(name[..|name| - |suffix|]) {
      FileTypeOfHiddenSuffix(name, suffix);
    } else {
      FileTypeOfSuffix(name, suffix);
    }
  }

  // ---------------------------------------------------------------------
  // Selection

  /** The summaries directory, resolved against the working directory. */
  function AbsSummaries(cwd: seq<string>): (path: string)
  {
    Join(cwd + [SummariesDir])
  }

  /** The target folders, stripped, blank ones dropped, resolved against the
      root; each is taken to be a normalised relative path. */
  function AbsTargets(root: seq<string>, targets: seq<string>): (r: seq<string>)
  {
    if targets == [] then []
    else
      (if Strip(targets[0]) != "" then [PathJoin(Join(root), Strip(targets[0]))] else [])
      + AbsTargets(root, targets[1..])
  }

  /** Target filtering is switched off exactly when every entry is blank. */
  lemma {:induction false} AbsTargetsEmptyIff(root: seq<string>, targets: seq<string>)
    ensures AbsTargets(root, targets) == [] <==> forall k :: 0 <= k < |targets| ==> IsBlank(targets[k])
  {
    if targets != [] {
      StripShape(targets[0]);
      AbsTargetsEmptyIff(root, targets[1..]);
      assert forall k :: 1 <= k < |targets| ==> targets[k] == targets[1..][k - 1];
    }
  }

  /** A walked directory is searched unless its absolute path starts with
      the summaries directory, and, when there are targets, only if it
      starts with one of them.  Both are tests on the path text. */
  predicate Selected(cwd: seq<string>, root: seq<string>, absTargets: seq<string>, dir: seq<string>)
  {
    var absRoot := Join(root + dir);
    && !StartsWith(absRoot, AbsSummaries(cwd))
    && (absTargets == [] || exists t :: t in absTargets && StartsWith(absRoot, t))
  }

  /** One directory as the walk yields it: its path below the root and the
      names of the files in it. */
  datatype WalkEntry = WalkEntry(dir: seq<string>, files: seq<string>)

  /** `pathOf` of each name of `files` that `keep` accepts. */
  function JoinedWhere(keep: string -> bool, pathOf: string -> string, files: seq<string>): seq<string>
  {
    if files == [] then []
    else (if keep(files[0]) then [pathOf(files[0])] else []) + JoinedWhere(keep, pathOf, files[1..])
  }

  /** The path of each name inside the directory `absRoot`. */
  function Inside(absRoot: string): string -> string
  {
    name => PathJoin(absRoot, name)
  }

  /** The supported files of one directory, joined onto its path. */
  function FilesFound(absRoot: string, files: seq<string>): seq<string>
  {
    JoinedWhere(IsSupported, Inside(absRoot), files)
  }

  /** `files_found`: the supported files of the selected directories, in walk order. */
  function Found(cwd: seq<string>, root: seq<string>, absTargets: seq<string>, walk: seq<WalkEntry>): seq<string>
  {
    if walk == [] then []
    else
      (if Selected(cwd, root, absTargets, walk[0].dir) then FilesFound(Join(root + walk[0].dir), walk[0].files) else [])
      + Found(cwd, root, absTargets, walk[1..])
  }

  /** Where the summary of `source` goes: the mirror of its directory, taken
      relative to `base`, inside the summaries directory.  Discovery computes
      it with the root as `base`, the processing loop with the working
      directory. */
  function SummaryPathFor(base: string, absSummaries: string, source: string): (path: string)
  {
    var relativeDir := RelPath(Dirname(source), base);
    var targetDir := if relativeDir != "." then PathJoin(absSummaries, relativeDir) else absSummaries;
    PathJoin(targetDir, SummaryFileName(Basename(source)))
  }

  /** The found files whose summary path, under `pathOf`, does not exist. */
  function Unsummarised(pathOf: string -> string, found: seq<string>, existing: set<string>): seq<string>
  {
    if found == [] then []
    else (if pathOf(found[0]) !in existing then [found[0]] else []) + Unsummarised(pathOf, found[1..], existing)
  }

  /** The summary path of each source, seen from `base`. */
  function SummaryPathOf(base: string, absSummaries: string): string -> string
  {
    source => SummaryPathFor(base, absSummaries, source)
  }

  /** `files_to_process`: the found files whose summary does not exist. */
  function ToProcess(base: string, absSummaries: string, found: seq<string>, existing: set<string>): seq<string>
  {
    Unsummarised(SummaryPathOf(base, absSummaries), found, existing)
  }

  lemma {:induction false} JoinedWhereAppend(keep: string -> bool, pathOf: string -> string, a: seq<string>, b: seq<string>)
    ensures JoinedWhere(keep, pathOf, a + b) == JoinedWhere(keep, pathOf, a) + JoinedWhere(keep, pathOf, b)
  {
    if a == [] {
      assert a + b == b;
    } else {
      assert (a + b)[1..] == a[1..] + b;
      JoinedWhereAppend(keep, pathOf, a[1..], b);
    }
  }

  lemma FilesFoundAppend(absRoot: string, a: seq<string>, b: seq<string>)
    ensures FilesFound(absRoot, a + b) == FilesFound(absRoot, a) + FilesFound(absRoot, b)
  {
    JoinedWhereAppend(IsSupported, Inside(absRoot), a, b);
  }

  lemma JoinedWhereOne(keep: string -> bool, pathOf: string -> string, name: string)
    ensures JoinedWhere(keep, pathOf, [name]) == if keep(name) then [pathOf(name)] else []
  {
    assert [name][1..] == [];
  }

  lemma FilesFoundOne(absRoot: string, name: string)
    ensures FilesFound(absRoot, [name]) == if IsSupported(name) then [PathJoin(absRoot, name)] else []
  {
    JoinedWhereOne(IsSupported, Inside(absRoot), name);
  }

  lemma {:induction false} FoundAppend(cwd: seq<string>, root: seq<string>, absTargets: seq<string>, a: seq<WalkEntry>, b: seq<WalkEntry>)
    ensures Found(cwd, root, absTargets, a + b) == Found(cwd, root, absTargets, a) + Found(cwd, root, absTargets, b)
  {
    if a == [] {
      assert a + b == b;
    } else {
      var h := if Selected(cwd, root, absTargets, a[0].dir) then FilesFound(Join(root + a[0].dir), a[0].files) else [];
      assert (a + b)[0] == a[0] && (a + b)[1..] == a[1..] + b;
      FoundAppend(cwd, root, absTargets, a[1..], b);
      assert Found(cwd, root, absTargets, a + b) == h + (Found(cwd, root, absTargets, a[1..]) + Found(cwd, root, absTargets, b));
    }
  }

  lemma {:induction false} UnsummarisedAppend(pathOf: string -> string, a: seq<string>, b: seq<string>, existing: set<string>)
    ensures Unsummarised(pathOf, a + b, existing) == Unsummarised(pathOf, a, existing) + Unsummarised(pathOf, b, existing)
  {
    if a == [] {
      assert a + b == b;
    } else {
      assert (a + b)[1..] == a[1..] + b;
      UnsummarisedAppend(pathOf, a[1..], b, existing);
    }
  }

  lemma UnsummarisedOne(pathOf: string -> string, source: string, existing: set<string>)
    ensures Unsummarised(pathOf, [source], existing) == if pathOf(source) !in existing then [source] else []
  {
    assert [source][1..] == [];
  }

  lemma ToProcessAppend(base: string, absSummaries: string, a: seq<string>, b: seq<string>, existing: set<string>)
    ensures ToProcess(base, absSummaries, a + b, existing) == ToProcess(base, absSummaries, a, existing) + ToProcess(base, absSummaries, b, existing)
  {
    UnsummarisedAppend(SummaryPathOf(base, absSummaries), a, b, existing);
  }

  lemma {:induction false} UnsummarisedMembers(pathOf: string -> string, found: seq<string>, existing: set<string>)
    ensures forall p :: p in Unsummarised(pathOf, found, existing) <==> p in found && pathOf(p) !in existing
  {
    if found != [] {
      UnsummarisedMembers(pathOf, found[1..], existing);
      assert found == [found[0]] + found[1..];
    }
  }

  /** A found file is kept exactly when its summary path does not exist. */
  lemma ToProcessMembers(base: string, absSummaries: string, found: seq<string>, existing: set<string>)
    ensures forall p :: p in ToProcess(base, absSummaries, found, existing) <==>
              p in found && SummaryPathFor(base, absSummaries, p) !in existing
  {
    UnsummarisedMembers(SummaryPathOf(base, absSummaries), found, existing);
  }

  lemma {:induction false} JoinedWhereMembers(keep: string -> bool, pathOf: string -> string, files: seq<string>)
    ensures forall p :: p in JoinedWhere(keep, pathOf, files) <==>
              exists n :: n in files && keep(n) && p == pathOf(n)
  {
    if files != [] {
      JoinedWhereMembers(keep, pathOf, files[1..]);
      assert files == [files[0]] + files[1..];
    }
  }

  /** A path is found in a directory exactly when it joins a supported name
      of that directory onto the directory's path. */
  lemma FilesFoundMembers(absRoot: string, files: seq<string>)
    ensures forall p :: p in FilesFound(absRoot, files) <==>
              exists n :: n in files && IsSupported(n) && p == PathJoin(absRoot, n)
  {
    JoinedWhereMembers(IsSupported, Inside(absRoot), files);
  }

  lemma {:induction false} FoundMembers(cwd: seq<string>, root: seq<string>, absTargets: seq<string>, walk: seq<WalkEntry>)
    ensures forall p :: p in Found(cwd, root, absTargets, walk) <==>
              exists k, n :: (0 <= k < |walk| && Selected(cwd, root, absTargets, walk[k].dir)
                              && n in walk[k].files && IsSupported(n) && p == PathJoin(Join(root + walk[k].dir), n))
  {
    if walk != [] {
      FoundMembers(cwd, root, absTargets, walk[1..]);
      FilesFoundMembers(Join(root + walk[0].dir), walk[0].files);
      forall p | p in Found(cwd, root, absTargets, walk)
        ensures exists k, n :: (0 <= k < |walk| && Selected(cwd, root, absTargets, walk[k].dir)
                                && n in walk[k].files && IsSupported(n) && p == PathJoin(Join(root + walk[k].dir), n))
      {
        if p !in Found(cwd, root, absTargets, walk[1..]) {
          var n :| n in walk[0].files && IsSupported(n) && p == PathJoin(Join(root + walk[0].dir), n);
          assert Selected(cwd, root, absTargets, walk[0].dir);
        } else {
          var k, n :| 0 <= k < |walk[1..]| && Selected(cwd, root, absTargets, walk[1..][k].dir)
                && n in walk[1..][k].files && IsSupported(n) && p == PathJoin(Join(root + walk[1..][k].dir), n);
          assert walk[1..][k] == walk[k + 1];
        }
      }
      forall p, k, n | 0 <= k < |walk| && Selected(cwd, root, absTargets, walk[k].dir)
                && n in walk[k].files && IsSupported(n) && p == PathJoin(Join(root + walk[k].dir), n)
        ensures p in Found(cwd, root, absTargets, walk)
      {
        if k > 0 {
          assert walk[1..][k - 1] == walk[k];
        }
      }
    }
  }

  /** `relpath` of a path that extends `start` by `below`, a run of
      slash-led components other than a lone `.`. */
  lemma RelPathBelow(start: string, below: string)
    requires below == "" || (below[0] == '/' && below[1..] != ".")
    ensures RelPath(start + below, start) == if below == "" then "." else below[1..]
  {
    if below != "" {
      assert (start + below)[..|start| + 1] == start + "/";
      assert (start + below)[|start| + 1..] == below[1..];
    } else {
      assert start + below == start;
    }
  }

  /** The text of a non-empty run of names starts with a slash and is not
      a lone `.` after it. */
  lemma JoinOfNames(dir: seq<string>)
    requires dir != [] && IsName(dir[0])
    ensures Join(dir)[0] == '/' && Join(dir)[1..] != "."
  {
    assert Join(dir)[1..] == dir[0] + Join(dir[1..]);
  }

  /** The summary path of a document in `start` extended by `below`: the
      same extension of the summaries directory, then the summary name. */
  lemma SummaryPathBelow(start: string, below: string, absSummaries: string, name: string)
    requires start != "" && '/' !in name
    requires below == "" || (below[0] == '/' && below[1..] != ".")
    ensures SummaryPathFor(start, absSummaries, PathJoin(start + below, name))
            == PathJoin(absSummaries + below, SummaryFileName(name))
  {
    var source := PathJoin(start + below, name);
    SplitPathJoin(start + below, name);
    RelPathBelow(start, below);
    var rel := RelPath(Dirname(source), start);
    if below == "" {
      assert rel == ".";
      assert absSummaries + below == absSummaries;
    } else {
      assert rel == below[1..] && rel != ".";
      assert PathJoin(absSummaries, rel) == absSummaries + below by {
        assert below == "/" + below[1..];
      }
    }
  }

  /** Summaries mirror their sources: a document `name` in directory `dir`
      below the working directory has its summary at the same place below
      the summaries directory, under its summary name. */
  lemma MirrorPath(cwd: seq<string>, dir: seq<string>, name: string)
    requires cwd != [] && '/' !in name
    requires forall k :: 0 <= k < |dir| ==> IsName(dir[k])
    ensures SummaryPathFor(Join(cwd), AbsSummaries(cwd), PathJoin(Join(cwd + dir), name))
            == Join(cwd + [SummariesDir] + dir + [SummaryFileName(name)])
  {
    JoinAppend(cwd, dir);
    if dir != [] {
      JoinOfNames(dir);
    }
    SummaryPathBelow(Join(cwd), Join(dir), AbsSummaries(cwd), name);
    JoinAppend(cwd + [SummariesDir], dir);
    JoinSnoc(cwd + [SummariesDir] + dir, SummaryFileName(name));
  }

  /** Discovery never descends into the summaries tree: with the working
      directory as root, no directory below the summaries directory is
      selected, whatever the targets. */
  lemma SummariesNotSearched(cwd: seq<string>, absTargets: seq<string>, below: seq<string>)
    ensures !Selected(cwd, cwd, absTargets, [SummariesDir] + below)
  {
    assert cwd + ([SummariesDir] + below) == cwd + [SummariesDir] + below;
    JoinAppend(cwd + [SummariesDir], below);
  }

  /** Both selection tests compare path text, so a sibling whose name merely
      begins like the summaries directory is skipped too, and a sibling whose
      name begins like a target is searched. */
  lemma PrefixTestsAreTextual(cwd: seq<string>)
    ensures !Selected(cwd, cwd, [], ["ai summaries old"])
    ensures Selected(cwd, cwd, AbsTargets(cwd, ["AI Ethics"]), ["AI Ethics Archive"])
  {
    JoinSnoc(cwd, "ai summaries old");
    JoinSnoc(cwd, SummariesDir);
    assert StartsWith(Join(cwd + ["ai summaries old"]), AbsSummaries(cwd));
    assert Strip("AI Ethics") == "AI Ethics" by {
      assert !IsWhitespace('A') && !IsWhitespace('s');
    }
    assert ["AI Ethics"][1..] == [];
    var t := PathJoin(Join(cwd), "AI Ethics");
    assert AbsTargets(cwd, ["AI Ethics"]) == [t];
    JoinSnoc(cwd, "AI Ethics Archive");
    var r := Join(cwd + ["AI Ethics Archive"]);
    assert StartsWith(r, t) by {
      assert r[..|t|] == t;
    }
    assert !StartsWith(r, AbsSummaries(cwd)) by {
      assert r[|Join(cwd)| + 1] == 'A' != AbsSummaries(cwd)[|Join(cwd)| + 1];
    }
  }

  // ---------------------------------------------------------------------
  // The discovery pass

  /** The file loop of one selected directory. */
  method SupportedIn(absRoot: string, files: seq<string>) returns (paths: seq<string>)
    ensures paths == FilesFound(absRoot, files)
  {
    paths := [];
    for j := 0 to |files|
      invariant paths == FilesFound(absRoot, files[..j])
    {
      var name := files[j];
      assert files[..j + 1] == files[..j] + [name];
      FilesFoundAppend(absRoot, files[..j], [name]);
      FilesFoundOne(absRoot, name);
      if IsSupported(name) {
        paths := paths + [PathJoin(absRoot, name)];
      }
    }
    assert files[..|files|] == files;
  }

  /** The walk loop: skips the summaries tree and, when there are targets,
      every directory outside them; collects the supported files of the rest. */
  method CollectSupported(cwd: seq<string>, root: seq<string>, absTargets: seq<string>, walk: seq<WalkEntry>)
    returns (found: seq<string>)
    ensures found == Found(cwd, root, absTargets, walk)
  {
    var absSummaries := AbsSummaries(cwd);
    found := [];
    for i := 0 to |walk|
      invariant found == Found(cwd, root, absTargets, walk[..i])
    {
      var entry := walk[i];
      assert walk[..i + 1] == walk[..i] + [entry];
      FoundAppend(cwd, root, absTargets, walk[..i], [entry]);
      assert [entry][1..] == [];
      var absRoot := Join(root + entry.dir);
      if !StartsWith(absRoot, absSummaries)
         && (absTargets == [] || exists t :: t in absTargets && StartsWith(absRoot, t))
      {
        var paths := SupportedIn(absRoot, entry.files);
        found := found + paths;
      }
    }
    assert walk[..|walk|] == walk;
  }

  /** The existence loop: keeps the found files whose summary is missing. */
  method KeepUnsummarised(base: string, absSummaries: string, found: seq<string>, existing: set<string>)
    returns (toProcess: seq<string>)
    ensures toProcess == ToProcess(base, absSummaries, found, existing)
  {
    toProcess := [];
    for i := 0 to |found|
      invariant toProcess == ToProcess(base, absSummaries, found[..i], existing)
    {
      var source := found[i];
      assert found[..i + 1] == found[..i] + [source];
      UnsummarisedAppend(SummaryPathOf(base, absSummaries), found[..i], [source], existing);
      UnsummarisedOne(SummaryPathOf(base, absSummaries), source, existing);
      var summaryPath := SummaryPathFor(base, absSummaries, source);
      if summaryPath !in existing {
        toProcess := toProcess + [source];
      }
    }
    assert found[..|found|] == found;
  }

  /** discover_files_to_process: resolves the targets (none when all are
      blank), collects the supported files of the selected directories and
      keeps those without a summary. */
  method DiscoverFilesToProcess(cwd: seq<string>, root: seq<string>, targets: seq<string>, walk: seq<WalkEntry>, existing: set<string>)
    returns (toProcess: seq<string>)
    ensures toProcess == ToProcess(Join(root), AbsSummaries(cwd), Found(cwd, root, AbsTargets(root, targets), walk), existing)
  {
    var absTargets: seq<string> := [];
    AbsTargetsEmptyIff(root, targets);
    if exists k :: 0 <= k < |targets| && Strip(targets[k]) != "" {
      absTargets := AbsTargets(root, targets);
    } else {
      forall k | 0 <= k < |targets| ensures IsBlank(targets[k]) {
        StripShape(targets[k]);
      }
    }
    var found := CollectSupported(cwd, root, absTargets, walk);
    if found == [] {
      return [];
    }
    toProcess := KeepUnsummarised(Join(root), AbsSummaries(cwd), found, existing);
  }

  // ---------------------------------------------------------------------
  // The processing pass

  /** The outcome of reading a document. */
  datatype ReadResult = Content(text: string) | ReadFailure

  /** Reads the document at a path as a given kind (text, PDF or Google Doc). */
  type Reader = (string, FileKind) -> ReadResult

  /** Summarises a document's text; an `Err` is a summarisation that raised. */
  type Summarize = string -> Reducer.Result<string>

  /** The reducer's pipeline over one oracle, as a summariser. */
  function Summarizer(oracle: Reducer.Oracle): Summarize
  {
    text => Reducer.Summarize(text, oracle).outcome
  }

  /** A summary written to a path. */
  datatype Written = Written(path: string, summary: string)

  /** Where the processing loop writes the summary of `source`: the name's
      root plus the summary suffix, inside the mirror of the source's
      directory taken relative to the working directory. */
  function WritePath(cwd: seq<string>, source: string): (path: string)
  {
    var fileName := Basename(source);
    var summaryFileName := SplitExt(fileName).0 + SummarySuffix;
    var relativeDir := RelPath(Dirname(source), Join(cwd));
    var targetDir := if relativeDir == "." then AbsSummaries(cwd) else PathJoin(AbsSummaries(cwd), relativeDir);
    PathJoin(targetDir, summaryFileName)
  }

  /** The path the processing loop writes is the path discovery looks for
      when discovery starts from the working directory. */
  lemma WritePathIsSummaryPath(cwd: seq<string>, source: string)
    ensures WritePath(cwd, source) == SummaryPathFor(Join(cwd), AbsSummaries(cwd), source)
  {
  }

  /** What a document's content yields: nothing when it could not be read,
      is blank, or summarising it fails; otherwise its summary, written at
      the document's mirrored path. */
  function Outcome(cwd: seq<string>, source: string, content: ReadResult, summarize: Summarize): (writes: seq<Written>)
  {
    match content
    case ReadFailure => []
    case Content(text) =>
      if Strip(text) == "" then []
      else match summarize(text)
        case Err(_) => []
        case Ok(summary) => [Written(WritePath(cwd, source), summary)]
  }

  /**
   * What processing one discovered file writes: nothing when it is a Google
   * Doc and there is no Docs service or when its type is unsupported;
   * otherwise the outcome of reading it as its kind.
   */
  function ProcessOne(cwd: seq<string>, source: string, docsService: bool, read: Reader, summarize: Summarize): (writes: seq<Written>)
  {
    var kind := Classify(FileType(Basename(source)));
    if kind == Gdoc && !docsService then []
    else if kind == Unsupported then []
    else Outcome(cwd, source, read(source, kind), summarize)
  }

  /** The writes of `one` over a list of files, in order. */
  function Outputs(one: string -> seq<Written>, files: seq<string>): seq<Written>
  {
    if files == [] then [] else one(files[0]) + Outputs(one, files[1..])
  }

  function ProcessEach(cwd: seq<string>, docsService: bool, read: Reader, summarize: Summarize): string -> seq<Written>
  {
    source => ProcessOne(cwd, source, docsService, read, summarize)
  }

  /** The writes of processing a list of files in order. */
  function ProcessAll(cwd: seq<string>, files: seq<string>, docsService: bool, read: Reader, summarize: Summarize): seq<Written>
  {
    Outputs(ProcessEach(cwd, docsService, read, summarize), files)
  }

  lemma {:induction false} OutputsAppend(one: string -> seq<Written>, a: seq<string>, b: seq<string>)
    ensures Outputs(one, a + b) == Outputs(one, a) + Outputs(one, b)
  {
    if a == [] {
      assert a + b == b;
    } else {
      assert (a + b)[1..] == a[1..] + b;
      OutputsAppend(one, a[1..], b);
    }
  }

  lemma OutputsOne(one: string -> seq<Written>, source: string)
    ensures Outputs(one, [source]) == one(source)
  {
    assert [source][1..] == [];
  }

  lemma ProcessAllAppend(cwd: seq<string>, a: seq<string>, b: seq<string>, docsService: bool, read: Reader, summarize: Summarize)
    ensures ProcessAll(cwd, a + b, docsService, read, summarize) == ProcessAll(cwd, a, docsService, read, summarize) + ProcessAll(cwd, b, docsService, read, summarize)
  {
    OutputsAppend(ProcessEach(cwd, docsService, read, summarize), a, b);
  }

  lemma ProcessAllOne(cwd: seq<string>, source: string, docsService: bool, read: Reader, summarize: Summarize)
    ensures ProcessAll(cwd, [source], docsService, read, summarize) == ProcessOne(cwd, source, docsService, read, summarize)
  {
    OutputsOne(ProcessEach(cwd, docsService, read, summarize), source);
  }

  lemma ProcessAllSnoc(cwd: seq<string>, files: seq<string>, i: nat, docsService: bool, read: Reader, summarize: Summarize)
    requires i < |files|
    ensures ProcessAll(cwd, files[..i + 1], docsService, read, summarize)
            == ProcessAll(cwd, files[..i], docsService, read, summarize) + ProcessOne(cwd, files[i], docsService, read, summarize)
  {
    assert files[..i + 1] == files[..i] + [files[i]];
    ProcessAllAppend(cwd, files[..i], [files[i]], docsService, read, summarize);
    ProcessAllOne(cwd, files[i], docsService, read, summarize);
  }

  /** The second half of process_file: skip blank content, summarise the
      rest and write the summary at the mirrored path. */
  method SummarizeContent(cwd: seq<string>, source: string, content: ReadResult, summarize: Summarize)
    returns (written: seq<Written>)
    ensures written == Outcome(cwd, source, content, summarize)
  {
    if content.ReadFailure? || Strip(content.text) == "" {
      return [];
    }
    var summary := summarize(content.text);
    if summary.Err? {
      return [];
    }
    var fileName := Basename(source);
    var summaryFileName := SplitExt(fileName).0 + SummarySuffix;
    var relativeDir := RelPath(Dirname(source), Join(cwd));
    var targetDir: string;
    if relativeDir == "." {
      targetDir := AbsSummaries(cwd);
    } else {
      targetDir := PathJoin(AbsSummaries(cwd), relativeDir);
    }
    var summaryPath := PathJoin(targetDir, summaryFileName);
    written := [Written(summaryPath, summary.value)];
  }

  /** process_file: one document of the processing loop. */
  method ProcessFile(cwd: seq<string>, source: string, docsService: bool, read: Reader, summarize: Summarize)
    returns (written: seq<Written>)
    ensures written == ProcessOne(cwd, source, docsService, read, summarize)
  {
    var kind := Classify(FileType(Basename(source)));
    if kind == Gdoc && !docsService {
      return [];
    }
    if kind == Unsupported {
      return [];
    }
    var content := read(source, kind);
    written := SummarizeContent(cwd, source, content, summarize);
  }

  /** Some file of the list is a Google Doc by name. */
  predicate AnyGdoc(files: seq<string>)
  {
    exists k :: 0 <= k < |files| && EndsWith(Lower(files[k]), ".gdoc")
  }

  /** The files one run discovers, with the working directory as root. */
  function Discovered(cwd: seq<string>, targets: seq<string>, walk: seq<WalkEntry>, existing: set<string>): seq<string>
  {
    ToProcess(Join(cwd), AbsSummaries(cwd), Found(cwd, cwd, AbsTargets(cwd, targets), walk), existing)
  }

  /** The processing loop over the discovered files, in order. */
  method ProcessFiles(cwd: seq<string>, files: seq<string>, docsService: bool, read: Reader, summarize: Summarize)
    returns (writes: seq<Written>)
    ensures writes == ProcessAll(cwd, files, docsService, read, summarize)
  {
    writes := [];
    for i := 0 to |files|
      invariant writes == ProcessAll(cwd, files[..i], docsService, read, summarize)
    {
      var written := ProcessFile(cwd, files[i], docsService, read, summarize);
      ProcessAllSnoc(cwd, files, i, docsService, read, summarize);
      writes := writes + written;
    }
    assert files[..|files|] == files;
  }

  /**
   * process_discovered_files: discovers the files to process from the
   * working directory, asks for the Docs service only when one of them is a
   * Google Doc (`serviceAvailable` says whether that request succeeds), and
   * processes them in order, writing one summary per success.
   */
  method ProcessDiscoveredFiles(cwd: seq<string>, targets: seq<string>, walk: seq<WalkEntry>, existing: set<string>,
                                serviceAvailable: bool, read: Reader, summarize: Summarize)
    returns (writes: seq<Written>)
    ensures writes == ProcessAll(cwd, Discovered(cwd, targets, walk, existing),
                                 serviceAvailable && AnyGdoc(Discovered(cwd, targets, walk, existing)), read, summarize)
  {
    var files := DiscoverFilesToProcess(cwd, cwd, targets, walk, existing);
    if files == [] {
      return [];
    }
    var docsService := serviceAvailable && AnyGdoc(files);
    writes := ProcessFiles(cwd, files, docsService, read, summarize);
  }

  /** A document gets a summary exactly when it is a supported kind (a
      Google Doc only with the service), it reads, its content is not blank
      and summarising it succeeds; the summary written is the summariser's. */
  lemma ProcessOneWrites(cwd: seq<string>, source: string, docsService: bool, read: Reader, summarize: Summarize)
    ensures var kind := Classify(FileType(Basename(source)));
      var w := ProcessOne(cwd, source, docsService, read, summarize);
      && (w != [] <==>
            && kind != Unsupported && (kind == Gdoc ==> docsService)
            && read(source, kind).Content? && Strip(read(source, kind).text) != ""
            && summarize(read(source, kind).text).Ok?)
      && (w != [] ==> w == [Written(WritePath(cwd, source),
                                    summarize(read(source, kind).text).value)])
  {
  }

  function WrittenPaths(writes: seq<Written>): set<string>
  {
    set k | 0 <= k < |writes| :: writes[k].path
  }

  lemma WrittenPathsAppend(a: seq<Written>, b: seq<Written>)
    ensures WrittenPaths(a + b) == WrittenPaths(a) + WrittenPaths(b)
  {
    forall x | x in WrittenPaths(a + b) ensures x in WrittenPaths(a) + WrittenPaths(b) {
      var k :| 0 <= k < |a + b| && (a + b)[k].path == x;
      if k < |a| {
        assert a[k].path == x;
      } else {
        assert b[k - |a|].path == x;
      }
    }
    forall x | x in WrittenPaths(a) ensures x in WrittenPaths(a + b) {
      var k :| 0 <= k < |a| && a[k].path == x;
      assert (a + b)[k].path == x;
    }
    forall x | x in WrittenPaths(b) ensures x in WrittenPaths(a + b) {
      var k :| 0 <= k < |b| && b[k].path == x;
      assert (a + b)[|a| + k].path == x;
    }
  }

  /** Every summary path lies inside the summaries directory. */
  lemma SummaryPathInside(base: string, absSummaries: string, source: string)
    ensures StartsWith(SummaryPathFor(base, absSummaries, source), absSummaries + "/")
  {
    var p := SummaryPathFor(base, absSummaries, source);
    assert p[..|absSummaries| + 1] == absSummaries + "/";
  }

  /** One document writes at most one summary, at the path the loop
      computes, which is the path discovery looks for and lies inside the
      summaries directory. */
  lemma ProcessOneShape(cwd: seq<string>, source: string, docsService: bool, read: Reader, summarize: Summarize)
    ensures var w := ProcessOne(cwd, source, docsService, read, summarize);
      w == [] || (|w| == 1 && w[0].path == WritePath(cwd, source)
                  && w[0].path == SummaryPathFor(Join(cwd), AbsSummaries(cwd), source)
                  && StartsWith(w[0].path, AbsSummaries(cwd) + "/"))
  {
    WritePathIsSummaryPath(cwd, source);
    SummaryPathInside(Join(cwd), AbsSummaries(cwd), source);
  }

  /** Every document that got a summary has its summary path among the paths
      written. */
  lemma {:induction false} WrittenCovers(cwd: seq<string>, files: seq<string>, docsService: bool, read: Reader, summarize: Summarize)
    ensures forall p :: p in files && ProcessOne(cwd, p, docsService, read, summarize) != [] ==>
              SummaryPathFor(Join(cwd), AbsSummaries(cwd), p) in WrittenPaths(ProcessAll(cwd, files, docsService, read, summarize))
  {
    if files != [] {
      var head := ProcessOne(cwd, files[0], docsService, read, summarize);
      var rest := ProcessAll(cwd, files[1..], docsService, read, summarize);
      assert ProcessAll(cwd, files, docsService, read, summarize) == head + rest;
      WrittenCovers(cwd, files[1..], docsService, read, summarize);
      ProcessOneShape(cwd, files[0], docsService, read, summarize);
      WrittenPathsAppend(head, rest);
      if head != [] {
        assert head[0].path in WrittenPaths(head);
      }
    }
  }

  /** A document processed successfully in one run is not discovered in any
      later run once its summary exists: the write-time path and the
      discovery-time path are the same when discovery starts from the
      working directory. */
  lemma RerunSkipsSummarised(cwd: seq<string>, files: seq<string>, docsService: bool, read: Reader, summarize: Summarize,
                             targets: seq<string>, laterWalk: seq<WalkEntry>, laterExisting: set<string>, p: string)
    requires p in files && ProcessOne(cwd, p, docsService, read, summarize) != []
    requires WrittenPaths(ProcessAll(cwd, files, docsService, read, summarize)) <= laterExisting
    ensures p !in Discovered(cwd, targets, laterWalk, laterExisting)
  {
    WrittenCovers(cwd, files, docsService, read, summarize);
    ToProcessMembers(Join(cwd), AbsSummaries(cwd), Found(cwd, cwd, AbsTargets(cwd, targets), laterWalk), laterExisting);
  }

  /** Every path written is the summary path of a document of the list that
      got a summary. */
  lemma {:induction false} WrittenFrom(cwd: seq<string>, files: seq<string>, docsService: bool, read: Reader, summarize: Summarize)
    ensures forall x :: x in WrittenPaths(ProcessAll(cwd, files, docsService, read, summarize)) ==>
              exists q :: q in files && ProcessOne(cwd, q, docsService, read, summarize) != []
                          && x == SummaryPathFor(Join(cwd), AbsSummaries(cwd), q)
  {
    if files == [] {
      assert ProcessAll(cwd, files, docsService, read, summarize) == [];
    } else {
      var head := ProcessOne(cwd, files[0], docsService, read, summarize);
      var rest := ProcessAll(cwd, files[1..], docsService, read, summarize);
      assert ProcessAll(cwd, files, docsService, read, summarize) == head + rest;
      WrittenFrom(cwd, files[1..], docsService, read, summarize);
      ProcessOneShape(cwd, files[0], docsService, read, summarize);
      WrittenPathsAppend(head, rest);
      forall x | x in WrittenPaths(head + rest)
        ensures exists q :: q in files && ProcessOne(cwd, q, docsService, read, summarize) != []
                            && x == SummaryPathFor(Join(cwd), AbsSummaries(cwd), q)
      {
        if x in WrittenPaths(head) {
          assert files[0] in files;
        } else {
          var q :| q in files[1..] && ProcessOne(cwd, q, docsService, read, summarize) != []
                   && x == SummaryPathFor(Join(cwd), AbsSummaries(cwd), q);
          assert q in files;
        }
      }
    }
  }

  /**
   * A document whose name is nothing but dots before a last extension (such
   * as `.pdf`) writes nothing, so the next run, over the same walk and with
   * every summary of this run now existing, discovers it again, unless some
   * other document's summary took its summary path.
   */
  lemma DotsOnlyNameRediscovered(cwd: seq<string>, targets: seq<string>, walk: seq<WalkEntry>, existing: set<string>,
                                 docsService: bool, read: Reader, summarize: Summarize,
                                 p: string, front: string, ext: string)
    requires OnlyDots(front) && '.' !in ext && Basename(p) == front + "." + ext
    requires p in Discovered(cwd, targets, walk, existing)
    requires forall q :: q in Discovered(cwd, targets, walk, existing) && ProcessOne(cwd, q, docsService, read, summarize) != [] ==>
               SummaryPathFor(Join(cwd), AbsSummaries(cwd), q) != SummaryPathFor(Join(cwd), AbsSummaries(cwd), p)
    ensures ProcessOne(cwd, p, docsService, read, summarize) == []
    ensures p in Discovered(cwd, targets, walk,
                            existing + WrittenPaths(ProcessAll(cwd, Discovered(cwd, targets, walk, existing), docsService, read, summarize)))
  {
    FileTypeHidden(front, ext);
    ClassifyNames();
    var files := Discovered(cwd, targets, walk, existing);
    var written := WrittenPaths(ProcessAll(cwd, files, docsService, read, summarize));
    WrittenFrom(cwd, files, docsService, read, summarize);
    var found := Found(cwd, cwd, AbsTargets(cwd, targets), walk);
    ToProcessMembers(Join(cwd), AbsSummaries(cwd), found, existing);
    ToProcessMembers(Join(cwd), AbsSummaries(cwd), found, existing + written);
  }

  /** A document the processing loop would summarise: a supported kind (a
      Google Doc only with the service) whose content reads as `text` and
      is not blank. */
  predicate Summarisable(source: string, docsService: bool, read: Reader, text: string)
  {
    var kind := Classify(FileType(Basename(source)));
    kind != Unsupported && (kind == Gdoc ==> docsService) && read(source, kind) == Content(text) && Strip(text) != ""
  }

  /** With the reducer as summariser, a summarisable document gets, at its
      summary path, exactly what the whole pipeline returns for its text. */
  lemma SummarizerWrites(cwd: seq<string>, source: string, docsService: bool, read: Reader,
                         oracle: Reducer.Oracle, text: string)
    requires Summarisable(source, docsService, read, text) && Reducer.Summarize(text, oracle).outcome.Ok?
    ensures ProcessOne(cwd, source, docsService, read, Summarizer(oracle))
            == [Written(WritePath(cwd, source), Reducer.Summarize(text, oracle).outcome.value)]
  {
    SummarizerApply(oracle, text);
    ProcessOneWritesReply(cwd, source, docsService, read, Summarizer(oracle), text);
  }

  lemma ProcessOneWritesReply(cwd: seq<string>, source: string, docsService: bool, read: Reader, summarize: Summarize, text: string)
    requires Summarisable(source, docsService, read, text) && summarize(text).Ok?
    ensures ProcessOne(cwd, source, docsService, read, summarize) == [Written(WritePath(cwd, source), summarize(text).value)]
  {
  }

  lemma SummarizerApply(oracle: Reducer.Oracle, text: string)
    ensures Summarizer(oracle)(text) == Reducer.Summarize(text, oracle).outcome
  {
  }

  /** With the reducer as summariser, a summarisable document of at most
      10000 estimated tokens gets the reply to its single whole-document
      prompt as its summary. */
  lemma ShortDocumentSummaryWritten(cwd: seq<string>, source: string, docsService: bool, read: Reader,
                                    oracle: Reducer.Oracle, text: string)
    requires Summarisable(source, docsService, read, text) && CountTokens(text) <= ShortDocThreshold
    requires oracle(Prompts.Render(Prompts.WholeDocumentPrompt(StrategyFor(CountTokens(text)), "", text))).Ok?
    ensures ProcessOne(cwd, source, docsService, read, Summarizer(oracle))
            == [Written(WritePath(cwd, source),
                        oracle(Prompts.Render(Prompts.WholeDocumentPrompt(StrategyFor(CountTokens(text)), "", text))).value)]
  {
    SummarizerShort(oracle, text);
    ProcessOneWritesReply(cwd, source, docsService, read, Summarizer(oracle), text);
  }

  /** The reducer as summariser answers a short document with the reply to
      its whole-document prompt. */
  lemma SummarizerShort(oracle: Reducer.Oracle, text: string)
    requires CountTokens(text) <= ShortDocThreshold
    ensures Summarizer(oracle)(text) == oracle(Prompts.Render(Prompts.WholeDocumentPrompt(StrategyFor(CountTokens(text)), "", text)))
  {
    Reducer.ShortDocumentOneCall(text, oracle);
  }
}
