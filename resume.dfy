/** Completion detection for resumable runs (process_paper.py:134-168): a PDF is
    skipped when an earlier run left a result file in `<output folder>/<stem>/vlm/`. */
module Resume {
  import opened PyOps
  import opened Seqs

  /** One entry of a `vlm/` directory listing. */
  datatype Entry = Entry(name: string, isFile: bool)

  /** What the output folder holds for one stem: whether `<stem>` is a directory,
      whether `<stem>/vlm` is one, and the entries of `<stem>/vlm`. */
  datatype StemDir = StemDir(isDir: bool, vlmIsDir: bool, vlmEntries: seq<Entry>)

  /** The output folder of one input folder, by stem; a stem that is not a key has
      nothing on disk under that name. */
  type OutputTree = map<string, StemDir>

  /** The suffixes that mark a conversion result. */
  const ResultSuffixes: seq<string> := [".md", ".json", ".txt"]

  predicate IsResultFile(e: Entry)
  {
    e.isFile && Suffix(e.name) in ResultSuffixes
  }

  /** `<stem>` and `<stem>/vlm` are directories and the latter holds a result file. */
  predicate IsParsed(tree: OutputTree, stem: string)
  {
    stem in tree && tree[stem].isDir && tree[stem].vlmIsDir
    && exists i :: 0 <= i < |tree[stem].vlmEntries| && IsResultFile(tree[stem].vlmEntries[i])
  }

  /** The scan of `vlm_dir.iterdir()` that stops at the first result file. */
  method HasResultFile(entries: seq<Entry>) returns (found: bool)
    ensures found <==> exists i :: 0 <= i < |entries| && IsResultFile(entries[i])
  {
    found := false;
    var i := 0;
    while i < |entries| && !found
      invariant 0 <= i <= |entries|
      invariant found <==> exists j :: 0 <= j < i && IsResultFile(entries[j])
    {
      if IsResultFile(entries[i]) {
        found := true;
      }
      i := i + 1;
    }
  }

  /** The PDFs still to convert, in discovery order. */
  function Pending(tree: OutputTree, pdfs: seq<Path>): seq<Path>
  {
    if pdfs == [] then []
    else
      var last := pdfs[|pdfs| - 1];
      Pending(tree, pdfs[..|pdfs| - 1]) + (if IsParsed(tree, Stem(last.name)) then [] else [last])
  }

  /** How many PDFs already have results. */
  function ParsedCount(tree: OutputTree, pdfs: seq<Path>): nat
  {
    if pdfs == [] then 0
    else
      ParsedCount(tree, pdfs[..|pdfs| - 1])
      + (if IsParsed(tree, Stem(pdfs[|pdfs| - 1].name)) then 1 else 0)
  }

  /** Every PDF is either skipped or kept. */
  lemma {:induction false} PendingCount(tree: OutputTree, pdfs: seq<Path>)
    ensures ParsedCount(tree, pdfs) + |Pending(tree, pdfs)| == |pdfs|
  {
    if pdfs != [] {
      PendingCount(tree, pdfs[..|pdfs| - 1]);
    }
  }

  /** The kept PDFs keep their discovery order. */
  lemma {:induction false} PendingIsSubsequence(tree: OutputTree, pdfs: seq<Path>)
    ensures IsSubsequence(Pending(tree, pdfs), pdfs)
  {
    if pdfs != [] {
      var init, last := pdfs[..|pdfs| - 1], pdfs[|pdfs| - 1];
      PendingIsSubsequence(tree, init);
      assert pdfs == init + [last];
      if IsParsed(tree, Stem(last.name)) {
        assert Pending(tree, pdfs) == Pending(tree, init);
        SubsequenceExtendRight(Pending(tree, init), init, last);
      } else {
        assert Pending(tree, pdfs) == Pending(tree, init) + [last];
        SubsequenceExtendBoth(Pending(tree, init), init, last);
      }
    }
  }

  /** The kept PDFs are exactly the ones without results. */
  lemma {:induction false} PendingMembers(tree: OutputTree, pdfs: seq<Path>, p: Path)
    ensures p in Pending(tree, pdfs) <==> p in pdfs && !IsParsed(tree, Stem(p.name))
  {
    if pdfs != [] {
      var init, last := pdfs[..|pdfs| - 1], pdfs[|pdfs| - 1];
      PendingMembers(tree, init, p);
      assert pdfs == init + [last];
    }
  }

  /** The filtering loop: keeps the PDFs without results and counts the others. */
  method FilterPdfs(tree: OutputTree, pdfs: seq<Path>) returns (filtered: seq<Path>, skippedCount: nat)
    ensures filtered == Pending(tree, pdfs)
    ensures skippedCount == ParsedCount(tree, pdfs)
    ensures skippedCount + |filtered| == |pdfs|
  {
    filtered := [];
    skippedCount := 0;
    var i := 0;
    while i < |pdfs|
      invariant 0 <= i <= |pdfs|
      invariant filtered == Pending(tree, pdfs[..i])
      invariant skippedCount == ParsedCount(tree, pdfs[..i])
    {
      var pdf := pdfs[i];
      var stem := Stem(pdf.name);
      assert pdfs[..i + 1][..i] == pdfs[..i];
      var skip := false;
      if stem in tree && tree[stem].isDir {
        var hasResults := false;
        if tree[stem].vlmIsDir {
          hasResults := HasResultFile(tree[stem].vlmEntries);
        }
        skip := hasResults;
      }
      if skip {
        skippedCount := skippedCount + 1;
      } else {
        filtered := filtered + [pdf];
      }
      i := i + 1;
    }
    assert pdfs[..i] == pdfs;
    PendingCount(tree, pdfs);
  }

  /** A markdown result `<stem>.md` in `<stem>/vlm` marks the PDF as done; an absent
      or empty `vlm` directory does not. */
  lemma {:induction false} MarkdownMarksParsed(tree: OutputTree, stem: string)
    requires |stem| > 0 && stem in tree && tree[stem].isDir && tree[stem].vlmIsDir
    requires Entry(stem + ".md", true) in tree[stem].vlmEntries
    ensures IsParsed(tree, stem)
  {
    SuffixOfAppended(stem, ".md");
    var k :| 0 <= k < |tree[stem].vlmEntries| && tree[stem].vlmEntries[k] == Entry(stem + ".md", true);
    assert IsResultFile(tree[stem].vlmEntries[k]);
  }

  /** Names that do not count as results: a file named just ".md" has no suffix, a
      directory is not a file, and the layout PDF has the wrong suffix. */
  lemma NonResultEntries()
    ensures !IsResultFile(Entry(".md", true))
    ensures !IsResultFile(Entry("a.md", false))
    ensures !IsResultFile(Entry("a_layout.pdf", true))
    ensures IsResultFile(Entry("a_model_output.txt", true))
  {
    SuffixOfAppended("a_layout", ".pdf");
    SuffixOfAppended("a_model_output", ".txt");
    assert "a_model_output" + ".txt" == "a_model_output.txt";
    assert LastDot(".md") == 0;
    assert ResultSuffixes[2] == ".txt";
  }
}
