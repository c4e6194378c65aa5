/** The per-file conversion driver (mineru_vlm.py, `do_parse`): for each PDF of a
    batch, optionally cut it to a page range, prepare `<output>/<stem>/vlm`, run the
    layout model, and write the enabled artifacts one after another.  A failure at
    any step abandons that file only; what was already written stays on disk. */
module Conversion {
  import opened Seqs

  type Bytes = seq<bv8>

  /** The only backend `do_parse` accepts. */
  const TransformersBackend: string := "vlm-transformers"

  /** The key of the page list in the middle JSON. */
  const PdfInfoKey: string := "pdf_info"

  /** The files `do_parse` can write into `<stem>/vlm`, in the order it writes them. */
  datatype ArtifactKind = LayoutPdf | OriginPdf | Markdown | ContentList | MiddleJson | ModelOutput

  /** The six dump switches of `do_parse`. */
  datatype DumpFlags = DumpFlags(
    drawLayoutBbox: bool,
    dumpOrigPdf: bool,
    dumpMd: bool,
    dumpContentList: bool,
    dumpMiddleJson: bool,
    dumpModelOutput: bool)

  /** The settings `parse_doc` passes through to `do_parse`. */
  datatype ParseOptions = ParseOptions(
    backend: string,
    flags: DumpFlags,
    startPageId: int,
    endPageId: Option<int>)

  /** What the layout model returns: the middle JSON (each key with its list of
      page records) and the raw model output, one string per page. */
  datatype Analysis = Analysis(middleJson: map<string, seq<string>>, inferResult: seq<string>)

  /** The library calls `do_parse` makes, each answering `None` (or `false`) when it
      raises: page cropping, directory preparation for a stem, the layout model,
      drawing the layout boxes, rendering markdown, rendering the content list as
      JSON, serialising the middle JSON, and writing a file of a stem's directory. */
  datatype Pipeline = Pipeline(
    cropPages: (Bytes, int, Option<int>) -> Option<Bytes>,
    prepareEnv: string -> bool,
    analyze: Bytes -> Option<Analysis>,
    drawLayout: (seq<string>, Bytes) -> Option<Bytes>,
    renderMarkdown: seq<string> -> Option<string>,
    renderContentList: seq<string> -> Option<string>,
    dumpMiddleJson: map<string, seq<string>> -> Option<string>,
    writeOk: (string, string) -> bool)

  datatype Payload = PdfData(bytes: Bytes) | TextData(text: string)

  /** What one file's conversion leaves on disk: `<stem>/vlm` created, or one file
      written into it. */
  datatype Effect =
    | EnvPrepared(stem: string)
    | Wrote(stem: string, fileName: string, payload: Payload)

  /** The effects of one file's conversion and whether it got to the end. */
  datatype FileResult = FileResult(effects: seq<Effect>, completed: bool)

  function Enabled(flags: DumpFlags, k: ArtifactKind): bool
  {
    match k
    case LayoutPdf => flags.drawLayoutBbox
    case OriginPdf => flags.dumpOrigPdf
    case Markdown => flags.dumpMd
    case ContentList => flags.dumpContentList
    case MiddleJson => flags.dumpMiddleJson
    case ModelOutput => flags.dumpModelOutput
  }

  /** Position of an artifact in the order the driver writes them. */
  function Rank(k: ArtifactKind): nat
  {
    match k
    case LayoutPdf => 0
    case OriginPdf => 1
    case Markdown => 2
    case ContentList => 3
    case MiddleJson => 4
    case ModelOutput => 5
  }

  function Only(b: bool, k: ArtifactKind): seq<ArtifactKind>
  {
    if b then [k] else []
  }

  /** Every artifact kind, in the order `do_parse` writes them. */
  const ArtifactOrder: seq<ArtifactKind> := [LayoutPdf, OriginPdf, Markdown, ContentList, MiddleJson, ModelOutput]

  /** The kinds of `ks` the flags switch on, keeping their order. */
  function SelectFrom(flags: DumpFlags, ks: seq<ArtifactKind>): seq<ArtifactKind>
  {
    if ks == [] then [] else Only(Enabled(flags, ks[0]), ks[0]) + SelectFrom(flags, ks[1..])
  }

  /** The artifacts the flags switch on, in writing order. */
  function SelectedArtifacts(flags: DumpFlags): seq<ArtifactKind>
  {
    SelectFrom(flags, ArtifactOrder)
  }

  lemma {:induction false} SelectFromMembers(flags: DumpFlags, ks: seq<ArtifactKind>, k: ArtifactKind)
    ensures k in SelectFrom(flags, ks) <==> k in ks && Enabled(flags, k)
  {
    if ks != [] {
      SelectFromMembers(flags, ks[1..], k);
      assert ks == [ks[0]] + ks[1..];
    }
  }

  /** Strictly increasing writing positions: in order, and no kind twice. */
  predicate RankIncreasing(ks: seq<ArtifactKind>)
  {
    forall i, j :: 0 <= i < j < |ks| ==> Rank(ks[i]) < Rank(ks[j])
  }

  lemma {:induction false} SelectFromOrdered(flags: DumpFlags, ks: seq<ArtifactKind>)
    requires RankIncreasing(ks)
    ensures RankIncreasing(SelectFrom(flags, ks))
  {
    if ks != [] {
      var tail := SelectFrom(flags, ks[1..]);
      SelectFromOrdered(flags, ks[1..]);
      var r := SelectFrom(flags, ks);
      if Enabled(flags, ks[0]) {
        assert r == [ks[0]] + tail;
        forall i, j | 0 <= i < j < |r| ensures Rank(r[i]) < Rank(r[j]) {
          assert r[j] == tail[j - 1];
          if i == 0 {
            SelectFromMembers(flags, ks[1..], r[j]);
            var m :| 0 <= m < |ks[1..]| && ks[1..][m] == r[j];
            assert ks[m + 1] == r[j];
          } else {
            assert r[i] == tail[i - 1];
          }
        }
      } else {
        assert r == tail;
      }
    }
  }

  /** The selection holds exactly the switched-on artifacts, each once, in writing
      order. */
  lemma SelectedArtifactsCorrect(flags: DumpFlags)
    ensures forall k :: k in SelectedArtifacts(flags) <==> Enabled(flags, k)
    ensures RankIncreasing(SelectedArtifacts(flags))
  {
    forall k ensures k in SelectedArtifacts(flags) <==> Enabled(flags, k) {
      SelectFromMembers(flags, ArtifactOrder, k);
    }
    assert forall i :: 0 <= i < |ArtifactOrder| ==> Rank(ArtifactOrder[i]) == i;
    SelectFromOrdered(flags, ArtifactOrder);
  }

  /** The selection from position `i` of the writing order on: the artifact at `i`
      if switched on, then the selection from `i + 1`. */
  lemma SelectStep(flags: DumpFlags, i: nat)
    requires i < |ArtifactOrder|
    ensures SelectFrom(flags, ArtifactOrder[i..])
         == Only(Enabled(flags, ArtifactOrder[i]), ArtifactOrder[i]) + SelectFrom(flags, ArtifactOrder[i + 1..])
  {
    assert ArtifactOrder[i..][1..] == ArtifactOrder[i + 1..];
  }

  /** What follows the stem in each artifact's file name. */
  function ArtifactTail(k: ArtifactKind): string
  {
    match k
    case LayoutPdf => "_layout.pdf"
    case OriginPdf => "_origin.pdf"
    case Markdown => ".md"
    case ContentList => "_content_list.json"
    case MiddleJson => "_middle.json"
    case ModelOutput => "_model_output.txt"
  }

  function ArtifactFileName(stem: string, k: ArtifactKind): (name: string)
    ensures |name| > |stem| && name[..|stem|] == stem
  {
    stem + ArtifactTail(k)
  }

  /** Different artifacts of one stem never share a file name. */
  lemma ArtifactFileNamesDistinct(stem: string, k: ArtifactKind, k': ArtifactKind)
    requires k != k'
    ensures ArtifactFileName(stem, k) != ArtifactFileName(stem, k')
  {
    var a, b := ArtifactFileName(stem, k), ArtifactFileName(stem, k');
    assert a[|stem|..] == ArtifactTail(k);
    assert b[|stem|..] == ArtifactTail(k');
  }

  /** The separator between pages in the model output file: a newline, fifty
      dashes and a newline. */
  const Separator: string := "\n--------------------------------------------------\n"

  /** Python's `sep.join(parts)`. */
  function Join(sep: string, parts: seq<string>): string
  {
    if parts == [] then ""
    else if |parts| == 1 then parts[0]
    else Join(sep, parts[..|parts| - 1]) + sep + parts[|parts| - 1]
  }

  /** The content of the model output file. */
  function JoinModelOutput(parts: seq<string>): string
  {
    Join(Separator, parts)
  }

  function TotalLength(parts: seq<string>): nat
  {
    if parts == [] then 0 else TotalLength(parts[..|parts| - 1]) + |parts[|parts| - 1]|
  }

  /** The joined text holds every part and one separator between neighbours. */
  lemma {:induction false} JoinLength(sep: string, parts: seq<string>)
    ensures parts != [] ==> |Join(sep, parts)| == TotalLength(parts) + |sep| * (|parts| - 1)
  {
    if |parts| > 1 {
      JoinLength(sep, parts[..|parts| - 1]);
    }
  }

  /** Joining two non-empty lists is joining each and putting one separator between. */
  lemma {:induction false} JoinAppend(sep: string, a: seq<string>, b: seq<string>)
    requires a != [] && b != []
    ensures Join(sep, a + b) == Join(sep, a) + sep + Join(sep, b)
    decreases |b|
  {
    var ab := a + b;
    var last := b[|b| - 1];
    assert ab[|ab| - 1] == last;
    if |b| == 1 {
      assert ab[..|ab| - 1] == a;
    } else {
      var b' := b[..|b| - 1];
      assert ab[..|ab| - 1] == a + b';
      JoinAppend(sep, a, b');
    }
  }

  /** The model output of `n` pages is `52 * (n - 1)` characters longer than the
      pages themselves, and the output of a longer page list extends that of
      its first pages by the separator and the rest. */
  lemma ModelOutputLayout(parts: seq<string>, more: seq<string>)
    ensures |Separator| == 52
    ensures parts != [] ==> |JoinModelOutput(parts)| == TotalLength(parts) + 52 * (|parts| - 1)
    ensures parts != [] && more != [] ==>
      JoinModelOutput(parts + more) == JoinModelOutput(parts) + Separator + JoinModelOutput(more)
  {
    JoinLength(Separator, parts);
    if parts != [] && more != [] {
      JoinAppend(Separator, parts, more);
    }
  }

  /** A page range is applied only when one was asked for:
      `start_page_id > 0 or end_page_id is not None`. */
  predicate NeedsPageRange(startPageId: int, endPageId: Option<int>)
  {
    startPageId > 0 || endPageId.Some?
  }

  /** The bytes the model sees, or `None` when cropping raised. */
  function Cropped(pdf: Bytes, opts: ParseOptions, pl: Pipeline): Option<Bytes>
  {
    if NeedsPageRange(opts.startPageId, opts.endPageId)
    then pl.cropPages(pdf, opts.startPageId, opts.endPageId)
    else Some(pdf)
  }

  /** The content of one artifact, or `None` when producing it raised.  The origin
      PDF is the (possibly cropped) input; the model output is the model's pages
      joined by the separator. */
  function ArtifactPayload(pl: Pipeline, k: ArtifactKind, pdf: Bytes, a: Analysis, pdfInfo: seq<string>)
    : Option<Payload>
  {
    match k
    case LayoutPdf =>
      (match pl.drawLayout(pdfInfo, pdf) case None => None case Some(b) => Some(PdfData(b)))
    case OriginPdf => Some(PdfData(pdf))
    case Markdown =>
      (match pl.renderMarkdown(pdfInfo) case None => None case Some(t) => Some(TextData(t)))
    case ContentList =>
      (match pl.renderContentList(pdfInfo) case None => None case Some(t) => Some(TextData(t)))
    case MiddleJson =>
      (match pl.dumpMiddleJson(a.middleJson) case None => None case Some(t) => Some(TextData(t)))
    case ModelOutput => Some(TextData(JoinModelOutput(a.inferResult)))
  }

  /** Whether artifact `k` can be produced and written. */
  predicate ArtifactOk(stem: string, pl: Pipeline, k: ArtifactKind, pdf: Bytes, a: Analysis, pdfInfo: seq<string>)
  {
    ArtifactPayload(pl, k, pdf, a, pdfInfo).Some? && pl.writeOk(stem, ArtifactFileName(stem, k))
  }

  /** Writing `kinds` in order until the first one that raises. */
  function Writes(stem: string, kinds: seq<ArtifactKind>, pl: Pipeline, pdf: Bytes, a: Analysis, pdfInfo: seq<string>)
    : FileResult
  {
    if kinds == [] then FileResult([], true)
    else if !ArtifactOk(stem, pl, kinds[0], pdf, a, pdfInfo) then FileResult([], false)
    else
      var rest := Writes(stem, kinds[1..], pl, pdf, a, pdfInfo);
      var w := Wrote(stem, ArtifactFileName(stem, kinds[0]), ArtifactPayload(pl, kinds[0], pdf, a, pdfInfo).value);
      FileResult([w] + rest.effects, rest.completed)
  }

  /** The body of the `try` block for one file. */
  function FileRun(stem: string, pdf: Bytes, opts: ParseOptions, pl: Pipeline): FileResult
  {
    var cropped := Cropped(pdf, opts, pl);
    if cropped.None? || !pl.prepareEnv(stem) then FileResult([], false)
    else
      match pl.analyze(cropped.value)
      case None => FileResult([EnvPrepared(stem)], false)
      case Some(a) =>
        if PdfInfoKey !in a.middleJson then FileResult([EnvPrepared(stem)], false)
        else
          var w := Writes(stem, SelectedArtifacts(opts.flags), pl, cropped.value, a, a.middleJson[PdfInfoKey]);
          FileResult([EnvPrepared(stem)] + w.effects, w.completed)
  }

  /** The writes are a prefix of the artifact list, each with its own name and
      content; they stop exactly at the first artifact that cannot be produced or
      written, and the run completes exactly when none fails. */
  lemma {:induction false} WritesPrefix(stem: string, kinds: seq<ArtifactKind>, pl: Pipeline, pdf: Bytes, a: Analysis, pdfInfo: seq<string>)
    ensures var w := Writes(stem, kinds, pl, pdf, a, pdfInfo);
      && |w.effects| <= |kinds|
      && (forall j :: 0 <= j < |w.effects| ==>
            && ArtifactOk(stem, pl, kinds[j], pdf, a, pdfInfo)
            && w.effects[j] == Wrote(stem, ArtifactFileName(stem, kinds[j]),
                                     ArtifactPayload(pl, kinds[j], pdf, a, pdfInfo).value))
      && (w.completed <==> |w.effects| == |kinds|)
      && (!w.completed ==> !ArtifactOk(stem, pl, kinds[|w.effects|], pdf, a, pdfInfo))
  {
    if kinds != [] && ArtifactOk(stem, pl, kinds[0], pdf, a, pdfInfo) {
      var rest := kinds[1..];
      WritesPrefix(stem, rest, pl, pdf, a, pdfInfo);
      var w := Writes(stem, kinds, pl, pdf, a, pdfInfo);
      var wr := Writes(stem, rest, pl, pdf, a, pdfInfo);
      assert w.effects[1..] == wr.effects;
      forall j | 0 < j < |w.effects|
        ensures w.effects[j] == Wrote(stem, ArtifactFileName(stem, kinds[j]),
                                      ArtifactPayload(pl, kinds[j], pdf, a, pdfInfo).value)
      {
        assert w.effects[j] == wr.effects[j - 1] && kinds[j] == rest[j - 1];
      }
    }
  }

  /** A run completes exactly when cropping, preparation and analysis succeed, the
      middle JSON has its page list, and every selected artifact can be produced
      and written. */
  lemma FileRunCompletes(stem: string, pdf: Bytes, opts: ParseOptions, pl: Pipeline)
    ensures FileRun(stem, pdf, opts, pl).completed <==>
      && Cropped(pdf, opts, pl).Some?
      && pl.prepareEnv(stem)
      && pl.analyze(Cropped(pdf, opts, pl).value).Some?
      && var a := pl.analyze(Cropped(pdf, opts, pl).value).value;
         && PdfInfoKey in a.middleJson
         && forall k :: Enabled(opts.flags, k) ==>
              ArtifactOk(stem, pl, k, Cropped(pdf, opts, pl).value, a, a.middleJson[PdfInfoKey])
  {
    var cropped := Cropped(pdf, opts, pl);
    if cropped.Some? && pl.prepareEnv(stem) && pl.analyze(cropped.value).Some? {
      var a := pl.analyze(cropped.value).value;
      if PdfInfoKey in a.middleJson {
        var kinds := SelectedArtifacts(opts.flags);
        SelectedArtifactsCorrect(opts.flags);
        WritesPrefix(stem, kinds, pl, cropped.value, a, a.middleJson[PdfInfoKey]);
        var w := Writes(stem, kinds, pl, cropped.value, a, a.middleJson[PdfInfoKey]);
        if !w.completed {
          var k := kinds[|w.effects|];
          assert k in kinds;
        } else {
          forall k | Enabled(opts.flags, k)
            ensures ArtifactOk(stem, pl, k, cropped.value, a, a.middleJson[PdfInfoKey])
          {
            var j :| 0 <= j < |kinds| && kinds[j] == k;
          }
        }
      }
    }
  }

  /** Everything a run does is under its own stem: it first prepares the stem's
      directory, then writes files named after the stem. */
  lemma FileRunStaysInStem(stem: string, pdf: Bytes, opts: ParseOptions, pl: Pipeline)
    ensures var r := FileRun(stem, pdf, opts, pl);
      && (r.effects != [] ==> r.effects[0] == EnvPrepared(stem))
      && (forall j :: 0 < j < |r.effects| ==>
            r.effects[j].Wrote? && r.effects[j].stem == stem
            && exists k :: Enabled(opts.flags, k) && r.effects[j].fileName == ArtifactFileName(stem, k))
      && (r.effects == [] ==> !r.completed)
  {
    var cropped := Cropped(pdf, opts, pl);
    if cropped.Some? && pl.prepareEnv(stem) && pl.analyze(cropped.value).Some? {
      var a := pl.analyze(cropped.value).value;
      if PdfInfoKey in a.middleJson {
        var kinds := SelectedArtifacts(opts.flags);
        SelectedArtifactsCorrect(opts.flags);
        WritesPrefix(stem, kinds, pl, cropped.value, a, a.middleJson[PdfInfoKey]);
        var r := FileRun(stem, pdf, opts, pl);
        forall j | 0 < j < |r.effects|
          ensures r.effects[j].Wrote? && r.effects[j].stem == stem
               && exists k :: Enabled(opts.flags, k) && r.effects[j].fileName == ArtifactFileName(stem, k)
        {
          assert kinds[j - 1] in kinds;
        }
      }
    }
  }

  /** A run that completes has got through cropping, preparation and analysis,
      and its effects are the preparation followed by the completed writes. */
  lemma CompletedRunShape(stem: string, pdf: Bytes, opts: ParseOptions, pl: Pipeline)
    requires FileRun(stem, pdf, opts, pl).completed
    ensures Cropped(pdf, opts, pl).Some? && pl.prepareEnv(stem)
    ensures var cropped := Cropped(pdf, opts, pl).value;
      && pl.analyze(cropped).Some?
      && var a := pl.analyze(cropped).value;
         && PdfInfoKey in a.middleJson
         && var w := Writes(stem, SelectedArtifacts(opts.flags), pl, cropped, a, a.middleJson[PdfInfoKey]);
            w.completed && FileRun(stem, pdf, opts, pl).effects == [EnvPrepared(stem)] + w.effects
  {
  }

  /** Writes that complete include every artifact of the list with its content. */
  lemma CompletedWritesInclude(stem: string, kinds: seq<ArtifactKind>, pl: Pipeline, pdf: Bytes, a: Analysis,
                               pdfInfo: seq<string>, k: ArtifactKind)
    requires Writes(stem, kinds, pl, pdf, a, pdfInfo).completed && k in kinds
    ensures ArtifactOk(stem, pl, k, pdf, a, pdfInfo)
    ensures Wrote(stem, ArtifactFileName(stem, k), ArtifactPayload(pl, k, pdf, a, pdfInfo).value)
            in Writes(stem, kinds, pl, pdf, a, pdfInfo).effects
  {
    WritesPrefix(stem, kinds, pl, pdf, a, pdfInfo);
    var j :| 0 <= j < |kinds| && kinds[j] == k;
    assert Writes(stem, kinds, pl, pdf, a, pdfInfo).effects[j]
        == Wrote(stem, ArtifactFileName(stem, k), ArtifactPayload(pl, k, pdf, a, pdfInfo).value);
  }

  /** A completed run has written every selected artifact with its content. */
  lemma CompletedRunWroteArtifact(stem: string, pdf: Bytes, opts: ParseOptions, pl: Pipeline, k: ArtifactKind)
    requires FileRun(stem, pdf, opts, pl).completed && Enabled(opts.flags, k)
    ensures var cropped := Cropped(pdf, opts, pl).value;
      var a := pl.analyze(cropped).value;
      exists p :: && Wrote(stem, ArtifactFileName(stem, k), p) in FileRun(stem, pdf, opts, pl).effects
                  && ArtifactPayload(pl, k, cropped, a, a.middleJson[PdfInfoKey]) == Some(p)
  {
    CompletedRunShape(stem, pdf, opts, pl);
    var cropped := Cropped(pdf, opts, pl).value;
    var a := pl.analyze(cropped).value;
    var pdfInfo := a.middleJson[PdfInfoKey];
    var kinds := SelectedArtifacts(opts.flags);
    SelectedArtifactsCorrect(opts.flags);
    CompletedWritesInclude(stem, kinds, pl, cropped, a, pdfInfo, k);
    var p := ArtifactPayload(pl, k, cropped, a, pdfInfo).value;
    var w := Writes(stem, kinds, pl, cropped, a, pdfInfo);
    assert Wrote(stem, ArtifactFileName(stem, k), p) in [EnvPrepared(stem)] + w.effects;
  }

  /** The model output file holds the model's pages joined by the separator. */
  lemma ModelOutputContent(stem: string, pdf: Bytes, opts: ParseOptions, pl: Pipeline)
    requires FileRun(stem, pdf, opts, pl).completed && opts.flags.dumpModelOutput
    ensures var a := pl.analyze(Cropped(pdf, opts, pl).value).value;
      Wrote(stem, stem + "_model_output.txt", TextData(JoinModelOutput(a.inferResult)))
        in FileRun(stem, pdf, opts, pl).effects
  {
    CompletedRunWroteArtifact(stem, pdf, opts, pl, ModelOutput);
  }

  /** The origin PDF is the input, cut to the page range only when one was asked for. */
  lemma OriginPdfContent(stem: string, pdf: Bytes, opts: ParseOptions, pl: Pipeline)
    requires FileRun(stem, pdf, opts, pl).completed && opts.flags.dumpOrigPdf
    ensures !NeedsPageRange(opts.startPageId, opts.endPageId) ==>
      Wrote(stem, stem + "_origin.pdf", PdfData(pdf)) in FileRun(stem, pdf, opts, pl).effects
    ensures NeedsPageRange(opts.startPageId, opts.endPageId) ==>
      var cut := pl.cropPages(pdf, opts.startPageId, opts.endPageId);
      cut.Some? && Wrote(stem, stem + "_origin.pdf", PdfData(cut.value)) in FileRun(stem, pdf, opts, pl).effects
  {
    CompletedRunWroteArtifact(stem, pdf, opts, pl, OriginPdf);
  }

  /** One file of `do_parse`: the statements of its `try` block, which stop at the
      first call that raises. */
  method ParseOneFile(stem: string, pdf: Bytes, opts: ParseOptions, pl: Pipeline) returns (r: FileResult)
    ensures r == FileRun(stem, pdf, opts, pl)
  {
    var pdfBytes := pdf;
    if NeedsPageRange(opts.startPageId, opts.endPageId) {
      var cut := pl.cropPages(pdf, opts.startPageId, opts.endPageId);
      if cut.None? {
        return FileResult([], false);
      }
      pdfBytes := cut.value;
    }
    if !pl.prepareEnv(stem) {
      return FileResult([], false);
    }
    var effects := [EnvPrepared(stem)];
    var analysis := pl.analyze(pdfBytes);
    if analysis.None? || PdfInfoKey !in analysis.value.middleJson {
      return FileResult(effects, false);
    }
    var a := analysis.value;
    var written, ok := WriteArtifacts(stem, opts.flags, pl, pdfBytes, a, a.middleJson[PdfInfoKey]);
    r := FileResult(effects + written, ok);
  }

  /** One `if` block of the `try` block followed by the writes `rest` of the
      blocks after it: passed over when its switch is off, and ending the writes
      when the artifact cannot be produced or written. */
  function Block(stem: string, flags: DumpFlags, k: ArtifactKind, pl: Pipeline, pdf: Bytes, a: Analysis,
                 pdfInfo: seq<string>, rest: FileResult): FileResult
  {
    if !Enabled(flags, k) then rest
    else if !ArtifactOk(stem, pl, k, pdf, a, pdfInfo) then FileResult([], false)
    else
      var w := Wrote(stem, ArtifactFileName(stem, k), ArtifactPayload(pl, k, pdf, a, pdfInfo).value);
      FileResult([w] + rest.effects, rest.completed)
  }

  /** The `if` blocks from position `i` of the writing order on. */
  function WritesFrom(stem: string, flags: DumpFlags, i: nat, pl: Pipeline, pdf: Bytes, a: Analysis, pdfInfo: seq<string>)
    : FileResult
    requires i <= |ArtifactOrder|
    decreases |ArtifactOrder| - i
  {
    if i == |ArtifactOrder| then FileResult([], true)
    else Block(stem, flags, ArtifactOrder[i], pl, pdf, a, pdfInfo, WritesFrom(stem, flags, i + 1, pl, pdf, a, pdfInfo))
  }

  /** Going through the `if` blocks one by one writes exactly the selected
      artifacts, in order, up to the first failure. */
  lemma {:induction false} WritesFromSelection(stem: string, flags: DumpFlags, i: nat, pl: Pipeline, pdf: Bytes,
                                               a: Analysis, pdfInfo: seq<string>)
    requires i <= |ArtifactOrder|
    ensures WritesFrom(stem, flags, i, pl, pdf, a, pdfInfo)
         == Writes(stem, SelectFrom(flags, ArtifactOrder[i..]), pl, pdf, a, pdfInfo)
    decreases |ArtifactOrder| - i
  {
    if i < |ArtifactOrder| {
      WritesFromSelection(stem, flags, i + 1, pl, pdf, a, pdfInfo);
      SelectStep(flags, i);
      var k := ArtifactOrder[i];
      var rest := SelectFrom(flags, ArtifactOrder[i + 1..]);
      if Enabled(flags, k) {
        assert ([k] + rest)[1..] == rest;
      } else {
        assert Only(false, k) + rest == rest;
      }
    } else {
      assert ArtifactOrder[i..] == [];
    }
  }

  /** The six optional writes of the `try` block, in the source's order; the first
      one that raises ends them. */
  method WriteArtifacts(stem: string, flags: DumpFlags, pl: Pipeline, pdf: Bytes, a: Analysis, pdfInfo: seq<string>)
    returns (written: seq<Effect>, ok: bool)
    ensures FileResult(written, ok) == Writes(stem, SelectedArtifacts(flags), pl, pdf, a, pdfInfo)
  {
    WritesFromSelection(stem, flags, 0, pl, pdf, a, pdfInfo);
    assert ArtifactOrder[0..] == ArtifactOrder;
    written, ok := WriteIfEnabled(stem, flags, LayoutPdf, pl, pdf, a, pdfInfo, [], WritesFrom(stem, flags, 1, pl, pdf, a, pdfInfo));
    if ok {
      written, ok := WriteIfEnabled(stem, flags, OriginPdf, pl, pdf, a, pdfInfo, written, WritesFrom(stem, flags, 2, pl, pdf, a, pdfInfo));
    }
    if ok {
      written, ok := WriteIfEnabled(stem, flags, Markdown, pl, pdf, a, pdfInfo, written, WritesFrom(stem, flags, 3, pl, pdf, a, pdfInfo));
    }
    if ok {
      written, ok := WriteLastThree(stem, flags, pl, pdf, a, pdfInfo, written);
    }
  }

  /** The fourth to sixth `if` blocks, after the writes `written` of the first three. */
  method WriteLastThree(stem: string, flags: DumpFlags, pl: Pipeline, pdf: Bytes, a: Analysis,
                        pdfInfo: seq<string>, written: seq<Effect>)
    returns (written': seq<Effect>, ok: bool)
    ensures var all := WritesFrom(stem, flags, 3, pl, pdf, a, pdfInfo);
      written' == written + all.effects && ok == all.completed
  {
    written', ok := WriteIfEnabled(stem, flags, ContentList, pl, pdf, a, pdfInfo, written, WritesFrom(stem, flags, 4, pl, pdf, a, pdfInfo));
    if ok {
      written', ok := WriteIfEnabled(stem, flags, MiddleJson, pl, pdf, a, pdfInfo, written', WritesFrom(stem, flags, 5, pl, pdf, a, pdfInfo));
    }
    if ok {
      written', ok := WriteIfEnabled(stem, flags, ModelOutput, pl, pdf, a, pdfInfo, written', FileResult([], true));
    }
  }

  /** `if <switch of k>: <produce k and write it>`, before the writes `rest` of
      the blocks after it: the writes so far followed by the rest are those of
      the block, and a failure ends the writes. */
  method WriteIfEnabled(stem: string, flags: DumpFlags, k: ArtifactKind, pl: Pipeline, pdf: Bytes, a: Analysis,
                        pdfInfo: seq<string>, written: seq<Effect>, ghost rest: FileResult)
    returns (written': seq<Effect>, ok: bool)
    ensures var all := Block(stem, flags, k, pl, pdf, a, pdfInfo, rest);
      && (ok ==> written + all.effects == written' + rest.effects && all.completed == rest.completed)
      && (!ok ==> written' == written + all.effects && !all.completed)
  {
    if Enabled(flags, k) {
      written', ok := WriteArtifact(stem, k, pl, pdf, a, pdfInfo, written);
    } else {
      written', ok := written, true;
    }
  }

  /** Produces one artifact and writes it, appending the write to `effects`; `ok`
      is false when either step raises. */
  method WriteArtifact(stem: string, k: ArtifactKind, pl: Pipeline, pdf: Bytes, a: Analysis,
                       pdfInfo: seq<string>, effects: seq<Effect>)
    returns (effects': seq<Effect>, ok: bool)
    ensures ok == ArtifactOk(stem, pl, k, pdf, a, pdfInfo)
    ensures ok ==> effects' == effects + [Wrote(stem, ArtifactFileName(stem, k), ArtifactPayload(pl, k, pdf, a, pdfInfo).value)]
    ensures !ok ==> effects' == effects
  {
    var name := ArtifactFileName(stem, k);
    var payload := ArtifactPayload(pl, k, pdf, a, pdfInfo);
    if payload.None? || !pl.writeOk(stem, name) {
      return effects, false;
    }
    effects' := effects + [Wrote(stem, name, payload.value)];
    ok := true;
  }

  /** The runs of the files of a batch, file by file. */
  function FileRuns(names: seq<string>, pdfs: seq<Bytes>, opts: ParseOptions, pl: Pipeline): seq<FileResult>
    requires |pdfs| <= |names|
  {
    seq(|pdfs|, i requires 0 <= i < |pdfs| => FileRun(names[i], pdfs[i], opts, pl))
  }

  /** The effects of a list of runs, one run after the other. */
  function AllEffects(runs: seq<FileResult>): seq<Effect>
  {
    if runs == [] then [] else AllEffects(runs[..|runs| - 1]) + runs[|runs| - 1].effects
  }

  /** Whether each of a list of runs completed. */
  function Outcomes(runs: seq<FileResult>): seq<bool>
  {
    if runs == [] then [] else Outcomes(runs[..|runs| - 1]) + [runs[|runs| - 1].completed]
  }

  /** One flag per run, saying whether that run completed. */
  lemma {:induction false} OutcomesPerRun(runs: seq<FileResult>)
    ensures |Outcomes(runs)| == |runs|
    ensures forall i :: 0 <= i < |runs| ==> Outcomes(runs)[i] == runs[i].completed
  {
    if runs != [] {
      var init := runs[..|runs| - 1];
      OutcomesPerRun(init);
      assert forall i :: 0 <= i < |init| ==> init[i] == runs[i];
    }
  }

  /** An effect of the batch is an effect of one of its runs, and every effect of
      every run is one of the batch's: no run's writes are lost or invented. */
  lemma {:induction false} AllEffectsMembers(runs: seq<FileResult>, e: Effect)
    ensures e in AllEffects(runs) <==> exists i :: 0 <= i < |runs| && e in runs[i].effects
  {
    if runs != [] {
      var init, last := runs[..|runs| - 1], runs[|runs| - 1];
      AllEffectsMembers(init, e);
      if e in AllEffects(runs) && e !in last.effects {
        var i :| 0 <= i < |init| && e in init[i].effects;
        assert runs[i] == init[i];
      }
      if exists i :: 0 <= i < |runs| && e in runs[i].effects {
        var i :| 0 <= i < |runs| && e in runs[i].effects;
        if i < |init| {
          assert init[i] == runs[i];
        }
      }
    }
  }

  /** `do_parse`: with the supported backend every file of the batch is converted
      on its own, in order, and a failed file does not stop the others; any other
      backend converts nothing. */
  method DoParse(names: seq<string>, pdfs: seq<Bytes>, opts: ParseOptions, pl: Pipeline)
    returns (effects: seq<Effect>, completed: seq<bool>)
    requires |pdfs| <= |names|
    ensures opts.backend != TransformersBackend ==> effects == [] && completed == []
    ensures opts.backend == TransformersBackend ==>
      && effects == AllEffects(FileRuns(names, pdfs, opts, pl))
      && completed == Outcomes(FileRuns(names, pdfs, opts, pl))
  {
    effects, completed := [], [];
    if opts.backend != TransformersBackend {
      return;
    }
    ghost var runs := FileRuns(names, pdfs, opts, pl);
    var idx := 0;
    while idx < |pdfs|
      invariant 0 <= idx <= |pdfs|
      invariant effects == AllEffects(runs[..idx])
      invariant completed == Outcomes(runs[..idx])
    {
      var r := ParseOneFile(names[idx], pdfs[idx], opts, pl);
      assert r == runs[idx];
      assert runs[..idx + 1][..idx] == runs[..idx];
      effects := effects + r.effects;
      completed := completed + [r.completed];
      idx := idx + 1;
    }
    assert runs[..idx] == runs;
  }

  /** A batch's outcome flags are its files' own: file `i` is reported as completed
      exactly when its run completed, whatever the other files did. */
  lemma BatchOutcomes(names: seq<string>, pdfs: seq<Bytes>, opts: ParseOptions, pl: Pipeline)
    requires |pdfs| <= |names|
    ensures |Outcomes(FileRuns(names, pdfs, opts, pl))| == |pdfs|
    ensures forall i :: 0 <= i < |pdfs| ==>
      Outcomes(FileRuns(names, pdfs, opts, pl))[i] == FileRun(names[i], pdfs[i], opts, pl).completed
  {
    var runs := FileRuns(names, pdfs, opts, pl);
    OutcomesPerRun(runs);
    forall i | 0 <= i < |pdfs|
      ensures Outcomes(runs)[i] == FileRun(names[i], pdfs[i], opts, pl).completed
    {
      assert runs[i] == FileRun(names[i], pdfs[i], opts, pl);
    }
  }

  /** Every effect of a batch is under the directory of one of its files. */
  lemma BatchEffectsStems(names: seq<string>, pdfs: seq<Bytes>, opts: ParseOptions, pl: Pipeline)
    requires |pdfs| <= |names|
    ensures forall e :: e in AllEffects(FileRuns(names, pdfs, opts, pl)) ==> e.stem in names[..|pdfs|]
  {
    var runs := FileRuns(names, pdfs, opts, pl);
    forall e | e in AllEffects(runs) ensures e.stem in names[..|pdfs|] {
      AllEffectsMembers(runs, e);
      var i :| 0 <= i < |runs| && e in runs[i].effects;
      FileRunStaysInStem(names[i], pdfs[i], opts, pl);
      var j :| 0 <= j < |runs[i].effects| && runs[i].effects[j] == e;
      assert e.stem == names[i];
      assert names[..|pdfs|][i] == names[i];
    }
  }

  /** In a batch, every file whose run completed wrote each of its selected artifacts,
      with its content, at some point of the batch. A later file with the same stem
      may overwrite it. */
  lemma CompletedFilesWritten(names: seq<string>, pdfs: seq<Bytes>, opts: ParseOptions, pl: Pipeline, i: nat, k: ArtifactKind)
    requires i < |pdfs| <= |names|
    requires FileRun(names[i], pdfs[i], opts, pl).completed && Enabled(opts.flags, k)
    ensures var cropped := Cropped(pdfs[i], opts, pl).value;
      var a := pl.analyze(cropped).value;
      exists p :: && Wrote(names[i], ArtifactFileName(names[i], k), p) in AllEffects(FileRuns(names, pdfs, opts, pl))
                  && ArtifactPayload(pl, k, cropped, a, a.middleJson[PdfInfoKey]) == Some(p)
  {
    var runs := FileRuns(names, pdfs, opts, pl);
    CompletedRunWroteArtifact(names[i], pdfs[i], opts, pl, k);
    var cropped := Cropped(pdfs[i], opts, pl).value;
    var a := pl.analyze(cropped).value;
    var p :| && Wrote(names[i], ArtifactFileName(names[i], k), p) in FileRun(names[i], pdfs[i], opts, pl).effects
             && ArtifactPayload(pl, k, cropped, a, a.middleJson[PdfInfoKey]) == Some(p);
    assert runs[i] == FileRun(names[i], pdfs[i], opts, pl);
    AllEffectsMembers(runs, Wrote(names[i], ArtifactFileName(names[i], k), p));
  }
}
