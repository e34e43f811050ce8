/** The line-per-run form of src/freeweight/services/export.py, read back and compared with the JSON form. */
module JsonLines {
  import opened Canonical
  import opened Documents
  import opened Export
  import opened ExportReader
  import opened Results
  import opened Separators

  // ---------------------------------------------------------------------------------------
  // Lines
  // ---------------------------------------------------------------------------------------

  lemma {:induction false} NoBreak(line: string)
    requires forall i :: 0 <= i < |line| ==> !IsBreak(line[i])
    ensures BreakAt(line) == |line|
    ensures forall rest :: BreakAt(line + "\n" + rest) == |line|
  {
    hide IsBreak;
    if line == "" {
      forall rest ensures BreakAt(line + "\n" + rest) == |line| {
        assert (line + "\n" + rest)[0] == '\n';
        assert IsBreak('\n') by { NewlineBreaks(); }
      }
    } else {
      NoBreak(line[1..]);
      forall rest ensures BreakAt(line + "\n" + rest) == |line| {
        assert (line + "\n" + rest)[1..] == line[1..] + "\n" + rest;
      }
    }
  }

  lemma NewlineBreaks()
    ensures IsBreak('\n')
  {
  }

  /** Lines joined by newlines. */
  function Body(lines: seq<string>): string
    requires lines != []
  {
    if |lines| == 1 then lines[0] else lines[0] + "\n" + Body(lines[1..])
  }

  predicate Unbroken(line: string) { line != "" && forall i :: 0 <= i < |line| ==> !IsBreak(line[i]) }

  lemma {:induction false} LinesOfBody(lines: seq<string>)
    requires lines != [] && forall i :: 0 <= i < |lines| ==> Unbroken(lines[i])
    ensures Lines(Body(lines)) == lines && Body(lines) != ""
  {
    var line := lines[0];
    NoBreak(line);
    if |lines| == 1 {
      assert lines == [line];
    } else {
      var rest := Body(lines[1..]);
      LinesOfBody(lines[1..]);
      var text := line + "\n" + rest;
      assert text[..|line|] == line && text[|line| + 1..] == rest;
      assert lines == [line] + lines[1..];
    }
  }

  lemma {:induction false} FirstBreak(line: string, rest: string)
    requires exists i :: 0 <= i < |line| && IsBreak(line[i])
    ensures BreakAt(line + rest) == BreakAt(line) < |line|
  {
    hide IsBreak;
    if !IsBreak(line[0]) {
      var i :| 0 <= i < |line| && IsBreak(line[i]);
      assert line[1..][i - 1] == line[i];
      FirstBreak(line[1..], rest);
      assert (line + rest)[1..] == line[1..] + rest;
    }
  }

  predicate Opened(line: string) { line != "" && !IsBreak(line[0]) }

  lemma FirstLineCut(line: string, rest: string)
    requires Opened(line) && !Unbroken(line)
    ensures var n := BreakAt(line);
            && 0 < n < |line|
            && Lines(line + rest) != [] && Lines(line + rest)[0] == line[..n]
  {
    hide IsBreak;
    FirstBreak(line, rest);
    var n := BreakAt(line);
    assert (line + rest)[..n] == line[..n];
  }

  /** Where a line holds a break, splitting the text into lines cuts some line short. */
  lemma {:induction false} LinesCut(lines: seq<string>, at: nat) returns (k: nat, i: nat, n: nat)
    requires at < |lines| && !Unbroken(lines[at]) && forall i :: 0 <= i < |lines| ==> Opened(lines[i])
    ensures k < |Lines(Body(lines))| && i < |lines| && 0 < n < |lines[i]|
    ensures Lines(Body(lines))[k] == lines[i][..n]
  {
    hide IsBreak, Lines, BreakAt, Unbroken;
    var line := lines[0];
    assert Opened(line) && Opened(lines[at]);
    if Unbroken(line) {
      var k', i', n' := LinesCut(lines[1..], at - 1);
      LinesStep(line, Body(lines[1..]));
      k, i, n := k' + 1, i' + 1, n';
    } else {
      FirstLineCut(line, Body(lines)[|line|..]);
      assert Body(lines) == line + Body(lines)[|line|..];
      k, i, n := 0, 0, BreakAt(line);
    }
  }

  lemma LinesStep(line: string, rest: string)
    requires Unbroken(line)
    ensures Lines(line + "\n" + rest) == [line] + Lines(rest)
  {
    NoBreak(line);
    var text := line + "\n" + rest;
    assert text[..|line|] == line && text[|line| + 1..] == rest;
    hide IsBreak;
  }

  lemma {:induction false} BodyTrimmed(lines: seq<string>)
    requires lines != [] && forall i :: 0 <= i < |lines| ==> Trimmed(lines[i])
    ensures Trimmed(Body(lines)) && Body(lines)[0] == lines[0][0]
  {
    if |lines| > 1 {
      BodyTrimmed(lines[1..]);
      var rest := Body(lines[1..]);
      var text := lines[0] + "\n" + rest;
      assert text[|text| - 1] == rest[|rest| - 1] && text[0] == lines[0][0];
    }
  }

  lemma {:induction false} ChunksAreBody(chunks: seq<string>, lines: seq<string>)
    requires |chunks| == |lines| > 0 && forall i :: 0 <= i < |lines| ==> chunks[i] == lines[i] + "\n"
    ensures Cat(chunks) == Body(lines) + "\n"
  {
    assert chunks == [chunks[0]] + chunks[1..];
    if |chunks| == 1 {
      CatOne(chunks[0]);
    } else {
      ChunksAreBody(chunks[1..], lines[1..]);
      assert Cat(chunks) == chunks[0] + Cat(chunks[1..]);
      assert lines[0] + "\n" + (Body(lines[1..]) + "\n") == lines[0] + "\n" + Body(lines[1..]) + "\n";
    }
  }

  // ---------------------------------------------------------------------------------------
  // The line-per-run form
  // ---------------------------------------------------------------------------------------

  /** Each run's own envelope. */
  function LinesOf(stamp: Stamp, selection: Selection, runs: seq<Json>): (documents: seq<Json>)
    requires AllProfiles(runs)
    ensures |documents| == |runs|
    ensures forall i :: 0 <= i < |runs| ==> documents[i] == LineEnvelope(stamp, selection, runs[i])
  {
    if runs == [] then []
    else LinesOf(stamp, selection, runs[..|runs| - 1]) + [LineEnvelope(stamp, selection, runs[|runs| - 1])]
  }

  ghost function Prints(documents: seq<Json>): (lines: seq<string>)
    ensures |lines| == |documents|
    ensures forall i :: 0 <= i < |documents| ==> lines[i] == Print(documents[i])
  {
    if documents == [] then [] else Prints(documents[..|documents| - 1]) + [Print(documents[|documents| - 1])]
  }

  predicate Printable(j: Json) { j.Object? && Literals(j) }

  predicate AllPrintable(documents: seq<Json>) { forall i :: 0 <= i < |documents| ==> Printable(documents[i]) }

  predicate AllClean(documents: seq<Json>) { forall i :: 0 <= i < |documents| ==> Clean(documents[i]) }

  lemma LineUnbroken(j: Json)
    requires Printable(j) && Clean(j)
    ensures Unbroken(Print(j)) && Trimmed(Print(j)) && Print(j)[0] == '{'
  {
    hide Print, Literals, Clean;
    ObjectTrimmed(j);
    PrintFine(j, true);
  }

  lemma NothingPrinted()
    ensures LoadLines(Prints([])) == Ok([])
  {
  }

  lemma PrintLoads(j: Json)
    requires Printable(j)
    ensures Strip(Print(j)) != "" && Loads(Print(j)) == Decoded(j)
  {
    hide Print, Literals, Loads, Strip;
    ObjectTrimmed(j);
    StripTrimmed(Print(j));
    LoadsBack(j, "");
    assert Print(j) + "" == Print(j);
  }

  lemma {:induction false} LoadPrints(documents: seq<Json>)
    requires AllPrintable(documents)
    ensures LoadLines(Prints(documents)) == Ok(documents)
  {
    hide Print, Literals, Loads, Strip, Prints, Printable;
    if documents == [] {
      NothingPrinted();
    } else {
      var n := |documents| - 1;
      LoadPrints(documents[..n]);
      PrintLoads(documents[n]);
      assert Prints(documents)[..n] == Prints(documents[..n]);
      assert documents == documents[..n] + [documents[n]];
    }
  }

  /** A text of printed objects, one a line, is read as those documents. */
  lemma LinesRead(documents: seq<Json>)
    requires documents != [] && AllPrintable(documents) && (|documents| == 1 || AllClean(documents))
    ensures ReadExport(Body(Prints(documents)) + "\n") == ReadDocuments(documents)
  {
    hide Print, Literals, ReadDocument, ReadExport, ReadDocuments, Clean, Body, AllClean;
    assert Printable(documents[0]);
    if |documents| == 1 {
      assert documents == [documents[0]] && Prints(documents) == [Print(documents[0])];
      BodyOfOne(Print(documents[0]));
      DocumentReads(documents[0]);
      OneDocument(documents[0]);
    } else {
      ManyLinesRead(documents);
    }
  }

  lemma ManyLinesRead(documents: seq<Json>)
    requires |documents| > 1 && AllPrintable(documents) && AllClean(documents)
    ensures ReadExport(Body(Prints(documents)) + "\n") == ReadDocuments(documents)
  {
    hide Print, Literals, Loads, LoadLines, Lines, Strip, ReadDocuments, Clean, Body, Prints, Unbroken, Trimmed;
    var lines := Prints(documents);
    forall i | 0 <= i < |lines| ensures Unbroken(lines[i]) && Trimmed(lines[i]) {
      assert Printable(documents[i]) && Clean(documents[i]);
      LineUnbroken(documents[i]);
    }
    assert Printable(documents[0]);
    ObjectTrimmed(documents[0]);
    hide AllClean, AllPrintable;
    BodyTrimmed(lines);
    BodyTrimmed(lines[1..]);
    LinesOfBody(lines);
    StripTrimmed(Body(lines));
    LoadPrints(documents);
    ManyLinesRefused(documents[0], lines);
    LinesAreDocuments(Body(lines), documents);
  }

  lemma LinesAreDocuments(body: string, documents: seq<Json>)
    requires body != "" && body[0] == '{' && Loads(body) == DecodeError && '\n' in body
    requires Strip(body + "\n") == body && LoadLines(Lines(body)) == Ok(documents)
    ensures ReadExport(body + "\n") == ReadDocuments(documents)
  {
    hide Loads, LoadLines, Lines, Strip, ReadDocuments;
  }

  lemma BodyOfOne(line: string)
    ensures Body([line]) == line
  {
  }

  /** Decoding several lines at once fails, so each is decoded by itself. */
  lemma ManyLinesRefused(first: Json, lines: seq<string>)
    requires |lines| > 1 && Printable(first) && lines[0] == Print(first) && Trimmed(Body(lines[1..]))
    ensures Loads(Body(lines)) == DecodeError && '\n' in Body(lines)
  {
    hide Print, Literals, Loads;
    var rest := "\n" + Body(lines[1..]);
    assert Body(lines) == Print(first) + rest;
    assert rest[0] == '\n';
    assert !Blank(rest) by {
      assert rest[1] == Body(lines[1..])[0] && !Space(rest[1]);
    }
    LoadsBack(first, rest);
    assert Body(lines)[|Print(first)|] == '\n';
  }

  /** A printed object is one line exactly when no string or key in it holds a separator. */
  lemma UnbrokenExactly(j: Json)
    requires Printable(j)
    ensures Unbroken(Print(j)) <==> Clean(j)
    ensures Opened(Print(j)) && Print(j)[0] == '{'
  {
    hide Print, Literals, Clean;
    ObjectTrimmed(j);
    PrintFine(j, false);
    if Clean(j) {
      LineUnbroken(j);
    }
    if Unbroken(Print(j)) {
      assert Fine(Print(j), true);
      PrintShows(j);
    }
  }

  lemma {:induction false} UndecodedLine(lines: seq<string>, k: nat)
    requires k < |lines| && Strip(lines[k]) != "" && Loads(lines[k]) == DecodeError
    ensures LoadLines(lines) == ValueError
  {
    hide Loads, Strip;
    if k < |lines| - 1 {
      UndecodedLine(lines[..|lines| - 1], k);
    }
  }

  lemma {:induction false} SomethingStays(text: string)
    requires text != "" && !IsSpace(text[0])
    ensures Strip(text) == StripRight(text) != ""
  {
    hide IsSpace;
    if |text| > 1 && IsSpace(text[|text| - 1]) {
      SomethingStays(text[..|text| - 1]);
    }
  }

  /** Among several lines of printed objects, one that holds a separator makes the whole text unreadable. */
  lemma BrokenLinesRefused(documents: seq<Json>, at: nat)
    requires |documents| > 1 && AllPrintable(documents) && at < |documents| && !Clean(documents[at])
    ensures ReadExport(Body(Prints(documents)) + "\n") == ValueError
  {
    hide Print, Literals, Loads, LoadLines, Lines, Strip, Clean, Body, Prints, Unbroken, Trimmed, Opened, IsSpace;
    var lines := Prints(documents);
    forall i | 0 <= i < |lines| ensures Trimmed(lines[i]) && Opened(lines[i]) {
      assert Printable(documents[i]);
      ObjectTrimmed(documents[i]);
      UnbrokenExactly(documents[i]);
    }
    assert Printable(documents[at]) && Printable(documents[0]);
    UnbrokenExactly(documents[at]);
    UnbrokenExactly(documents[0]);
    BodyTrimmed(lines);
    BodyTrimmed(lines[1..]);
    StripTrimmed(Body(lines));
    ManyLinesRefused(documents[0], lines);
    var k, i, n := LinesCut(lines, at);
    CutIsRefused(documents[i], n);
    UndecodedLine(Lines(Body(lines)), k);
    BodyIsRefused(Body(lines));
  }

  lemma CutIsRefused(j: Json, n: nat)
    requires Printable(j) && 0 < n < |Print(j)|
    ensures Loads(Print(j)[..n]) == DecodeError && Strip(Print(j)[..n]) != ""
  {
    ObjectTrimmed(j);
    PrefixRefused(j, n);
    hide Print, Loads, Literals, Strip;
    SomethingStays(Print(j)[..n]);
  }

  lemma BodyIsRefused(body: string)
    requires body != "" && body[0] == '{' && Loads(body) == DecodeError && '\n' in body
    requires Strip(body + "\n") == body && LoadLines(Lines(body)) == ValueError
    ensures ReadExport(body + "\n") == ValueError
  {
    hide Loads, LoadLines, Lines, Strip, ReadDocuments;
  }

  /** The texts beside the runs hold no exotic separator either. */
  predicate PlainEnvelope(stamp: Stamp, selection: Selection) {
    && PlainText(stamp.generatedAt) && PlainText(stamp.name) && PlainText(stamp.version)
    && PlainText(selection.scope) && (selection.selector.Some? ==> PlainText(selection.selector.value))
  }

  lemma LinePayload(selection: Selection, run: Json) returns (payload: Json)
    ensures payload == Object(map["complete" := Bool(false), "runs" := List([run]), "scope" := Text(selection.scope),
                                  "selector" := Nullable(selection.selector)])
    ensures payload.fields.Keys == {"complete", "runs", "scope", "selector"}
    ensures payload.fields["complete"] == Bool(false) && payload.fields["runs"] == List([run])
    ensures payload.fields["scope"] == Text(selection.scope) && payload.fields["selector"] == Nullable(selection.selector)
  {
    payload := Object(map["complete" := Bool(false), "runs" := List([run]), "scope" := Text(selection.scope),
                          "selector" := Nullable(selection.selector)]);
  }

  lemma LinePrintable(stamp: Stamp, selection: Selection, run: Json)
    requires HasProfile(run) && Literals(run)
    ensures Printable(LineEnvelope(stamp, selection, run))
  {
    hide HasProfile, StatesServingMode, Enveloped;
    var payload := LinePayload(selection, run);
    assert Literals(List([run]));
    forall k | k in payload.fields ensures Literals(payload.fields[k]) {
      assert k in payload.fields.Keys;
    }
    EnvelopedLiterals(stamp, payload, StatesServingMode(run));
    EnvelopeFields(stamp, payload, StatesServingMode(run));
  }

  lemma EnvelopeTextsPlain()
    ensures PlainText("generated_at") && PlainText("generator") && PlainText("payload") && PlainText("schema")
    ensures PlainText("schema_version") && PlainText("name") && PlainText("version")
  {
  }

  lemma PayloadTextsPlain()
    ensures PlainText("complete") && PlainText("runs") && PlainText("scope") && PlainText("selector")
  {
  }

  lemma VersionTextsPlain()
    ensures PlainText(EXPORT_SCHEMA) && PlainText(VERSION) && PlainText(VERSION_SERVING_MODE)
  {
  }

  lemma FixedTextsPlain()
    ensures PlainText("generated_at") && PlainText("generator") && PlainText("payload") && PlainText("schema")
    ensures PlainText("schema_version") && PlainText("complete") && PlainText("runs") && PlainText("scope")
    ensures PlainText("selector") && PlainText("name") && PlainText("version") && PlainText(EXPORT_SCHEMA)
    ensures PlainText(VERSION) && PlainText(VERSION_SERVING_MODE)
  {
    hide PlainText;
    EnvelopeTextsPlain();
    PayloadTextsPlain();
    VersionTextsPlain();
  }
  lemma LineClean(stamp: Stamp, selection: Selection, run: Json)
    requires HasProfile(run) && Clean(run) && PlainEnvelope(stamp, selection)
    ensures Clean(LineEnvelope(stamp, selection, run))
  {
    hide HasProfile, StatesServingMode, Enveloped, PlainText;
    FixedTextsPlain();
    var payload := LinePayload(selection, run);
    assert Clean(List([run]));
    assert Clean(Nullable(selection.selector));
    forall k | k in payload.fields ensures PlainText(k) && Clean(payload.fields[k]) {
      assert k in payload.fields.Keys;
    }
    EnvelopedClean(stamp, payload, StatesServingMode(run));
  }

  lemma GeneratorClean(stamp: Stamp)
    requires PlainText(stamp.name) && PlainText(stamp.version)
    ensures Clean(Generator(stamp))
  {
    FixedTextsPlain();
    hide PlainText;
  }

  lemma VersionClean(stated: bool)
    ensures Clean(Text(VersionFor(stated)))
  {
    FixedTextsPlain();
    hide PlainText;
  }

  lemma EnvelopedClean(stamp: Stamp, payload: Json, stated: bool)
    requires Clean(payload) && PlainText(stamp.generatedAt) && PlainText(stamp.name) && PlainText(stamp.version)
    ensures Clean(Enveloped(stamp, payload, stated))
  {
    hide Enveloped, PlainText, Generator, VersionFor;
    FixedTextsPlain();
    EnvelopeFields(stamp, payload, stated);
    GeneratorClean(stamp);
    VersionClean(stated);
    var j := Enveloped(stamp, payload, stated);
    forall k | k in j.fields ensures PlainText(k) && Clean(j.fields[k]) {
      assert k in j.fields.Keys;
    }
  }

  lemma LineReads(stamp: Stamp, selection: Selection, b: Bundle)
    requires HasProfile(DocumentOf(b))
    ensures ReadDocument(LineEnvelope(stamp, selection, DocumentOf(b))) == Ok([RecordOf(b)])
  {
    LineFields(stamp, selection, DocumentOf(b));
    OneRunReads(b);
    hide DocumentOf, RecordOf, LineEnvelope, HasProfile, ReadRun, ReadRuns;
  }

  lemma NoLines(stamp: Stamp, selection: Selection)
    ensures ReadDocuments(LinesOf(stamp, selection, DocumentsOf([]))) == Ok(Records([]))
  {
  }

  lemma RecordsStep(bundles: seq<Bundle>)
    requires bundles != []
    ensures var n := |bundles| - 1; Records(bundles) == Records(bundles[..n]) + [RecordOf(bundles[n])]
  {
    hide RecordOf;
  }

  lemma OneMoreLine(stamp: Stamp, selection: Selection, documents: seq<Json>)
    requires documents != [] && AllProfiles(documents)
    ensures var n := |documents| - 1;
            var front, last := ReadDocuments(LinesOf(stamp, selection, documents[..n])),
                               ReadDocument(LineEnvelope(stamp, selection, documents[n]));
            ReadDocuments(LinesOf(stamp, selection, documents)) ==
            if front.ValueError? || last.ValueError? then ValueError else Ok(front.value + last.value)
  {
    hide ReadDocument, LineEnvelope, HasProfile;
    var n, lines := |documents| - 1, LinesOf(stamp, selection, documents);
    assert lines[..n] == LinesOf(stamp, selection, documents[..n]);
  }

  lemma {:induction false} LinesReadBack(stamp: Stamp, selection: Selection, bundles: seq<Bundle>)
    requires AllProfiles(DocumentsOf(bundles))
    ensures ReadDocuments(LinesOf(stamp, selection, DocumentsOf(bundles))) == Ok(Records(bundles))
  {
    hide DocumentOf, RecordOf, ReadDocument, LineEnvelope, HasProfile, ReadRun, ReadRuns, LinesOf, ReadDocuments, Records;
    if bundles == [] {
      NoLines(stamp, selection);
    } else {
      var n := |bundles| - 1;
      var documents := DocumentsOf(bundles);
      assert documents[..n] == DocumentsOf(bundles[..n]);
      LinesReadBack(stamp, selection, bundles[..n]);
      assert HasProfile(documents[n]) && documents[n] == DocumentOf(bundles[n]);
      LineReads(stamp, selection, bundles[n]);
      RecordsStep(bundles);
      OneMoreLine(stamp, selection, documents);
    }
  }

  lemma OneRunReads(b: Bundle)
    ensures ReadRuns([DocumentOf(b)]) == Ok([RecordOf(b)])
  {
    RunReadsBack(b);
    hide DocumentOf, RecordOf, ReadRun;
    assert [DocumentOf(b)][..0] == [];
    assert ReadRuns([]) == Ok([]);
    assert [] + [RecordOf(b)] == [RecordOf(b)];
  }

  lemma LineCleanOnly(stamp: Stamp, selection: Selection, run: Json)
    requires HasProfile(run) && Clean(LineEnvelope(stamp, selection, run))
    ensures Clean(run) && PlainEnvelope(stamp, selection)
  {
    hide HasProfile, StatesServingMode, Enveloped, PlainText;
    var payload := LinePayload(selection, run);
    EnvelopedCleanOnly(stamp, payload, StatesServingMode(run));
    assert Clean(payload.fields["runs"]) && Clean(payload.fields["scope"]) && Clean(payload.fields["selector"]);
    assert Clean([run][0]);
  }

  lemma EnvelopedCleanOnly(stamp: Stamp, payload: Json, stated: bool)
    requires Clean(Enveloped(stamp, payload, stated))
    ensures Clean(payload) && PlainText(stamp.generatedAt) && PlainText(stamp.name) && PlainText(stamp.version)
  {
    EnvelopeFields(stamp, payload, stated);
    hide Enveloped, PlainText;
    var j := Enveloped(stamp, payload, stated);
    assert Clean(j.fields["payload"]) && Clean(j.fields["generated_at"]) && Clean(j.fields["generator"]);
    var g := Generator(stamp);
    assert Clean(g.fields["name"]) && Clean(g.fields["version"]);
  }

  lemma LineCleanExactly(stamp: Stamp, selection: Selection, run: Json)
    requires HasProfile(run)
    ensures Clean(LineEnvelope(stamp, selection, run)) <==> Clean(run) && PlainEnvelope(stamp, selection)
  {
    hide HasProfile, LineEnvelope, Clean, PlainEnvelope;
    if Clean(run) && PlainEnvelope(stamp, selection) {
      LineClean(stamp, selection, run);
    }
    if Clean(LineEnvelope(stamp, selection, run)) {
      LineCleanOnly(stamp, selection, run);
    }
  }

  /** One run, or several in which neither they nor the envelope hold a line separator JSON leaves unescaped. */
  predicate ReadableInLines(stamp: Stamp, selection: Selection, bundles: seq<Bundle>) {
    bundles != [] && (|bundles| == 1 || (AllClean(DocumentsOf(bundles)) && PlainEnvelope(stamp, selection)))
  }

  /** What IterJsonl gives for these runs. */
  ghost predicate Streamed(stamp: Stamp, selection: Selection, bundles: seq<Bundle>, chunks: seq<string>)
    requires AllProfiles(DocumentsOf(bundles))
  {
    && |chunks| == |bundles|
    && forall i :: 0 <= i < |chunks| ==> chunks[i] == Print(LineEnvelope(stamp, selection, DocumentsOf(bundles)[i])) + "\n"
  }

  lemma AllLinesPrintable(stamp: Stamp, selection: Selection, documents: seq<Json>)
    requires AllLiterals(documents) && AllProfiles(documents)
    ensures AllPrintable(LinesOf(stamp, selection, documents))
  {
    hide LineEnvelope, HasProfile, Literals, Printable;
    var lines := LinesOf(stamp, selection, documents);
    forall i | 0 <= i < |lines| ensures Printable(lines[i]) {
      assert HasProfile(documents[i]) && Literals(documents[i]);
      LinePrintable(stamp, selection, documents[i]);
    }
  }

  lemma AllLinesClean(stamp: Stamp, selection: Selection, documents: seq<Json>)
    requires AllProfiles(documents) && documents != []
    ensures AllClean(LinesOf(stamp, selection, documents)) <==> AllClean(documents) && PlainEnvelope(stamp, selection)
  {
    hide LineEnvelope, HasProfile, Clean, PlainEnvelope;
    var lines := LinesOf(stamp, selection, documents);
    forall i | 0 <= i < |lines|
      ensures Clean(lines[i]) <==> Clean(documents[i]) && PlainEnvelope(stamp, selection)
    {
      assert HasProfile(documents[i]);
      LineCleanExactly(stamp, selection, documents[i]);
    }
    assert AllClean(lines) ==> Clean(lines[0]);
  }

  lemma NothingStreamed(stamp: Stamp, selection: Selection, chunks: seq<string>)
    requires AllProfiles(DocumentsOf([])) && Streamed(stamp, selection, [], chunks)
    ensures ReadExport(Cat(chunks)) == ValueError && !ReadableInLines(stamp, selection, [])
  {
    EmptyRefused();
    assert chunks == [];
    hide ReadExport, Cat;
  }

  lemma SameReadability(stamp: Stamp, selection: Selection, bundles: seq<Bundle>)
    requires AllProfiles(DocumentsOf(bundles)) && bundles != []
    requires AllClean(LinesOf(stamp, selection, DocumentsOf(bundles))) <==>
             AllClean(DocumentsOf(bundles)) && PlainEnvelope(stamp, selection)
    ensures ReadableInLines(stamp, selection, bundles) <==>
            |bundles| == 1 || AllClean(LinesOf(stamp, selection, DocumentsOf(bundles)))
  {
    hide AllClean, PlainEnvelope, AllProfiles;
  }

  lemma StreamIsBody(stamp: Stamp, selection: Selection, bundles: seq<Bundle>, chunks: seq<string>)
    requires AllProfiles(DocumentsOf(bundles)) && bundles != [] && Streamed(stamp, selection, bundles, chunks)
    ensures Cat(chunks) == Body(Prints(LinesOf(stamp, selection, DocumentsOf(bundles)))) + "\n"
  {
    hide Print, LineEnvelope, Cat, Body, AllProfiles, DocumentOf, HasProfile;
    ChunksAreBody(chunks, Prints(LinesOf(stamp, selection, DocumentsOf(bundles))));
  }

  /** One line, or clean ones, are read; any other lines are refused. */
  lemma StreamRead(stamp: Stamp, selection: Selection, bundles: seq<Bundle>, chunks: seq<string>)
    requires AllLiterals(DocumentsOf(bundles)) && AllProfiles(DocumentsOf(bundles)) && bundles != []
    requires Streamed(stamp, selection, bundles, chunks)
    ensures ReadExport(Cat(chunks)) ==
            if |bundles| == 1 || AllClean(LinesOf(stamp, selection, DocumentsOf(bundles))) then Ok(Records(bundles))
            else ValueError
  {
    hide Print, LineEnvelope, HasProfile, Literals, Clean, ReadExport, ReadDocuments, Records, Cat, Body, AllLiterals,
         AllPrintable, AllProfiles, DocumentOf, Prints, Streamed;
    var lines := LinesOf(stamp, selection, DocumentsOf(bundles));
    AllLinesPrintable(stamp, selection, DocumentsOf(bundles));
    StreamIsBody(stamp, selection, bundles, chunks);
    if |lines| == 1 || AllClean(lines) {
      LinesRead(lines);
      LinesReadBack(stamp, selection, bundles);
    } else {
      var at :| 0 <= at < |lines| && !Clean(lines[at]);
      BrokenLinesRefused(lines, at);
    }
  }

  /** The line-per-run form reads back as exactly the records of the runs exported, in order, where it is readable in
      lines, and is refused everywhere else. */
  lemma JsonlReadsBack(stamp: Stamp, selection: Selection, bundles: seq<Bundle>, chunks: seq<string>)
    requires AllLiterals(DocumentsOf(bundles)) && AllProfiles(DocumentsOf(bundles))
    requires Streamed(stamp, selection, bundles, chunks)
    ensures ReadExport(Cat(chunks)) ==
            if ReadableInLines(stamp, selection, bundles) then Ok(Records(bundles)) else ValueError
  {
    hide *;
    if bundles == [] {
      NothingStreamed(stamp, selection, chunks);
    } else {
      StreamRead(stamp, selection, bundles, chunks);
      AllLinesClean(stamp, selection, DocumentsOf(bundles));
      SameReadability(stamp, selection, bundles);
    }
  }

  /** The JSON document and the JSON lines of the same runs read back alike, if and only if the lines are readable: with
      no run they are an empty text, and with several a separator cuts a line. */
  lemma FormsReadAlike(stamp: Stamp, selection: Selection, appendix: Option<map<string, Json>>, bundles: seq<Bundle>,
                       chunks: seq<string>)
    requires AllLiterals(DocumentsOf(bundles)) && AllProfiles(DocumentsOf(bundles))
    requires appendix.Some? ==> Literals(Object(appendix.value))
    requires Streamed(stamp, selection, bundles, chunks)
    ensures ReadExport(Cat(chunks)) == ReadExport(Print(Envelope(stamp, selection, appendix, DocumentsOf(bundles))))
            <==> ReadableInLines(stamp, selection, bundles)
  {
    hide *;
    JsonReadsBack(stamp, selection, appendix, bundles);
    JsonlReadsBack(stamp, selection, bundles, chunks);
  }

  lemma EmptyRefused()
    ensures ReadExport(Cat([])) == ValueError
  {
  }

  predicate FieldsLiteral(fields: map<string, Json>) { forall k :: k in fields ==> Literals(fields[k]) }

  lemma PlusLiteral(m: map<string, Json>, n: map<string, Json>)
    requires FieldsLiteral(m) && FieldsLiteral(n)
    ensures FieldsLiteral(m + n) && Literals(Object(m + n))
  {
    hide Literals;
    assert Literals(Object(m + n)) by { ObjectLiteral(m + n); }
  }

  lemma ObjectLiteral(m: map<string, Json>)
    requires FieldsLiteral(m)
    ensures Literals(Object(m))
  {
  }

  /** Parts of a run's document that hold no malformed number. */
  predicate PartsLiteral(b: Bundle) {
    && FieldsLiteral(b.notes) && FieldsLiteral(b.suiteRest) && FieldsLiteral(b.modelRest) && FieldsLiteral(b.profile)
    && FieldsLiteral(b.reproducibilityRest) && FieldsLiteral(b.summaryRest)
  }

  lemma SuiteLiteral(b: Bundle)
    requires FieldsLiteral(b.suiteRest)
    ensures Literals(Object(SuiteOf(b)))
  {
    PlusLiteral(b.suiteRest, map["suite_key" := Text(b.suiteKey), "suite_version" := Text(b.suiteVersion)]);
  }

  lemma ModelLiteral(b: Bundle)
    requires FieldsLiteral(b.modelRest)
    ensures Literals(Object(ModelOf(b)))
  {
    PlusLiteral(b.modelRest, map["canonical_id" := Text(b.canonicalId)]);
  }

  lemma ReproducibilityLiteral(b: Bundle)
    requires FieldsLiteral(b.reproducibilityRest)
    ensures Literals(Object(ReproducibilityOf(b)))
  {
    PlusLiteral(b.reproducibilityRest, map["reproducibility_fingerprint" := Text(b.fingerprint)]);
  }

  /** Every value of the map is one of these. */
  lemma OwnLiteral(fields: map<string, Json>, values: seq<Json>)
    requires forall i :: 0 <= i < |values| ==> Literals(values[i])
    requires forall k :: k in fields ==> fields[k] in values
    ensures FieldsLiteral(fields)
  {
    hide Literals;
  }

  lemma SummaryLiteral(b: Bundle)
    requires PartsLiteral(b)
    ensures Literals(Summary(b))
  {
    SuiteLiteral(b);
    ModelLiteral(b);
    ReproducibilityLiteral(b);
    ObjectLiteral(b.profile);
    hide SuiteOf, ModelOf, ReproducibilityOf, FieldsLiteral;
    var own := map["suite" := Object(SuiteOf(b)), "model" := Object(ModelOf(b)),
                   "runtime_profile" := Object(b.profile), "runtime_profile_hash" := Text(b.profileHash),
                   "machine_fingerprint" := Text(b.machine), "reproducibility" := Object(ReproducibilityOf(b)),
                   "status" := Text(b.status)];
    OwnLiteral(own, [Object(SuiteOf(b)), Object(ModelOf(b)), Object(b.profile), Text(b.profileHash), Text(b.machine),
                     Object(ReproducibilityOf(b)), Text(b.status)]);
    PlusLiteral(b.summaryRest, own);
  }

  lemma DocumentLiteral(b: Bundle)
    requires PartsLiteral(b) && b.metrics == [] && b.samples == None
    ensures Literals(DocumentOf(b))
  {
    SummaryLiteral(b);
    hide Summary, FieldsLiteral;
    assert MetricDocuments([]) == [];
    var own := map["run_id" := Text(b.runId), "summary" := Summary(b), "metrics" := List(MetricDocuments(b.metrics))];
    OwnLiteral(own, [Text(b.runId), Summary(b), List([])]);
    PlusLiteral(b.notes, own);
    FewerLiteral(b.notes + own, {"samples"});
  }

  lemma FewerLiteral(fields: map<string, Json>, keys: set<string>)
    requires FieldsLiteral(fields)
    ensures Literals(Object(fields - keys))
  {
  }

  lemma LabelKept(b: Bundle)
    requires "label" in b.notes
    ensures "label" in DocumentOf(b).fields && DocumentOf(b).fields["label"] == b.notes["label"]
  {
    hide Summary, MetricDocuments;
  }

  /** Wherever a run of several has a separator in its label, the JSON document reads back and the JSON lines are
      refused. */
  lemma SeparatorInALabel(stamp: Stamp, selection: Selection, bundles: seq<Bundle>, at: nat, chunks: seq<string>)
    requires |bundles| > 1 && at < |bundles| && AllLiterals(DocumentsOf(bundles)) && AllProfiles(DocumentsOf(bundles))
    requires "label" in bundles[at].notes && bundles[at].notes["label"].Text? && !PlainText(bundles[at].notes["label"].text)
    requires Streamed(stamp, selection, bundles, chunks)
    ensures ReadExport(Print(Envelope(stamp, selection, None, DocumentsOf(bundles)))) == Ok(Records(bundles))
    ensures ReadExport(Cat(chunks)) == ValueError
  {
    LabelKept(bundles[at]);
    UncleanLabel(DocumentOf(bundles[at]));
    hide DocumentOf, Literals, Clean, ReadExport, Print, Envelope, Cat, Records, Streamed, AllProfiles, AllLiterals, PlainText,
         PlainEnvelope;
    assert !Clean(DocumentsOf(bundles)[at]);
    JsonReadsBack(stamp, selection, None, bundles);
    JsonlReadsBack(stamp, selection, bundles, chunks);
  }

  lemma UncleanLabel(j: Json)
    requires j.Object? && "label" in j.fields && j.fields["label"].Text? && !PlainText(j.fields["label"].text)
    ensures !Clean(j)
  {
    assert !Clean(j.fields["label"]);
  }

  /** A completed run without metrics, under a label. */
  function Labelled(id: string, caption: string): Bundle {
    Bundle(id, map["label" := Text(caption)], "native.echo", "1", map[], "qwen3.5:9b", map[], "machine", "profile", map[],
           "completed", "fingerprint", map[], map[], [], None)
  }

  lemma LabelledLiteral(id: string, caption: string)
    ensures Literals(DocumentOf(Labelled(id, caption)))
  {
    hide DocumentOf;
    DocumentLiteral(Labelled(id, caption));
  }

  lemma SeparatorText(caption: string)
    requires caption == "before\U{2028}after"
    ensures !PlainText(caption)
  {
    assert Exotic(caption[6]);
  }

  lemma TwoLabelled(stamp: Stamp, selection: Selection, a: Bundle, b: Bundle, chunks: seq<string>)
    requires Literals(DocumentOf(a)) && Literals(DocumentOf(b)) && AllProfiles(DocumentsOf([a, b]))
    requires "label" in a.notes && a.notes["label"].Text? && !PlainText(a.notes["label"].text)
    requires Streamed(stamp, selection, [a, b], chunks)
    ensures ReadExport(Print(Envelope(stamp, selection, None, DocumentsOf([a, b])))) == Ok(Records([a, b]))
    ensures ReadExport(Cat(chunks)) == ValueError
  {
    hide DocumentOf, Literals, ReadExport, Print, Envelope, Cat, Records, Streamed, AllProfiles, PlainText;
    SeparatorInALabel(stamp, selection, [a, b], 0, chunks);
  }

  /** Two runs of any ids, the first with a line separator in its label. */
  lemma SeparatorInALine(stamp: Stamp, selection: Selection, first: string, second: string, chunks: seq<string>)
    requires var runs := [Labelled(first, "before\U{2028}after"), Labelled(second, "plain")];
             AllProfiles(DocumentsOf(runs)) && Streamed(stamp, selection, runs, chunks)
    ensures var runs := [Labelled(first, "before\U{2028}after"), Labelled(second, "plain")];
            && ReadExport(Print(Envelope(stamp, selection, None, DocumentsOf(runs)))) == Ok(Records(runs))
            && ReadExport(Cat(chunks)) == ValueError
  {
    var caption := "before\U{2028}after";
    var a, b := Labelled(first, caption), Labelled(second, "plain");
    LabelledLiteral(first, caption);
    LabelledLiteral(second, "plain");
    SeparatorText(caption);
    LabelIs(first, caption);
    hide *;
    TwoLabelled(stamp, selection, a, b, chunks);
  }

  lemma LabelIs(id: string, caption: string)
    ensures "label" in Labelled(id, caption).notes && Labelled(id, caption).notes["label"] == Text(caption)
  {
  }
}
