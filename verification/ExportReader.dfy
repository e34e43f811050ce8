/** The reader of exported documents of src/freeweight/services/export.py, and the JSON form read back. */
module ExportReader {
  import opened Canonical
  import opened Documents
  import opened Export
  import opened Results
  import opened Separators
  import opened Strings

  // ---------------------------------------------------------------------------------------
  // A run's document, and the record a reader makes of it
  // ---------------------------------------------------------------------------------------

  /** A number, as its literal. */
  type Literal = string

  datatype Metric = Metric(key: string, runTest: Json, value: Option<Literal>, reason: Json, unit: string,
                           aggregation: string, higherIsBetter: bool, sampleCount: Literal, excludedCount: Literal,
                           gpuIndex: Json, stddev: Option<Literal>, variation: Option<Literal>)

  /** What a run contributes; the rest fields hold the parts of its summary no reader looks at. */
  datatype Bundle = Bundle(runId: string, notes: map<string, Json>, suiteKey: string, suiteVersion: string,
                           suiteRest: map<string, Json>, canonicalId: string, modelRest: map<string, Json>,
                           machine: string, profileHash: string, profile: map<string, Json>, status: string,
                           fingerprint: string, reproducibilityRest: map<string, Json>, summaryRest: map<string, Json>,
                           metrics: seq<Metric>, samples: Option<seq<Json>>)

  function JsonMeasurement(value: Option<Literal>): Json { if value.None? then Text(UNSUPPORTED) else Number(value.value) }

  function MetricDocument(m: Metric): Json {
    Object(map["metric_key" := Text(m.key), "run_test_id" := m.runTest, "value" := JsonMeasurement(m.value),
               "unavailable_reason" := m.reason, "unit" := Text(m.unit), "aggregation" := Text(m.aggregation),
               "higher_is_better" := Bool(m.higherIsBetter), "sample_count" := Number(m.sampleCount),
               "excluded_count" := Number(m.excludedCount), "gpu_index" := m.gpuIndex,
               "stddev" := JsonMeasurement(m.stddev), "coefficient_of_variation" := JsonMeasurement(m.variation)])
  }

  function MetricDocuments(metrics: seq<Metric>): (documents: seq<Json>)
    ensures |documents| == |metrics|
    ensures forall i :: 0 <= i < |metrics| ==> documents[i] == MetricDocument(metrics[i])
  {
    if metrics == [] then [] else MetricDocuments(metrics[..|metrics| - 1]) + [MetricDocument(metrics[|metrics| - 1])]
  }

  function SuiteOf(b: Bundle): map<string, Json> {
    b.suiteRest + map["suite_key" := Text(b.suiteKey), "suite_version" := Text(b.suiteVersion)]
  }

  function ModelOf(b: Bundle): map<string, Json> { b.modelRest + map["canonical_id" := Text(b.canonicalId)] }

  function ReproducibilityOf(b: Bundle): map<string, Json> {
    b.reproducibilityRest + map["reproducibility_fingerprint" := Text(b.fingerprint)]
  }

  function Summary(b: Bundle): Json {
    Object(b.summaryRest + map[
             "suite" := Object(SuiteOf(b)), "model" := Object(ModelOf(b)),
             "runtime_profile" := Object(b.profile), "runtime_profile_hash" := Text(b.profileHash),
             "machine_fingerprint" := Text(b.machine), "reproducibility" := Object(ReproducibilityOf(b)),
             "status" := Text(b.status)])
  }

  function DocumentOf(b: Bundle): Json {
    var fields := b.notes + map["run_id" := Text(b.runId), "summary" := Summary(b), "metrics" := List(MetricDocuments(b.metrics))];
    Object(if b.samples.Some? then fields["samples" := List(b.samples.value)] else fields - {"samples"})
  }

  datatype ExportedMetric = ExportedMetric(key: string, value: Option<Literal>, reason: Json, unit: string,
                                           aggregation: string, higherIsBetter: bool, sampleCount: Literal,
                                           excludedCount: Literal, runTest: Json, gpuIndex: Json,
                                           stddev: Option<Literal>, variation: Option<Literal>)

  datatype ExportedRun = ExportedRun(runId: string, suiteKey: string, suiteVersion: string, canonicalId: string,
                                     machine: string, profileHash: string, status: string, fingerprint: string,
                                     metrics: seq<ExportedMetric>, sampleCount: nat)

  /** str(d.get(key, "")): a text is itself; None, booleans and numbers show as Python shows them. */
  function Shown(fields: map<string, Json>, key: string): string {
    if key !in fields then ""
    else
      match fields[key]
      case Text(s) => s
      case Number(literal) => literal
      case Null => "None"
      case Bool(b) => if b then "True" else "False"
      case _ => ""
  }

  function Mapping(j: Json): map<string, Json> { if j.Object? then j.fields else map[] }

  /** The inverse of JsonMeasurement. */
  function FromMeasurement(j: Json): Result<Option<Literal>> {
    match j
    case Null => Ok(None)
    case Number(literal) => Ok(Some(literal))
    case Text(s) => if s == UNSUPPORTED then Ok(None) else ValueError
    case _ => ValueError
  }

  /** int(value or 0) */
  function Counted(j: Json): Result<Literal> {
    match j
    case Null => Ok("0")
    case Number(literal) => Ok(literal)
    case _ => ValueError
  }

  predicate Truthy(j: Json) {
    match j
    case Null => false
    case Bool(b) => b
    case Number(literal) => literal != "0" && literal != "0.0"
    case Text(s) => s != ""
    case List(items) => items != []
    case Object(fields) => fields != map[]
  }

  function ReadMetric(f: map<string, Json>): Result<ExportedMetric> {
    var value, sd, cov := FromMeasurement(Field(f, "value")), FromMeasurement(Field(f, "stddev")),
                          FromMeasurement(Field(f, "coefficient_of_variation"));
    var samples, excluded := Counted(Field(f, "sample_count")), Counted(Field(f, "excluded_count"));
    if value.ValueError? || sd.ValueError? || cov.ValueError? || samples.ValueError? || excluded.ValueError? then ValueError
    else Ok(ExportedMetric(Shown(f, "metric_key"), value.value, Field(f, "unavailable_reason"), Shown(f, "unit"),
                           Shown(f, "aggregation"), Truthy(Field(f, "higher_is_better")), samples.value, excluded.value,
                           Field(f, "run_test_id"), Field(f, "gpu_index"), sd.value, cov.value))
  }

  /** The rows that are objects, read in order. */
  function ReadMetrics(rows: seq<Json>): Result<seq<ExportedMetric>> {
    if rows == [] then Ok([])
    else
      var front, last := ReadMetrics(rows[..|rows| - 1]), rows[|rows| - 1];
      if front.ValueError? || !last.Object? then front
      else
        var metric := ReadMetric(last.fields);
        if metric.ValueError? then ValueError else Ok(front.value + [metric.value])
  }

  function ReadRun(entry: map<string, Json>): Result<ExportedRun> {
    var summary := Mapping(Field(entry, "summary"));
    var suite, model := Mapping(Field(summary, "suite")), Mapping(Field(summary, "model"));
    var reproducibility := Mapping(Field(summary, "reproducibility"));
    var rows, samples := Field(entry, "metrics"), Field(entry, "samples");
    var metrics := if rows.List? then ReadMetrics(rows.items) else Ok([]);
    if metrics.ValueError? then ValueError
    else Ok(ExportedRun(Shown(entry, "run_id"), Shown(suite, "suite_key"), Shown(suite, "suite_version"),
                        Shown(model, "canonical_id"), Shown(summary, "machine_fingerprint"),
                        Shown(summary, "runtime_profile_hash"), Shown(summary, "status"),
                        Shown(reproducibility, "reproducibility_fingerprint"), metrics.value,
                        if samples.List? then |samples.items| else 0))
  }

  // what an export carries of a run, independently of its document

  function MetricRecord(m: Metric): ExportedMetric {
    ExportedMetric(m.key, m.value, m.reason, m.unit, m.aggregation, m.higherIsBetter, m.sampleCount, m.excludedCount,
                   m.runTest, m.gpuIndex, m.stddev, m.variation)
  }

  function MetricRecords(metrics: seq<Metric>): seq<ExportedMetric> {
    if metrics == [] then [] else MetricRecords(metrics[..|metrics| - 1]) + [MetricRecord(metrics[|metrics| - 1])]
  }

  function RecordOf(b: Bundle): ExportedRun {
    ExportedRun(b.runId, b.suiteKey, b.suiteVersion, b.canonicalId, b.machine, b.profileHash, b.status, b.fingerprint,
                MetricRecords(b.metrics), if b.samples.Some? then |b.samples.value| else 0)
  }

  /** Encoding a measurement and reading it back gives it again; no measurement stays none. */
  lemma MeasurementReadsBack(value: Option<Literal>)
    ensures FromMeasurement(JsonMeasurement(value)) == Ok(value)
  {
  }

  lemma MetricNames(m: Metric)
    ensures MetricDocument(m).Object?
    ensures var f := MetricDocument(m).fields;
            Shown(f, "metric_key") == m.key && Shown(f, "unit") == m.unit && Shown(f, "aggregation") == m.aggregation
  {
  }

  lemma MetricMeasured(m: Metric)
    ensures var f := MetricDocument(m).fields;
            && Field(f, "run_test_id") == m.runTest && Field(f, "value") == JsonMeasurement(m.value)
            && Field(f, "unavailable_reason") == m.reason
  {
    hide JsonMeasurement;
  }

  lemma MetricCounts(m: Metric)
    ensures var f := MetricDocument(m).fields;
            && Field(f, "higher_is_better") == Bool(m.higherIsBetter) && Field(f, "sample_count") == Number(m.sampleCount)
            && Field(f, "excluded_count") == Number(m.excludedCount)
  {
    hide JsonMeasurement;
  }

  lemma MetricSpread(m: Metric)
    ensures var f := MetricDocument(m).fields;
            && Field(f, "gpu_index") == m.gpuIndex && Field(f, "stddev") == JsonMeasurement(m.stddev)
            && Field(f, "coefficient_of_variation") == JsonMeasurement(m.variation)
  {
    hide JsonMeasurement;
  }

  lemma MetricReadsBack(m: Metric)
    ensures ReadMetric(MetricDocument(m).fields) == Ok(MetricRecord(m))
  {
    MetricNames(m);
    MetricMeasured(m);
    MetricCounts(m);
    MetricSpread(m);
    MeasurementReadsBack(m.value);
    MeasurementReadsBack(m.stddev);
    MeasurementReadsBack(m.variation);
    hide MetricDocument, FromMeasurement, JsonMeasurement, Shown, Field;
  }

  lemma {:induction false} MetricsReadBack(metrics: seq<Metric>)
    ensures ReadMetrics(MetricDocuments(metrics)) == Ok(MetricRecords(metrics))
  {
    hide ReadMetric, MetricDocument, MetricRecord;
    if metrics != [] {
      var n := |metrics| - 1;
      MetricsReadBack(metrics[..n]);
      MetricReadsBack(metrics[n]);
      MetricNames(metrics[n]);
      assert MetricDocuments(metrics)[..n] == MetricDocuments(metrics[..n]);
    }
  }

  lemma PartFields(b: Bundle)
    ensures Shown(SuiteOf(b), "suite_key") == b.suiteKey && Shown(SuiteOf(b), "suite_version") == b.suiteVersion
    ensures Shown(ModelOf(b), "canonical_id") == b.canonicalId
    ensures Shown(ReproducibilityOf(b), "reproducibility_fingerprint") == b.fingerprint
  {
  }

  lemma SummaryObjects(b: Bundle)
    ensures Summary(b).Object?
    ensures var f := Summary(b).fields;
            && Field(f, "suite") == Object(SuiteOf(b)) && Field(f, "model") == Object(ModelOf(b))
            && Field(f, "runtime_profile") == Object(b.profile) && Field(f, "reproducibility") == Object(ReproducibilityOf(b))
  {
    hide SuiteOf, ModelOf, ReproducibilityOf;
  }

  lemma SummaryTexts(b: Bundle)
    ensures Summary(b).Object?
    ensures var f := Summary(b).fields;
            && Shown(f, "runtime_profile_hash") == b.profileHash && Shown(f, "machine_fingerprint") == b.machine
            && Shown(f, "status") == b.status
  {
    hide SuiteOf, ModelOf, ReproducibilityOf;
  }

  lemma DocumentTexts(b: Bundle)
    ensures DocumentOf(b).Object?
    ensures Shown(DocumentOf(b).fields, "run_id") == b.runId && Field(DocumentOf(b).fields, "summary") == Summary(b)
  {
    hide Summary, MetricDocuments;
  }

  lemma DocumentLists(b: Bundle)
    ensures DocumentOf(b).Object?
    ensures Field(DocumentOf(b).fields, "metrics") == List(MetricDocuments(b.metrics))
    ensures Field(DocumentOf(b).fields, "samples") == if b.samples.Some? then List(b.samples.value) else Null
  {
    hide Summary, MetricDocuments;
  }

  lemma ProfileHeld(b: Bundle)
    ensures HasProfile(DocumentOf(b))
  {
    DocumentTexts(b);
    SummaryObjects(b);
    hide DocumentOf, Summary, Field;
  }

  /** A run's document reads back as what the run carried; unsupported measurements come back as none. */
  lemma RunReadsBack(b: Bundle)
    ensures DocumentOf(b).Object? && ReadRun(DocumentOf(b).fields) == Ok(RecordOf(b))
    ensures HasProfile(DocumentOf(b))
  {
    hide DocumentOf, Summary, SuiteOf, ModelOf, ReproducibilityOf, ReadMetrics, MetricDocuments, MetricRecords, Field, Shown,
         HasProfile;
    DocumentTexts(b);
    DocumentLists(b);
    SummaryObjects(b);
    SummaryTexts(b);
    PartFields(b);
    MetricsReadBack(b.metrics);
    ProfileHeld(b);
  }

  // ---------------------------------------------------------------------------------------
  // Documents and texts
  // ---------------------------------------------------------------------------------------

  /** The entries that are objects, read in order. */
  function ReadRuns(entries: seq<Json>): Result<seq<ExportedRun>> {
    if entries == [] then Ok([])
    else
      var front, last := ReadRuns(entries[..|entries| - 1]), entries[|entries| - 1];
      if front.ValueError? || !last.Object? then front
      else
        var run := ReadRun(last.fields);
        if run.ValueError? then ValueError else Ok(front.value + [run.value])
  }

  /** One envelope; another schema or another major version is refused. */
  function ReadDocument(document: Json): Result<seq<ExportedRun>> {
    if !document.Object? then ValueError
    else if Field(document.fields, "schema") != Text(EXPORT_SCHEMA) then ValueError
    else if Split(Shown(document.fields, "schema_version"))[0] != MAJOR then ValueError
    else
      var runs := Field(Mapping(Field(document.fields, "payload")), "runs");
      if runs.List? then ReadRuns(runs.items) else Ok([])
  }

  /** The characters str.strip removes. */
  predicate IsSpace(c: char) {
    c == ' ' || '\t' <= c <= '\r' || 0x1c <= c as int <= 0x1f || c as int == 0x85 || c as int == 0xa0
    || c as int == 0x1680 || 0x2000 <= c as int <= 0x200a || c as int == 0x2028 || c as int == 0x2029
    || c as int == 0x202f || c as int == 0x205f || c as int == 0x3000
  }

  /** The characters str.splitlines breaks at. */
  predicate IsBreak(c: char) {
    '\n' <= c <= '\r' || 0x1c <= c as int <= 0x1e || c as int == 0x85 || c as int == 0x2028 || c as int == 0x2029
  }

  function StripLeft(text: string): string { if text != "" && IsSpace(text[0]) then StripLeft(text[1..]) else text }

  function StripRight(text: string): string {
    if text != "" && IsSpace(text[|text| - 1]) then StripRight(text[..|text| - 1]) else text
  }

  function Strip(text: string): string { StripRight(StripLeft(text)) }

  function BreakAt(text: string): (n: nat)
    ensures n <= |text|
  {
    if text == "" || IsBreak(text[0]) then 0 else 1 + BreakAt(text[1..])
  }

  /** splitlines */
  function Lines(text: string): seq<string>
    decreases |text|
  {
    if text == "" then []
    else if BreakAt(text) == |text| then [text]
    else [text[..BreakAt(text)]] + Lines(text[BreakAt(text) + 1..])
  }

  /** Every line that is not blank, decoded. */
  function LoadLines(lines: seq<string>): Result<seq<Json>> {
    if lines == [] then Ok([])
    else
      var front, last := LoadLines(lines[..|lines| - 1]), lines[|lines| - 1];
      if front.ValueError? || Strip(last) == "" then front
      else
        match Loads(last)
        case Decoded(v) => Ok(front.value + [v])
        case DecodeError => ValueError
  }

  function ReadDocuments(documents: seq<Json>): Result<seq<ExportedRun>> {
    if documents == [] then Ok([])
    else
      var front, last := ReadDocuments(documents[..|documents| - 1]), ReadDocument(documents[|documents| - 1]);
      if front.ValueError? || last.ValueError? then ValueError else Ok(front.value + last.value)
  }

  /** The documents of a text that is not blank: itself when it decodes to one, its lines otherwise. */
  function DocumentsIn(stripped: string): Result<seq<Json>>
    requires stripped != ""
  {
    if stripped[0] == '{' && '\n' !in stripped then
      match Loads(stripped)
      case Decoded(v) => Ok([v])
      case DecodeError => LoadLines(Lines(stripped))
    else
      var first := if stripped[0] == '{' then Loads(stripped) else Decoded(Null);
      match first
      case DecodeError => LoadLines(Lines(stripped))
      case Decoded(v) => if v.Object? then Ok([v]) else LoadLines(Lines(stripped))
  }

  function ReadExport(text: string): Result<seq<ExportedRun>> {
    var stripped := Strip(text);
    if stripped == "" then ValueError
    else
      var documents := DocumentsIn(stripped);
      if documents.ValueError? then ValueError else ReadDocuments(documents.value)
  }

  // ---------------------------------------------------------------------------------------
  // Texts taken apart
  // ---------------------------------------------------------------------------------------

  /** A text that neither begins nor ends with white space. */
  predicate Trimmed(text: string) { text != "" && !IsSpace(text[0]) && !IsSpace(text[|text| - 1]) }

  lemma StripTrimmed(text: string)
    requires Trimmed(text)
    ensures Strip(text) == text && Strip(text + "\n") == text
  {
    assert (text + "\n")[..|text|] == text;
  }

  lemma ObjectTrimmed(j: Json)
    requires j.Object?
    ensures Trimmed(Print(j)) && Print(j)[0] == '{'
  {
    PrintObject(j);
    var members := PrintMembers(j, SortedKeys(j.fields.Keys));
    var text := "{" + members + "}";
    assert text[0] == '{' && text[|text| - 1] == '}';
    hide Print, PrintMembers;
  }

  // ---------------------------------------------------------------------------------------
  // Documents read back
  // ---------------------------------------------------------------------------------------

  function DocumentsOf(bundles: seq<Bundle>): (documents: seq<Json>)
    ensures |documents| == |bundles|
    ensures forall i :: 0 <= i < |bundles| ==> documents[i] == DocumentOf(bundles[i])
  {
    if bundles == [] then [] else DocumentsOf(bundles[..|bundles| - 1]) + [DocumentOf(bundles[|bundles| - 1])]
  }

  /** What an export of these runs carries. */
  function Records(bundles: seq<Bundle>): seq<ExportedRun> {
    if bundles == [] then [] else Records(bundles[..|bundles| - 1]) + [RecordOf(bundles[|bundles| - 1])]
  }

  lemma AllHaveProfiles(bundles: seq<Bundle>)
    ensures AllProfiles(DocumentsOf(bundles))
  {
    hide DocumentOf, HasProfile;
    forall i | 0 <= i < |bundles| ensures HasProfile(DocumentsOf(bundles)[i]) {
      RunReadsBack(bundles[i]);
    }
  }

  lemma {:induction false} RunsReadBack(bundles: seq<Bundle>)
    ensures ReadRuns(DocumentsOf(bundles)) == Ok(Records(bundles))
  {
    hide DocumentOf, RecordOf, ReadRun;
    if bundles != [] {
      var n := |bundles| - 1;
      RunsReadBack(bundles[..n]);
      RunReadsBack(bundles[n]);
      assert DocumentsOf(bundles)[..n] == DocumentsOf(bundles[..n]);
    }
  }

  lemma VersionsAreMajor(stated: bool)
    ensures Split(VersionFor(stated))[0] == MAJOR
  {
    SplitAtDot("1", "0");
    SplitAtDot("1", "1");
    SplitPlain("1");
    assert "1" + "." + "0" == "1.0" && "1" + "." + "1" == "1.1";
  }

  /** An envelope is read as its runs. */
  lemma EnvelopedReads(stamp: Stamp, payload: Json, stated: bool, runs: seq<Json>)
    requires payload.Object? && Field(payload.fields, "runs") == List(runs)
    ensures ReadDocument(Enveloped(stamp, payload, stated)) == ReadRuns(runs)
  {
    EnvelopeFields(stamp, payload, stated);
    VersionsAreMajor(stated);
    hide Enveloped, Split, VersionFor, Generator, ReadRuns;
    var f := Enveloped(stamp, payload, stated).fields;
    assert Field(f, "payload") == payload && Shown(f, "schema_version") == VersionFor(stated);
  }

  lemma LineFields(stamp: Stamp, selection: Selection, run: Json)
    requires HasProfile(run)
    ensures ReadDocument(LineEnvelope(stamp, selection, run)) == ReadRuns([run])
    ensures LineEnvelope(stamp, selection, run).Object?
  {
    hide ReadDocument, HasProfile, StatesServingMode, Nullable;
    var payload := Object(map["complete" := Bool(false), "runs" := List([run]), "scope" := Text(selection.scope),
                              "selector" := Nullable(selection.selector)]);
    assert Field(payload.fields, "runs") == List([run]);
    EnvelopedReads(stamp, payload, StatesServingMode(run), [run]);
  }

  lemma EnvelopeReads(stamp: Stamp, selection: Selection, appendix: Option<map<string, Json>>, bundles: seq<Bundle>)
    requires AllProfiles(DocumentsOf(bundles))
    ensures Envelope(stamp, selection, appendix, DocumentsOf(bundles)).Object?
    ensures ReadDocument(Envelope(stamp, selection, appendix, DocumentsOf(bundles))) == Ok(Records(bundles))
  {
    hide ReadDocument, AllProfiles, AnyStates, Payload;
    var documents := DocumentsOf(bundles);
    PayloadFields(selection, appendix, documents);
    EnvelopedReads(stamp, Payload(selection, appendix, documents), AnyStates(documents), documents);
    RunsReadBack(bundles);
  }

  predicate AllLiterals(documents: seq<Json>) { forall i :: 0 <= i < |documents| ==> Literals(documents[i]) }

  lemma EnvelopedLiterals(stamp: Stamp, payload: Json, stated: bool)
    requires Literals(payload)
    ensures Literals(Enveloped(stamp, payload, stated))
  {
    EnvelopeFields(stamp, payload, stated);
    var g := Generator(stamp);
    assert forall k :: k in g.fields ==> g.fields[k].Text?;
    assert Literals(g);
    hide Enveloped, Generator;
    var j := Enveloped(stamp, payload, stated);
    forall k | k in j.fields ensures Literals(j.fields[k]) {
      assert k in j.fields.Keys;
    }
  }

  lemma EnvelopeLiterals(stamp: Stamp, selection: Selection, appendix: Option<map<string, Json>>, runs: seq<Json>)
    requires AllProfiles(runs) && AllLiterals(runs) && (appendix.Some? ==> Literals(Object(appendix.value)))
    ensures Literals(Envelope(stamp, selection, appendix, runs))
  {
    hide AllProfiles, AnyStates, Payload, Enveloped;
    PayloadFields(selection, appendix, runs);
    var payload := Payload(selection, appendix, runs);
    forall k | k in payload.fields ensures Literals(payload.fields[k]) {
      assert k in payload.fields.Keys;
    }
    EnvelopedLiterals(stamp, payload, AnyStates(runs));
  }

  /** The JSON form reads back as exactly the records of the runs exported, in their order. */
  lemma JsonReadsBack(stamp: Stamp, selection: Selection, appendix: Option<map<string, Json>>, bundles: seq<Bundle>)
    requires AllLiterals(DocumentsOf(bundles)) && (appendix.Some? ==> Literals(Object(appendix.value)))
    ensures AllProfiles(DocumentsOf(bundles))
    ensures ReadExport(Print(Envelope(stamp, selection, appendix, DocumentsOf(bundles)))) == Ok(Records(bundles))
  {
    AllHaveProfiles(bundles);
    hide AllProfiles, Envelope, Literals, ReadDocument, Print, Records, AllLiterals, Loads, LoadLines, Lines;
    var envelope := Envelope(stamp, selection, appendix, DocumentsOf(bundles));
    EnvelopeLiterals(stamp, selection, appendix, DocumentsOf(bundles));
    EnvelopeReads(stamp, selection, appendix, bundles);
    DocumentReads(envelope);
  }

  /** A text that is one printed object is read as that document. */
  lemma DocumentReads(j: Json)
    requires j.Object? && Literals(j)
    ensures ReadExport(Print(j)) == ReadDocument(j) && ReadExport(Print(j) + "\n") == ReadDocument(j)
  {
    hide Literals, ReadDocument, Print, Loads, LoadLines, Lines, Strip;
    ObjectTrimmed(j);
    StripTrimmed(Print(j));
    PrintFine(j, false);
    LoadsBack(j, "");
    assert Print(j) + "" == Print(j);
    assert '\n' !in Print(j);
    assert DocumentsIn(Print(j)) == Ok([j]);
    OneDocument(j);
  }

  lemma OneDocument(j: Json)
    ensures ReadDocuments([j]) == ReadDocument(j)
  {
    hide ReadDocument;
    assert [j][..0] == [];
    if ReadDocument(j).Ok? {
      assert [] + ReadDocument(j).value == ReadDocument(j).value;
    }
  }
}
