/** The exported envelopes member by member, the documents a reader refuses, and the characters of canonical text:
    src/freeweight/services/export.py. */
module ExportForms {
  import opened Canonical
  import opened Documents
  import opened Export
  import opened ExportReader
  import opened Results
  import opened Strings

  // ---------------------------------------------------------------------------------------
  // Canonical text
  // ---------------------------------------------------------------------------------------

  /** The second character of a two-character escape. */
  function Short(c: char): Option<char> {
    if c == '\"' || c == '\\' then Some(c)
    else if c as int == 10 then Some('n')
    else if c as int == 13 then Some('r')
    else if c as int == 9 then Some('t')
    else if c as int == 8 then Some('b')
    else if c as int == 12 then Some('f')
    else None
  }

  predicate LowerHex(c: char) { '0' <= c <= '9' || 'a' <= c <= 'f' }

  /** Only quotes, backslashes and control characters are escaped; by two characters where there is such an escape, and by
      four lower-case hexadecimal digits where not. */
  lemma EscapeExactly(c: char)
    ensures EscapeChar(c) == [c] <==> c != '\"' && c != '\\' && c as int >= 32
    ensures Short(c).Some? ==> EscapeChar(c) == ['\\', Short(c).value]
    ensures c as int < 32 && Short(c).None? ==>
              var e := EscapeChar(c);
              && |e| == 6 && e[..4] == "\\u00" && LowerHex(e[4]) && LowerHex(e[5])
              && HexValue(e[4]) * 16 + HexValue(e[5]) == c as int
  {
    if c as int < 32 && Short(c).None? {
      HexBack(c as int / 16);
      HexBack(c as int % 16);
    }
  }

  /** What the decoder takes for part of a number, for a hexadecimal digit, and for a two-character escape. */
  lemma DecoderCharacters(c: char)
    ensures NumberChar(c) <==> c in ['0', '1', '2', '3', '4', '5', '6', '7', '8', '9', '+', '-', '.', 'e', 'E']
    ensures LowerHex(c) ==> 0 <= HexValue(c) < 16 && HexDigit(HexValue(c)) == c
    ensures 'A' <= c <= 'F' ==> HexValue(c) == HexValue((c as int + 32) as char)
    ensures !LowerHex(c) && !('A' <= c <= 'F') ==> HexValue(c) < 0
    ensures Unescaped(c) != "" <==> c in ['\"', '\\', '/', 'b', 'f', 'n', 'r', 't']
    ensures Unescaped('/') == "/"
  {
  }

  /** Only the four characters JSON allows between values may follow one. */
  lemma {:induction false} BlankExactly(text: string)
    ensures Blank(text) <==> multiset(text)[' '] + multiset(text)['\t'] + multiset(text)['\n'] + multiset(text)['\r'] == |text|
  {
    if text != "" {
      var front, c := text[..|text| - 1], text[|text| - 1];
      assert text == front + [c];
      BlankExactly(front);
      assert Blank(text) <==> Blank(front) && Space(c);
      NoMoreThanAll(front);
    }
  }

  lemma {:induction false} NoMoreThanAll(text: string)
    ensures multiset(text)[' '] + multiset(text)['\t'] + multiset(text)['\n'] + multiset(text)['\r'] <= |text|
  {
    if text != "" {
      assert text == text[..|text| - 1] + [text[|text| - 1]];
      NoMoreThanAll(text[..|text| - 1]);
    }
  }

  ghost function Member(j: Json, key: string): string
    requires j.Object? && key in j.fields
  {
    Quote(key) + ":" + Print(j.fields[key])
  }

  ghost predicate Within(j: Json, keys: seq<string>) { j.Object? && forall i :: 0 <= i < |keys| ==> keys[i] in j.fields }

  lemma MembersCons(j: Json, keys: seq<string>)
    requires Within(j, keys) && keys != []
    ensures Within(j, keys[1..])
    ensures PrintMembers(j, keys) == Member(j, keys[0]) + if |keys| == 1 then "" else "," + PrintMembers(j, keys[1..])
  {
    hide Print, Quote;
  }

  lemma {:induction false} MemberStands(j: Json, keys: seq<string>, i: nat) returns (before: string, after: string)
    requires Within(j, keys) && i < |keys|
    ensures PrintMembers(j, keys) == before + Member(j, keys[i]) + after
    ensures (before == "" || before[|before| - 1] == ',') && (after == "" || after[0] == ',')
  {
    hide PrintMembers, Member;
    MembersCons(j, keys);
    if i == 0 {
      before, after := "", if |keys| == 1 then "" else "," + PrintMembers(j, keys[1..]);
    } else {
      before, after := MemberStands(j, keys[1..], i - 1);
      assert keys[1..][i - 1] == keys[i];
      before := Member(j, keys[0]) + "," + before;
    }
  }

  lemma {:induction false} TwoMembersStand(j: Json, keys: seq<string>, i: nat, k: nat)
    returns (before: string, between: string, after: string)
    requires Within(j, keys) && i < k < |keys|
    ensures PrintMembers(j, keys) == before + Member(j, keys[i]) + "," + between + Member(j, keys[k]) + after
  {
    hide PrintMembers, Member;
    MembersCons(j, keys);
    if i == 0 {
      before := "";
      between, after := MemberStands(j, keys[1..], k - 1);
      assert keys[1..][k - 1] == keys[k];
    } else {
      before, between, after := TwoMembersStand(j, keys[1..], i - 1, k - 1);
      assert keys[1..][k - 1] == keys[k] && keys[1..][i - 1] == keys[i];
      before := Member(j, keys[0]) + "," + before;
    }
  }

  lemma OrderedPlaces(keys: seq<string>, a: string, b: string) returns (i: nat, k: nat)
    requires Ascending(keys) && a in keys && b in keys && Below(a, b) && a != b
    ensures i < k < |keys| && keys[i] == a && keys[k] == b
  {
    i :| 0 <= i < |keys| && keys[i] == a;
    k :| 0 <= k < |keys| && keys[k] == b;
    BelowTotal(a, b);
    hide Below;
  }

  /** In the canonical text of an object the member of the lesser key stands before that of the greater. */
  lemma MembersInOrder(j: Json, a: string, b: string) returns (before: string, between: string, after: string)
    requires j.Object? && a in j.fields && b in j.fields && Below(a, b) && a != b
    ensures Print(j) == "{" + (before + Member(j, a) + "," + between + Member(j, b) + after) + "}"
  {
    var keys := SortedKeys(j.fields.Keys);
    PrintObject(j);
    assert forall i :: 0 <= i < |keys| ==> keys[i] in keys;
    hide Print, PrintMembers, Member, Ascending, Below;
    var i, k := OrderedPlaces(keys, a, b);
    before, between, after := TwoMembersStand(j, keys, i, k);
  }

  // ---------------------------------------------------------------------------------------
  // Envelopes
  // ---------------------------------------------------------------------------------------

  /** The run's profile says whether adapters are registered. */
  predicate SaysAdapters(run: Json) {
    && run.Object? && "summary" in run.fields && run.fields["summary"].Object?
    && "runtime_profile" in run.fields["summary"].fields && run.fields["summary"].fields["runtime_profile"].Object?
    && "adapters_registered" in run.fields["summary"].fields["runtime_profile"].fields
  }

  predicate TextOrNull(j: Json, value: Option<string>) {
    match value
    case None => j == Null
    case Some(s) => j == Text(s)
  }

  predicate Carries(envelope: Json, stamp: Stamp, version: string) {
    && envelope.Object? && envelope.fields.Keys == {"generated_at", "generator", "payload", "schema", "schema_version"}
    && envelope.fields["generated_at"] == Text(stamp.generatedAt)
    && envelope.fields["generator"] == Object(map["name" := Text(stamp.name), "version" := Text(stamp.version)])
    && envelope.fields["schema"] == Text("freeweight.export")
    && envelope.fields["schema_version"] == Text(version)
    && envelope.fields["payload"].Object?
  }

  lemma StatesIs(run: Json)
    requires HasProfile(run)
    ensures StatesServingMode(run) <==> SaysAdapters(run)
  {
  }

  lemma CarriesIs(stamp: Stamp, payload: Json, stated: bool)
    requires payload.Object?
    ensures Carries(Enveloped(stamp, payload, stated), stamp, if stated then "1.1" else "1.0")
    ensures Enveloped(stamp, payload, stated).Object? && "payload" in Enveloped(stamp, payload, stated).fields
    ensures Enveloped(stamp, payload, stated).fields["payload"] == payload
  {
    EnvelopeFields(stamp, payload, stated);
    hide Enveloped;
  }

  lemma NullableIs(value: Option<string>)
    ensures TextOrNull(Nullable(value), value)
  {
  }

  /** The single document: complete, with every run and what was asked for; its version is 1.1 exactly when some run says
      whether adapters are registered. */
  lemma EnvelopeIs(stamp: Stamp, selection: Selection, appendix: Option<map<string, Json>>, runs: seq<Json>)
    requires AllProfiles(runs)
    ensures var envelope := Envelope(stamp, selection, appendix, runs);
            Carries(envelope, stamp, if exists i :: 0 <= i < |runs| && SaysAdapters(runs[i]) then "1.1" else "1.0")
    ensures var payload := Envelope(stamp, selection, appendix, runs).fields["payload"].fields;
            && payload.Keys == {"complete", "runs", "scope", "selector", "since", "until"} +
                               (if appendix.Some? then {"prompt_appendix"} else {})
            && payload["complete"] == Bool(true) && payload["runs"] == List(runs) && payload["scope"] == Text(selection.scope)
            && TextOrNull(payload["selector"], selection.selector) && TextOrNull(payload["since"], selection.since)
            && TextOrNull(payload["until"], selection.until)
            && (appendix.Some? ==> payload["prompt_appendix"] == Object(appendix.value))
  {
    PayloadFields(selection, appendix, runs);
    CarriesIs(stamp, Payload(selection, appendix, runs), AnyStates(runs));
    NullableIs(selection.selector);
    NullableIs(selection.since);
    NullableIs(selection.until);
    hide Enveloped, Payload, Carries, TextOrNull, Nullable, StatesServingMode, SaysAdapters, HasProfile;
    forall i: nat | i < |runs| ensures StatesServingMode(runs[i]) <==> SaysAdapters(runs[i]) {
      StatesIs(runs[i]);
    }
  }

  /** A line: one run, never complete, with what was asked for but not when; its version is the run's own. */
  lemma LineIs(stamp: Stamp, selection: Selection, run: Json)
    requires HasProfile(run)
    ensures var line := LineEnvelope(stamp, selection, run);
            Carries(line, stamp, if SaysAdapters(run) then "1.1" else "1.0")
    ensures var payload := LineEnvelope(stamp, selection, run).fields["payload"].fields;
            && payload.Keys == {"complete", "runs", "scope", "selector"}
            && payload["complete"] == Bool(false) && payload["runs"] == List([run]) && payload["scope"] == Text(selection.scope)
            && TextOrNull(payload["selector"], selection.selector)
  {
    StatesIs(run);
    NullableIs(selection.selector);
    hide Enveloped, Carries, TextOrNull, Nullable, StatesServingMode, SaysAdapters, HasProfile;
    var payload := Object(map["complete" := Bool(false), "runs" := List([run]), "scope" := Text(selection.scope),
                              "selector" := Nullable(selection.selector)]);
    CarriesIs(stamp, payload, StatesServingMode(run));
    assert payload.fields.Keys == {"complete", "runs", "scope", "selector"};
  }

  // ---------------------------------------------------------------------------------------
  // What the reader refuses
  // ---------------------------------------------------------------------------------------

  lemma {:induction false} FirstDot(text: string) returns (i: nat)
    requires '.' in text
    ensures i < |text| && text[i] == '.' && '.' !in text[..i]
    ensures forall k :: 0 <= k < i ==> text[k] != '.'
  {
    if text[0] == '.' {
      i := 0;
    } else {
      assert text == [text[0]] + text[1..];
      var k := FirstDot(text[1..]);
      i := k + 1;
      assert text[..i] == [text[0]] + text[1..][..i - 1];
    }
  }

  lemma OneDot(text: string)
    requires "1." <= text
    ensures |text| >= 2 && text[0] == '1' && text[1] == '.' && '.' in text
  {
  }

  /** The part before the first dot. */
  lemma MajorIs(text: string)
    ensures Split(text)[0] == "1" <==> text == "1" || "1." <= text
  {
    if "1." <= text {
      OneDot(text);
    }
    if '.' in text {
      var i := FirstDot(text);
      var left, right := text[..i], text[i + 1..];
      assert text == left + "." + right;
      SplitAtDot(left, right);
      SplitPlain(left);
    } else {
      SplitPlain(text);
    }
    hide Split;
  }

  /** A version of the first major, written as a text or as a number. */
  predicate VersionOne(fields: map<string, Json>) {
    "schema_version" in fields &&
    match fields["schema_version"]
    case Text(s) => s == "1" || "1." <= s
    case Number(literal) => literal == "1" || "1." <= literal
    case _ => false
  }

  /** What stands for no measurement, or for one. */
  predicate Measures(fields: map<string, Json>, key: string) {
    key !in fields || fields[key] == Null || fields[key].Number? || fields[key] == Text("unsupported")
  }

  predicate Counts(fields: map<string, Json>, key: string) {
    key !in fields || fields[key] == Null || fields[key].Number?
  }

  predicate Legible(row: map<string, Json>) {
    && Measures(row, "value") && Measures(row, "stddev") && Measures(row, "coefficient_of_variation")
    && Counts(row, "sample_count") && Counts(row, "excluded_count")
  }

  lemma MetricRefused(row: map<string, Json>)
    ensures ReadMetric(row).ValueError? <==> !Legible(row)
  {
    hide Shown, Truthy;
  }

  lemma {:induction false} MetricsRefused(rows: seq<Json>)
    ensures ReadMetrics(rows).ValueError? <==> exists k :: 0 <= k < |rows| && rows[k].Object? && !Legible(rows[k].fields)
  {
    hide ReadMetric, Legible;
    if rows != [] {
      var n := |rows| - 1;
      MetricsRefused(rows[..n]);
      assert forall k :: 0 <= k < n ==> rows[..n][k] == rows[k];
      if rows[n].Object? {
        MetricRefused(rows[n].fields);
      }
    }
  }

  /** An entry with a list of metrics one of which cannot be read. */
  predicate Illegible(entry: Json) {
    && entry.Object? && "metrics" in entry.fields && entry.fields["metrics"].List?
    && exists k :: 0 <= k < |entry.fields["metrics"].items| &&
         entry.fields["metrics"].items[k].Object? && !Legible(entry.fields["metrics"].items[k].fields)
  }

  lemma RunRefused(entry: Json)
    requires entry.Object?
    ensures ReadRun(entry.fields).ValueError? <==> Illegible(entry)
  {
    hide ReadMetrics, Legible, Shown;
    if "metrics" in entry.fields && entry.fields["metrics"].List? {
      MetricsRefused(entry.fields["metrics"].items);
    }
  }

  lemma {:induction false} RunsRefused(entries: seq<Json>)
    ensures ReadRuns(entries).ValueError? <==> exists i :: 0 <= i < |entries| && Illegible(entries[i])
  {
    hide ReadRun, Illegible;
    if entries != [] {
      var n := |entries| - 1;
      RunsRefused(entries[..n]);
      assert forall k :: 0 <= k < n ==> entries[..n][k] == entries[k];
      if entries[n].Object? {
        RunRefused(entries[n]);
      } else {
        NotIllegible(entries[n]);
      }
    }
  }

  lemma NotIllegible(entry: Json)
    requires !entry.Object?
    ensures !Illegible(entry)
  {
  }

  /** The runs listed in a document's payload. */
  function Listed(fields: map<string, Json>): seq<Json> {
    if "payload" in fields && fields["payload"].Object? && "runs" in fields["payload"].fields && fields["payload"].fields["runs"].List?
    then fields["payload"].fields["runs"].items else []
  }

  lemma MajorShown(fields: map<string, Json>)
    ensures Split(Shown(fields, "schema_version"))[0] == "1" <==> VersionOne(fields)
  {
    MajorIs(Shown(fields, "schema_version"));
    hide Split;
    var none := Shown(fields, "schema_version");
    if none == "" || none == "None" || none == "True" || none == "False" {
      assert none != "" ==> none[0] != '1';
    }
  }

  lemma ReadsListed(document: Json)
    requires document.Object?
    ensures ReadDocument(document) ==
            if Field(document.fields, "schema") != Text(EXPORT_SCHEMA) ||
                Split(Shown(document.fields, "schema_version"))[0] != MAJOR then ValueError
            else ReadRuns(Listed(document.fields))
  {
    hide ReadRun, Split, Shown;
  }

  /** A document is refused exactly when it is not an export, is of another major version, or lists a run one of whose
      metrics holds a measurement or a count that is none. */
  lemma RefusedExactly(document: Json)
    ensures ReadDocument(document).ValueError? <==>
            || !document.Object?
            || !("schema" in document.fields && document.fields["schema"] == Text("freeweight.export"))
            || !VersionOne(document.fields)
            || exists i :: 0 <= i < |Listed(document.fields)| && Illegible(Listed(document.fields)[i])
  {
    hide ReadRuns, Split, Shown, Listed, Illegible, VersionOne;
    if document.Object? {
      ReadsListed(document);
      MajorShown(document.fields);
      RunsRefused(Listed(document.fields));
      hide ReadDocument;
    }
  }

  // ---------------------------------------------------------------------------------------
  // What the reader makes of the unexpected
  // ---------------------------------------------------------------------------------------

  /** Python's false values. */
  lemma TruthyExactly(j: Json)
    ensures Truthy(j) <==> j !in {Null, Bool(false), Number("0"), Number("0.0"), Text(""), List([]), Object(map[])}
  {
  }

  /** A count that is null or missing is none; one that is a number stays. */
  lemma CountedExactly(j: Json, literal: string)
    ensures Counted(Null) == Ok("0") && Counted(Number(literal)) == Ok(literal)
    ensures Counted(j).Ok? <==> j == Null || j.Number?
  {
  }

  /** A name is shown as the text or literal it is, or as Python shows None, True and False; a missing one is empty. */
  lemma ShownExactly(fields: map<string, Json>, key: string, s: string)
    ensures key !in fields ==> Shown(fields, key) == ""
    ensures key in fields ==>
              && (fields[key] == Text(s) || fields[key] == Number(s) ==> Shown(fields, key) == s)
              && (fields[key] == Null ==> Shown(fields, key) == "None")
              && (fields[key] == Bool(true) ==> Shown(fields, key) == "True")
              && (fields[key] == Bool(false) ==> Shown(fields, key) == "False")
  {
  }

  lemma OpenedIsObject(text: string)
    requires text != "" && text[0] == '{' && Loads(text).Decoded?
    ensures Loads(text).value.Object?
  {
    hide ParseItems, ParseMembers, ParseText, Span;
  }

  /** A text that opens an object and decodes is that one document, on one line or on several; any other text is taken line
      by line. */
  lemma WholeOrLines(stripped: string)
    requires stripped != ""
    ensures DocumentsIn(stripped) ==
            if stripped[0] == '{' && Loads(stripped).Decoded? then Ok([Loads(stripped).value]) else LoadLines(Lines(stripped))
  {
    if stripped[0] == '{' && Loads(stripped).Decoded? {
      OpenedIsObject(stripped);
    }
    hide Loads, LoadLines, Lines;
  }

  /** Line by line, a text is refused exactly where a line that is not blank does not decode. */
  lemma {:induction false} LinesLoaded(lines: seq<string>)
    ensures LoadLines(lines).ValueError? <==>
            exists i :: 0 <= i < |lines| && Strip(lines[i]) != "" && Loads(lines[i]).DecodeError?
  {
    hide Strip, Loads;
    if lines != [] {
      var n := |lines| - 1;
      LinesLoaded(lines[..n]);
      assert forall k :: 0 <= k < n ==> lines[..n][k] == lines[k];
      assert Strip(lines[n]) != "" && Loads(lines[n]).DecodeError? ==> LoadLines(lines).ValueError?;
    }
  }
}
