/** Result exports of src/freeweight/services/export.py: the streamed JSON document, the line-per-run form, and
    the reader of both. */
module Export {
  import opened Canonical
  import opened Documents
  import opened Results
  import opened Strings

  const EXPORT_SCHEMA := "freeweight.export"
  const VERSION := "1.0"
  const VERSION_SERVING_MODE := "1.1"
  const MAJOR := "1"
  const UNSUPPORTED := "unsupported"

  /** What was asked for; the envelope carries it beside the runs. */
  datatype Selection = Selection(scope: string, selector: Option<string>, since: Option<string>, until: Option<string>)

  /** The envelope's fields that do not depend on the runs. */
  datatype Stamp = Stamp(generatedAt: string, name: string, version: string)

  function Nullable(s: Option<string>): Json { if s.Some? then Text(s.value) else Null }

  function Generator(stamp: Stamp): Json { Object(map["name" := Text(stamp.name), "version" := Text(stamp.version)]) }

  // ---------------------------------------------------------------------------------------
  // The envelopes
  // ---------------------------------------------------------------------------------------

  /** A run document with a runtime profile in its summary, as every bundle has. */
  predicate HasProfile(document: Json) {
    && document.Object?
    && Field(document.fields, "summary").Object?
    && Field(Field(document.fields, "summary").fields, "runtime_profile").Object?
  }

  predicate StatesServingMode(document: Json)
    requires HasProfile(document)
  {
    "adapters_registered" in Field(Field(document.fields, "summary").fields, "runtime_profile").fields
  }

  predicate AllProfiles(runs: seq<Json>) { forall i :: 0 <= i < |runs| ==> HasProfile(runs[i]) }

  predicate AnyStates(runs: seq<Json>)
    requires AllProfiles(runs)
  {
    exists i :: 0 <= i < |runs| && StatesServingMode(runs[i])
  }

  function VersionFor(stated: bool): string { if stated then VERSION_SERVING_MODE else VERSION }

  function Payload(selection: Selection, appendix: Option<map<string, Json>>, runs: seq<Json>): Json {
    var fields := map["complete" := Bool(true), "runs" := List(runs), "scope" := Text(selection.scope),
                      "selector" := Nullable(selection.selector), "since" := Nullable(selection.since),
                      "until" := Nullable(selection.until)];
    Object(if appendix.Some? then fields["prompt_appendix" := Object(appendix.value)] else fields)
  }

  function Enveloped(stamp: Stamp, payload: Json, stated: bool): Json {
    Object(map["generated_at" := Text(stamp.generatedAt), "generator" := Generator(stamp), "payload" := payload,
               "schema" := Text(EXPORT_SCHEMA), "schema_version" := Text(VersionFor(stated))])
  }

  /** The single-envelope form: every run in one document. */
  function Envelope(stamp: Stamp, selection: Selection, appendix: Option<map<string, Json>>, runs: seq<Json>): Json
    requires AllProfiles(runs)
  {
    Enveloped(stamp, Payload(selection, appendix, runs), AnyStates(runs))
  }

  /** The line-per-run form: one run in an envelope of its own. */
  function LineEnvelope(stamp: Stamp, selection: Selection, run: Json): Json
    requires HasProfile(run)
  {
    Enveloped(stamp, Object(map["complete" := Bool(false), "runs" := List([run]), "scope" := Text(selection.scope),
                                "selector" := Nullable(selection.selector)]),
              StatesServingMode(run))
  }

  // ---------------------------------------------------------------------------------------
  // Printing with the key order written out
  // ---------------------------------------------------------------------------------------

  /** The first difference decides. */
  lemma {:induction false} DiffersAt(a: string, b: string, k: nat)
    requires k < |a| && k < |b| && a[..k] == b[..k] && a[k] < b[k]
    ensures Below(a, b) && a != b
  {
    if k > 0 {
      assert a[0] == a[..k][0] == b[..k][0] == b[0];
      assert a[1..][..k - 1] == a[..k][1..] == b[..k][1..] == b[1..][..k - 1];
      DiffersAt(a[1..], b[1..], k - 1);
    }
  }

  lemma {:induction false} PrefixBelow(a: string, b: string)
    requires a <= b
    ensures Below(a, b)
  {
    if a != "" {
      assert a[1..] <= b[1..];
      PrefixBelow(a[1..], b[1..]);
    }
  }

  /** Neighbours in order are in order throughout. */
  predicate Chained(keys: seq<string>) {
    forall i :: 0 <= i < |keys| - 1 ==> Below(keys[i], keys[i + 1]) && keys[i] != keys[i + 1]
  }

  lemma {:induction false} ChainedAscends(keys: seq<string>)
    requires Chained(keys)
    ensures Ascending(keys)
  {
    forall i, j | 0 <= i < j < |keys| ensures Below(keys[i], keys[j]) && keys[i] != keys[j] {
      ChainedBelow(keys, i, j);
    }
  }

  lemma {:induction false} ChainedBelow(keys: seq<string>, i: nat, j: nat)
    requires Chained(keys) && i < j < |keys|
    ensures Below(keys[i], keys[j]) && keys[i] != keys[j]
    decreases j
  {
    if i < j - 1 {
      ChainedBelow(keys, i, j - 1);
      BelowTransitive(keys[i], keys[j - 1], keys[j]);
      BelowTotal(keys[i], keys[j - 1]);
      BelowTotal(keys[j - 1], keys[j]);
    }
  }

  /** The canonical print, for keys already known in order. */
  lemma PrintInOrder(j: Json, keys: seq<string>)
    requires j.Object? && Ascending(keys) && forall k :: k in keys <==> k in j.fields
    ensures forall i :: 0 <= i < |keys| ==> keys[i] in j.fields
    ensures Print(j) == "{" + PrintMembers(j, keys) + "}"
  {
    AscendingUnique(keys, SortedKeys(j.fields.Keys));
    PrintObject(j);
    hide Print, PrintMembers;
  }

  ghost function MemberText(j: Json, key: string): string
    requires j.Object? && key in j.fields
  {
    Quote(key) + ":" + Print(j.fields[key])
  }

  predicate Before(a: string, b: string) { Below(a, b) && a != b }

  lemma EnvelopeNeighbours()
    ensures Before("generated_at", "generator") && Before("generator", "payload")
    ensures Before("payload", "schema")
  {
    DiffersAt("generated_at", "generator", 7);
    DiffersAt("generator", "payload", 0);
    DiffersAt("payload", "schema", 0);
    hide Below;
  }

  lemma SchemaNeighbours()
    ensures Before("schema", "schema_version")
  {
    PrefixBelow("schema", "schema_version");
    hide Below;
  }

  lemma EnvelopeKeys()
    ensures Ascending(["generated_at", "generator", "payload", "schema", "schema_version"])
  {
    EnvelopeNeighbours();
    SchemaNeighbours();
    hide Below, Ascending;
    ChainedAscends(["generated_at", "generator", "payload", "schema", "schema_version"]);
  }

  lemma PayloadNeighbours()
    ensures Before("complete", "prompt_appendix") && Before("prompt_appendix", "runs") && Before("complete", "runs")
    ensures Before("runs", "scope")
  {
    DiffersAt("complete", "prompt_appendix", 0);
    DiffersAt("prompt_appendix", "runs", 0);
    DiffersAt("complete", "runs", 0);
    DiffersAt("runs", "scope", 0);
    hide Below;
  }

  lemma SelectionNeighbours()
    ensures Before("scope", "selector") && Before("selector", "since") && Before("since", "until")
  {
    DiffersAt("scope", "selector", 1);
    DiffersAt("selector", "since", 1);
    DiffersAt("since", "until", 0);
    hide Below;
  }

  lemma PlainPayloadKeys()
    ensures Ascending(["complete", "runs", "scope", "selector", "since", "until"])
  {
    PayloadNeighbours();
    SelectionNeighbours();
    hide Below, Ascending;
    ChainedAscends(["complete", "runs", "scope", "selector", "since", "until"]);
  }

  lemma FullPayloadKeys()
    ensures Ascending(["complete", "prompt_appendix", "runs", "scope", "selector", "since", "until"])
  {
    PayloadNeighbours();
    SelectionNeighbours();
    hide Below, Ascending;
    ChainedAscends(["complete", "prompt_appendix", "runs", "scope", "selector", "since", "until"]);
  }

  /** "".join */
  function Cat(pieces: seq<string>): string {
    if pieces == [] then "" else pieces[0] + Cat(pieces[1..])
  }

  lemma {:induction false} CatConcat(a: seq<string>, b: seq<string>)
    ensures Cat(a + b) == Cat(a) + Cat(b)
  {
    if a == [] {
      assert a + b == b;
    } else {
      assert (a + b)[1..] == a[1..] + b;
      CatConcat(a[1..], b);
    }
  }

  lemma CatOne(piece: string)
    ensures Cat([piece]) == piece
  {
    assert [piece][1..] == [] && Cat([]) == "";
  }

  /** key, colon, printed value */
  function Keyed(key: string, text: string): string { "\"" + key + "\":" + text }

  ghost function Pair(key: string, value: Json): string { Keyed(key, Print(value)) }

  /** A key of plain letters needs no escape. */
  predicate Bare(key: string) { forall i :: 0 <= i < |key| ==> key[i] > ' ' && key[i] != '\"' && key[i] != '\\' }

  lemma {:induction false} BareUnescaped(key: string)
    requires Bare(key)
    ensures Escape(key) == key
  {
    if key != "" {
      BareUnescaped(key[1..]);
      assert key == [key[0]] + key[1..];
    }
  }

  lemma BareMember(j: Json, key: string)
    requires j.Object? && key in j.fields && Bare(key)
    ensures MemberText(j, key) == Pair(key, j.fields[key])
  {
    BareUnescaped(key);
    hide Print, Escape;
  }

  /** The members' texts with commas between. */
  ghost function Pieces(j: Json, keys: seq<string>): seq<string>
    requires j.Object? && forall i :: 0 <= i < |keys| ==> keys[i] in j.fields
  {
    if keys == [] then []
    else if |keys| == 1 then [Pair(keys[0], j.fields[keys[0]])]
    else [Pair(keys[0], j.fields[keys[0]]), ","] + Pieces(j, keys[1..])
  }

  lemma {:induction false} MembersArePieces(j: Json, keys: seq<string>)
    requires j.Object? && forall i :: 0 <= i < |keys| ==> keys[i] in j.fields && Bare(keys[i])
    ensures PrintMembers(j, keys) == Cat(Pieces(j, keys))
  {
    hide Print, Pair, MemberText, Quote;
    if keys == [] {
    } else {
      MembersStep(j, keys);
      BareMember(j, keys[0]);
      var pair := Pair(keys[0], j.fields[keys[0]]);
      if |keys| == 1 {
        CatOne(pair);
        MemberIs(j, keys[0]);
        assert PrintMembers(j, keys) == MemberText(j, keys[0]);
      } else {
        MembersArePieces(j, keys[1..]);
        CatConcat([pair, ","], Pieces(j, keys[1..]));
        CatTwo(pair, ",");
        assert PrintMembers(j, keys) == pair + ("," + PrintMembers(j, keys[1..])) by {
          assert MemberText(j, keys[0]) == Quote(keys[0]) + ":" + Print(j.fields[keys[0]]) by { MemberIs(j, keys[0]); }
        }
      }
    }
  }

  lemma MemberIs(j: Json, key: string)
    requires j.Object? && key in j.fields
    ensures MemberText(j, key) == Quote(key) + ":" + Print(j.fields[key])
  {
  }

  lemma CatTwo(a: string, b: string)
    ensures Cat([a, b]) == a + b
  {
    assert [a, b][1..] == [b];
    CatOne(b);
  }

  /** The canonical print of an object, for bare keys already known in order. */
  lemma PrintBare(j: Json, keys: seq<string>)
    requires j.Object? && Ascending(keys) && forall k :: k in keys <==> k in j.fields
    requires forall i :: 0 <= i < |keys| ==> Bare(keys[i])
    ensures forall i :: 0 <= i < |keys| ==> keys[i] in j.fields
    ensures Print(j) == Cat(["{"] + Pieces(j, keys) + ["}"])
  {
    hide Print, PrintMembers, Pieces, Bare, Ascending;
    PrintInOrder(j, keys);
    MembersArePieces(j, keys);
    CatConcat(["{"] + Pieces(j, keys), ["}"]);
    CatConcat(["{"], Pieces(j, keys));
    CatOne("{");
    CatOne("}");
  }

  lemma PiecesCons(j: Json, key: string, more: seq<string>)
    requires j.Object? && key in j.fields && more != [] && forall i :: 0 <= i < |more| ==> more[i] in j.fields
    ensures forall i :: 0 <= i < |[key] + more| ==> ([key] + more)[i] in j.fields
    ensures Pieces(j, [key] + more) == [Pair(key, j.fields[key]), ","] + Pieces(j, more)
  {
    assert ([key] + more)[1..] == more && ([key] + more)[0] == key;
    hide Pair;
  }

  lemma PiecesOfThree(j: Json, a: string, b: string, c: string)
    requires j.Object? && a in j.fields && b in j.fields && c in j.fields
    ensures Pieces(j, [a, b, c]) == [Pair(a, j.fields[a]), ",", Pair(b, j.fields[b]), ",", Pair(c, j.fields[c])]
  {
    hide Pair;
    PiecesCons(j, a, [b, c]);
    PiecesCons(j, b, [c]);
    assert [a] + [b, c] == [a, b, c] && [b] + [c] == [b, c];
  }

  lemma PiecesOfFive(j: Json, a: string, b: string, c: string, d: string, e: string)
    requires j.Object? && a in j.fields && b in j.fields && c in j.fields && d in j.fields && e in j.fields
    ensures Pieces(j, [a, b, c, d, e]) ==
            [Pair(a, j.fields[a]), ",", Pair(b, j.fields[b]), ",", Pair(c, j.fields[c]), ",",
             Pair(d, j.fields[d]), ",", Pair(e, j.fields[e])]
  {
    hide Pair, Pieces;
    PiecesCons(j, a, [b, c, d, e]);
    PiecesCons(j, b, [c, d, e]);
    PiecesOfThree(j, c, d, e);
    assert [a] + [b, c, d, e] == [a, b, c, d, e] && [b] + [c, d, e] == [b, c, d, e];
  }

  lemma EnvelopeFields(stamp: Stamp, payload: Json, stated: bool)
    ensures Enveloped(stamp, payload, stated).Object?
    ensures var f := Enveloped(stamp, payload, stated).fields;
            && f.Keys == {"generated_at", "generator", "payload", "schema", "schema_version"}
            && f["generated_at"] == Text(stamp.generatedAt) && f["generator"] == Generator(stamp)
            && f["payload"] == payload && f["schema"] == Text(EXPORT_SCHEMA)
            && f["schema_version"] == Text(VersionFor(stated))
  {
  }

  ghost function EnvelopePieces(stamp: Stamp, payload: string, stated: bool): seq<string> {
    [Pair("generated_at", Text(stamp.generatedAt)), ",", Pair("generator", Generator(stamp)), ",",
     payload, ",", Pair("schema", Text(EXPORT_SCHEMA)), ",", Pair("schema_version", Text(VersionFor(stated)))]
  }

  lemma BareEnvelopeKeys()
    ensures Bare("generated_at") && Bare("generator") && Bare("payload") && Bare("schema") && Bare("schema_version")
  {
  }

  lemma BareRunKeys()
    ensures Bare("complete") && Bare("prompt_appendix") && Bare("runs")
  {
  }

  lemma BareSelectionKeys()
    ensures Bare("scope") && Bare("selector") && Bare("since") && Bare("until")
  {
  }

  /** The envelope's canonical print. */
  lemma PrintEnveloped(stamp: Stamp, payload: Json, stated: bool)
    ensures Print(Enveloped(stamp, payload, stated)) ==
            Cat(["{"] + EnvelopePieces(stamp, Pair("payload", payload), stated) + ["}"])
  {
    EnvelopeKeys();
    EnvelopeFields(stamp, payload, stated);
    BareEnvelopeKeys();
    hide Print, Pair, Enveloped, Bare, Ascending, Generator, VersionFor, Pieces;
    var j := Enveloped(stamp, payload, stated);
    PrintBare(j, ["generated_at", "generator", "payload", "schema", "schema_version"]);
    PiecesOfFive(j, "generated_at", "generator", "payload", "schema", "schema_version");
  }

  lemma PayloadFields(selection: Selection, appendix: Option<map<string, Json>>, runs: seq<Json>)
    ensures Payload(selection, appendix, runs).Object?
    ensures var f := Payload(selection, appendix, runs).fields;
            && f.Keys == {"complete", "runs", "scope", "selector", "since", "until"} +
                         (if appendix.Some? then {"prompt_appendix"} else {})
            && f["complete"] == Bool(true) && f["runs"] == List(runs) && f["scope"] == Text(selection.scope)
            && f["selector"] == Nullable(selection.selector) && f["since"] == Nullable(selection.since)
            && f["until"] == Nullable(selection.until)
            && (appendix.Some? ==> f["prompt_appendix"] == Object(appendix.value))
  {
  }

  ghost function SelectionPieces(selection: Selection): seq<string> {
    [",", Pair("scope", Text(selection.scope)), ",", Pair("selector", Nullable(selection.selector)), ",",
     Pair("since", Nullable(selection.since)), ",", Pair("until", Nullable(selection.until))]
  }

  /** The pieces before the runs. */
  ghost function OpeningPieces(appendix: Option<map<string, Json>>): seq<string> {
    if appendix.Some? then [Pair("complete", Bool(true)), ",", Pair("prompt_appendix", Object(appendix.value)), ","]
    else [Pair("complete", Bool(true)), ","]
  }

  const WITH_APPENDIX: seq<string> := ["complete", "prompt_appendix", "runs", "scope", "selector", "since", "until"]

  const WITHOUT_APPENDIX: seq<string> := ["complete", "runs", "scope", "selector", "since", "until"]

  function PayloadKeyList(appendix: Option<map<string, Json>>): seq<string> {
    if appendix.Some? then WITH_APPENDIX else WITHOUT_APPENDIX
  }

  lemma KeysWithAppendix(selection: Selection, appendix: map<string, Json>, runs: seq<Json>)
    ensures var j := Payload(selection, Some(appendix), runs);
            && j.Object? && Ascending(WITH_APPENDIX) && (forall k :: k in WITH_APPENDIX <==> k in j.fields)
            && (forall i :: 0 <= i < |WITH_APPENDIX| ==> WITH_APPENDIX[i] in j.fields && Bare(WITH_APPENDIX[i]))
  {
    FullPayloadKeys();
    PayloadFields(selection, Some(appendix), runs);
    BareRunKeys();
    BareSelectionKeys();
    hide Payload, Bare, Ascending, Nullable;
    var j := Payload(selection, Some(appendix), runs);
    assert forall k :: k in WITH_APPENDIX <==> k in j.fields.Keys;
  }

  lemma KeysWithoutAppendix(selection: Selection, runs: seq<Json>)
    ensures var j := Payload(selection, None, runs);
            && j.Object? && Ascending(WITHOUT_APPENDIX) && (forall k :: k in WITHOUT_APPENDIX <==> k in j.fields)
            && (forall i :: 0 <= i < |WITHOUT_APPENDIX| ==> WITHOUT_APPENDIX[i] in j.fields && Bare(WITHOUT_APPENDIX[i]))
  {
    PlainPayloadKeys();
    PayloadFields(selection, None, runs);
    BareRunKeys();
    BareSelectionKeys();
    hide Payload, Bare, Ascending, Nullable;
    var j := Payload(selection, None, runs);
    assert forall k :: k in WITHOUT_APPENDIX <==> k in j.fields.Keys;
  }

  lemma PayloadKeysHold(selection: Selection, appendix: Option<map<string, Json>>, runs: seq<Json>)
    ensures var j, keys := Payload(selection, appendix, runs), PayloadKeyList(appendix);
            && j.Object? && Ascending(keys) && (forall k :: k in keys <==> k in j.fields)
            && (forall i :: 0 <= i < |keys| ==> keys[i] in j.fields && Bare(keys[i]))
  {
    hide Payload, Bare, Ascending, Nullable;
    if appendix.Some? {
      KeysWithAppendix(selection, appendix.value, runs);
    } else {
      KeysWithoutAppendix(selection, runs);
    }
  }

  lemma PiecesOfSix(j: Json, a: string, b: string, c: string, d: string, e: string, f: string)
    requires j.Object? && a in j.fields && b in j.fields && c in j.fields && d in j.fields && e in j.fields && f in j.fields
    ensures Pieces(j, [a, b, c, d, e, f]) ==
            [Pair(a, j.fields[a]), ",", Pair(b, j.fields[b]), ",", Pair(c, j.fields[c]), ",",
             Pair(d, j.fields[d]), ",", Pair(e, j.fields[e]), ",", Pair(f, j.fields[f])]
  {
    hide Pair, Pieces;
    PiecesCons(j, a, [b, c, d, e, f]);
    PiecesOfFive(j, b, c, d, e, f);
    assert [a] + [b, c, d, e, f] == [a, b, c, d, e, f];
  }

  lemma PiecesOfSeven(j: Json, a: string, b: string, c: string, d: string, e: string, f: string, g: string)
    requires j.Object? && a in j.fields && b in j.fields && c in j.fields && d in j.fields && e in j.fields && f in j.fields
    requires g in j.fields
    ensures Pieces(j, [a, b, c, d, e, f, g]) ==
            [Pair(a, j.fields[a]), ",", Pair(b, j.fields[b]), ",", Pair(c, j.fields[c]), ",",
             Pair(d, j.fields[d]), ",", Pair(e, j.fields[e]), ",", Pair(f, j.fields[f]), ",", Pair(g, j.fields[g])]
  {
    hide Pair, Pieces;
    PiecesCons(j, a, [b, c, d, e, f, g]);
    PiecesOfSix(j, b, c, d, e, f, g);
    assert [a] + [b, c, d, e, f, g] == [a, b, c, d, e, f, g];
  }

  lemma SevenPieces(j: Json, keys: seq<string>, v: seq<Json>)
    requires j.Object? && |keys| == |v| == 7 && forall i :: 0 <= i < 7 ==> keys[i] in j.fields && j.fields[keys[i]] == v[i]
    ensures Pieces(j, keys) ==
            [Pair(keys[0], v[0]), ",", Pair(keys[1], v[1]), ",", Pair(keys[2], v[2]), ",", Pair(keys[3], v[3]), ",",
             Pair(keys[4], v[4]), ",", Pair(keys[5], v[5]), ",", Pair(keys[6], v[6])]
  {
    hide Pair, Pieces;
    assert keys == [keys[0], keys[1], keys[2], keys[3], keys[4], keys[5], keys[6]];
    PiecesOfSeven(j, keys[0], keys[1], keys[2], keys[3], keys[4], keys[5], keys[6]);
  }

  lemma SixPieces(j: Json, keys: seq<string>, v: seq<Json>)
    requires j.Object? && |keys| == |v| == 6 && forall i :: 0 <= i < 6 ==> keys[i] in j.fields && j.fields[keys[i]] == v[i]
    ensures Pieces(j, keys) ==
            [Pair(keys[0], v[0]), ",", Pair(keys[1], v[1]), ",", Pair(keys[2], v[2]), ",", Pair(keys[3], v[3]), ",",
             Pair(keys[4], v[4]), ",", Pair(keys[5], v[5])]
  {
    hide Pair, Pieces;
    assert keys == [keys[0], keys[1], keys[2], keys[3], keys[4], keys[5]];
    PiecesOfSix(j, keys[0], keys[1], keys[2], keys[3], keys[4], keys[5]);
  }

  /** The payload's values, in the order of its keys. */
  function PayloadValues(selection: Selection, appendix: Option<map<string, Json>>, runs: seq<Json>): seq<Json> {
    (if appendix.Some? then [Bool(true), Object(appendix.value)] else [Bool(true)])
    + [List(runs), Text(selection.scope), Nullable(selection.selector), Nullable(selection.since), Nullable(selection.until)]
  }

  lemma PayloadValuesHold(selection: Selection, appendix: Option<map<string, Json>>, runs: seq<Json>)
    ensures var j, keys, values := Payload(selection, appendix, runs), PayloadKeyList(appendix),
        PayloadValues(selection, appendix, runs);
            j.Object? && |keys| == |values| && forall i :: 0 <= i < |keys| ==> keys[i] in j.fields && j.fields[keys[i]] == values[i]
  {
    PayloadFields(selection, appendix, runs);
    hide Payload, Nullable;
  }

  lemma PiecesWithAppendix(selection: Selection, appendix: map<string, Json>, runs: seq<Json>)
    ensures var j := Payload(selection, Some(appendix), runs);
            && j.Object? && (forall i :: 0 <= i < |WITH_APPENDIX| ==> WITH_APPENDIX[i] in j.fields)
            && Pieces(j, WITH_APPENDIX) == OpeningPieces(Some(appendix)) + [Pair("runs", List(runs))] + SelectionPieces(selection)
  {
    PayloadValuesHold(selection, Some(appendix), runs);
    hide Pair, Payload, Nullable, Pieces;
    SevenPieces(Payload(selection, Some(appendix), runs), WITH_APPENDIX, PayloadValues(selection, Some(appendix), runs));
  }

  lemma PiecesWithoutAppendix(selection: Selection, runs: seq<Json>)
    ensures var j := Payload(selection, None, runs);
            && j.Object? && (forall i :: 0 <= i < |WITHOUT_APPENDIX| ==> WITHOUT_APPENDIX[i] in j.fields)
            && Pieces(j, WITHOUT_APPENDIX) == OpeningPieces(None) + [Pair("runs", List(runs))] + SelectionPieces(selection)
  {
    PayloadValuesHold(selection, None, runs);
    hide Pair, Payload, Nullable, Pieces;
    SixPieces(Payload(selection, None, runs), WITHOUT_APPENDIX, PayloadValues(selection, None, runs));
  }

  lemma PayloadPieces(selection: Selection, appendix: Option<map<string, Json>>, runs: seq<Json>)
    ensures var j, keys := Payload(selection, appendix, runs), PayloadKeyList(appendix);
            && j.Object? && (forall i :: 0 <= i < |keys| ==> keys[i] in j.fields)
            && Pieces(j, keys) == OpeningPieces(appendix) + [Pair("runs", List(runs))] + SelectionPieces(selection)
  {
    hide Pair, Payload, Nullable, Pieces, PayloadValues, SelectionPieces;
    if appendix.Some? {
      PiecesWithAppendix(selection, appendix.value, runs);
    } else {
      PiecesWithoutAppendix(selection, runs);
    }
  }

  /** The payload's canonical print. */
  lemma PrintPayload(selection: Selection, appendix: Option<map<string, Json>>, runs: seq<Json>)
    ensures Print(Payload(selection, appendix, runs)) ==
            Cat(["{"] + (OpeningPieces(appendix) + [Pair("runs", List(runs))] + SelectionPieces(selection)) + ["}"])
  {
    PayloadKeysHold(selection, appendix, runs);
    PayloadPieces(selection, appendix, runs);
    hide *;
    PrintBare(Payload(selection, appendix, runs), PayloadKeyList(appendix));
  }

  // ---------------------------------------------------------------------------------------
  // The stream
  // ---------------------------------------------------------------------------------------

  lemma CatSplice(a: seq<string>, inner: seq<string>, b: seq<string>)
    ensures Cat(a + [Cat(inner)] + b) == Cat(a + inner + b)
  {
    CatConcat(a + [Cat(inner)], b);
    CatConcat(a, [Cat(inner)]);
    CatOne(Cat(inner));
    CatConcat(a + inner, b);
    CatConcat(a, inner);
  }

  /** The document up to where the runs array opens. */
  ghost function HeadPieces(stamp: Stamp, appendix: Option<map<string, Json>>): seq<string> {
    ["{", Pair("generated_at", Text(stamp.generatedAt)), ",", Pair("generator", Generator(stamp)), ",", Keyed("payload", ""), "{"]
    + OpeningPieces(appendix) + [Keyed("runs", ""), "["]
  }

  /** The document from where the runs array closes. */
  ghost function TailPieces(selection: Selection, stated: bool): seq<string> {
    ["]"] + SelectionPieces(selection)
    + ["}", ",", Pair("schema", Text(EXPORT_SCHEMA)), ",", Keyed("schema_version", ""), Print(Text(VersionFor(stated))), "}"]
  }

  lemma PairCat(key: string, value: Json)
    ensures Pair(key, value) == Cat([Keyed(key, ""), Print(value)])
  {
    CatTwo(Keyed(key, ""), Print(value));
    hide Print;
  }

  lemma RunsCat(runs: seq<Json>)
    ensures Pair("runs", List(runs)) == Cat([Keyed("runs", ""), "[", PrintItems(List(runs), 0), "]"])
  {
    PairCat("runs", List(runs));
    var items := PrintItems(List(runs), 0);
    assert Print(List(runs)) == "[" + items + "]";
    hide Print, PrintItems, Pair;
    CatTwo("[", items);
    CatOne("]");
    CatConcat(["[", items], ["]"]);
    assert ["[", items] + ["]"] == ["[", items, "]"];
    CatSplice([Keyed("runs", "")], ["[", items, "]"], []);
    assert [Keyed("runs", "")] + [Cat(["[", items, "]"])] + [] == [Keyed("runs", ""), Print(List(runs))];
    assert [Keyed("runs", "")] + ["[", items, "]"] + [] == [Keyed("runs", ""), "[", items, "]"];
  }

  /** The canonical print of the whole envelope, split around its runs. */
  lemma PrintAroundRuns(stamp: Stamp, selection: Selection, appendix: Option<map<string, Json>>, runs: seq<Json>)
    requires AllProfiles(runs)
    ensures Print(Envelope(stamp, selection, appendix, runs)) ==
            Cat(HeadPieces(stamp, appendix)) + PrintItems(List(runs), 0) + Cat(TailPieces(selection, AnyStates(runs)))
  {
    hide Print, PrintItems, Pair, Keyed, Generator, Nullable, VersionFor, Payload, Enveloped, Cat;
    var payload, stated := Payload(selection, appendix, runs), AnyStates(runs);
    var items := PrintItems(List(runs), 0);
    PrintEnveloped(stamp, payload, stated);
    PrintPayload(selection, appendix, runs);
    var front := ["{", Pair("generated_at", Text(stamp.generatedAt)), ",", Pair("generator", Generator(stamp)), ","];
    var schema := [",", Pair("schema", Text(EXPORT_SCHEMA)), ","];
    var version := [Keyed("schema_version", ""), Print(Text(VersionFor(stated)))];
    var opening, closing := OpeningPieces(appendix), SelectionPieces(selection);
    var inner := ["{"] + (opening + [Pair("runs", List(runs))] + closing) + ["}"];
    PairCat("payload", payload);
    PairCat("schema_version", Text(VersionFor(stated)));
    RunsCat(runs);
    Spliced(front, Keyed("payload", ""), opening, [Keyed("runs", ""), "["], items, closing, schema, version);
    assert ["{"] + EnvelopePieces(stamp, Pair("payload", payload), stated) + ["}"] ==
           front + [Cat([Keyed("payload", ""), Cat(inner)])] + schema + [Cat(version)] + ["}"];
    assert inner == ["{"] + opening + [Cat([Keyed("runs", ""), "["] + [items] + ["]"])] + closing + ["}"] by {
      assert [Keyed("runs", ""), "["] + [items] + ["]"] == [Keyed("runs", ""), "[", items, "]"];
    }
    assert HeadPieces(stamp, appendix) == front + [Keyed("payload", "")] + ["{"] + opening + [Keyed("runs", ""), "["];
    assert TailPieces(selection, stated) == ["]"] + closing + ["}"] + schema + version + ["}"];
  }

  /** Pieces nested three deep, laid flat. */
  lemma Spliced(front: seq<string>, payload: string, opening: seq<string>, runs: seq<string>, items: string,
                closing: seq<string>, schema: seq<string>, version: seq<string>)
    ensures var inner := ["{"] + opening + [Cat(runs + [items] + ["]"])] + closing + ["}"];
            Cat(front + [Cat([payload, Cat(inner)])] + schema + [Cat(version)] + ["}"]) ==
            Cat(front + [payload] + ["{"] + opening + runs) + items + Cat(["]"] + closing + ["}"] + schema + version + ["}"])
  {
    hide Cat;
    var nested := runs + [items] + ["]"];
    var inner := ["{"] + opening + [Cat(nested)] + closing + ["}"];
    var flat := ["{"] + opening + nested + (closing + ["}"]);
    CatSplice(["{"] + opening, nested, closing + ["}"]);
    assert ["{"] + opening + [Cat(nested)] + (closing + ["}"]) == inner;
    CatSplice([payload], inner, []);
    assert [payload] + [Cat(inner)] + [] == [payload, Cat(inner)];
    CatSplice([payload], flat, []);
    assert Cat([payload, Cat(inner)]) == Cat([payload] + flat + []);
    CatSplice(front, [payload] + flat + [], schema + [Cat(version)] + ["}"]);
    assert front + [Cat([payload, Cat(inner)])] + (schema + [Cat(version)] + ["}"]) ==
           front + [Cat([payload, Cat(inner)])] + schema + [Cat(version)] + ["}"];
    var before := front + ([payload] + flat + []) + schema;
    CatSplice(before, version, ["}"]);
    assert front + ([payload] + flat + []) + (schema + [Cat(version)] + ["}"]) == before + [Cat(version)] + ["}"];
    var head := front + [payload] + ["{"] + opening + runs;
    var tail := ["]"] + closing + ["}"] + schema + version + ["}"];
    assert before + version + ["}"] == head + [items] + tail;
    CatConcat(head + [items], tail);
    CatConcat(head, [items]);
    CatOne(items);
  }

  /** The streamed chunks, run by run. */
  method IterJson(stamp: Stamp, selection: Selection, appendix: Option<map<string, Json>>, runs: seq<Json>)
    returns (chunks: seq<string>)
    requires AllProfiles(runs)
    ensures Cat(chunks) == Print(Envelope(stamp, selection, appendix, runs))
    ensures |chunks| == |runs| + 2
  {
    hide Cat, Print, PrintItems, StatesServingMode, Envelope, Generator, Nullable, Keyed, Left, HasProfile, HeadPieces, TailPieces;
    var head := Head(stamp, appendix);
    chunks := [head];
    CatOne(head);
    LeftAll(runs);
    var stated := false;
    var i := 0;
    while i < |runs|
      invariant 0 <= i <= |runs| && |chunks| == i + 1
      invariant Cat(chunks) + Left(runs, i) == head + PrintItems(List(runs), 0)
      invariant stated <==> exists k :: 0 <= k < i && StatesServingMode(runs[k])
    {
      stated := stated || StatesServingMode(runs[i]);
      var text := CanonicalJson(runs[i]);
      var chunk := (if i == 0 then "" else ",") + text;
      StreamStep(chunks, runs, i, chunk);
      chunks := chunks + [chunk];
      i := i + 1;
    }
    var tail := Tail(selection, stated);
    assert stated <==> AnyStates(runs);
    StreamEnds(chunks, runs, head, tail);
    PrintAroundRuns(stamp, selection, appendix, runs);
    chunks := chunks + [tail];
  }

  /** What the array still lacks after i runs. */
  ghost function Left(runs: seq<Json>, i: nat): string
    requires i <= |runs|
  {
    if i == |runs| then "" else (if i == 0 then "" else ",") + PrintItems(List(runs), i)
  }

  lemma LeftAll(runs: seq<Json>)
    ensures Left(runs, 0) == PrintItems(List(runs), 0)
  {
  }

  lemma StreamEnds(chunks: seq<string>, runs: seq<Json>, head: string, tail: string)
    requires Cat(chunks) + Left(runs, |runs|) == head + PrintItems(List(runs), 0)
    ensures Cat(chunks + [tail]) == head + PrintItems(List(runs), 0) + tail
  {
    hide Cat, PrintItems;
    assert Cat(chunks) + "" == Cat(chunks);
    CatConcat(chunks, [tail]);
    CatOne(tail);
  }

  lemma StreamStep(chunks: seq<string>, runs: seq<Json>, i: nat, chunk: string)
    requires i < |runs| && chunk == (if i == 0 then "" else ",") + Print(runs[i])
    ensures Cat(chunks + [chunk]) + Left(runs, i + 1) == Cat(chunks) + Left(runs, i)
  {
    hide Cat, Print, Left;
    LeftStep(runs, i);
    CatConcat(chunks, [chunk]);
    CatOne(chunk);
    assert Cat(chunks) + (chunk + Left(runs, i + 1)) == Cat(chunks) + chunk + Left(runs, i + 1);
  }

  lemma LeftStep(runs: seq<Json>, i: nat)
    requires i < |runs|
    ensures Left(runs, i) == (if i == 0 then "" else ",") + Print(runs[i]) + Left(runs, i + 1)
  {
    hide Print, PrintItems;
    ItemsStep(List(runs), i);
  }

  method Head(stamp: Stamp, appendix: Option<map<string, Json>>) returns (head: string)
    ensures head == Cat(HeadPieces(stamp, appendix))
  {
    hide Cat, Print, Keyed;
    var generatedAt := CanonicalJson(Text(stamp.generatedAt));
    var generator := CanonicalJson(Generator(stamp));
    var complete := CanonicalJson(Bool(true));
    var opening := [Keyed("complete", complete), ","];
    if appendix.Some? {
      var prompts := CanonicalJson(Object(appendix.value));
      opening := opening + [Keyed("prompt_appendix", prompts), ","];
    }
    assert opening == OpeningPieces(appendix);
    head := Cat(["{", Keyed("generated_at", generatedAt), ",", Keyed("generator", generator), ",", Keyed("payload", ""), "{"]
                + opening + [Keyed("runs", ""), "["]);
  }

  method Tail(selection: Selection, stated: bool) returns (tail: string)
    ensures tail == Cat(TailPieces(selection, stated))
  {
    hide Cat, Print, Keyed;
    var scope := CanonicalJson(Text(selection.scope));
    var selector := CanonicalJson(Nullable(selection.selector));
    var since := CanonicalJson(Nullable(selection.since));
    var until := CanonicalJson(Nullable(selection.until));
    var schema := CanonicalJson(Text(EXPORT_SCHEMA));
    var version := CanonicalJson(Text(VersionFor(stated)));
    tail := Cat(["]"] + [",", Keyed("scope", scope), ",", Keyed("selector", selector), ",", Keyed("since", since), ",",
                         Keyed("until", until)]
                + ["}", ",", Keyed("schema", schema), ",", Keyed("schema_version", ""), version, "}"]);
  }

  /** One line a run, each a whole document. */
  method IterJsonl(stamp: Stamp, selection: Selection, runs: seq<Json>) returns (chunks: seq<string>)
    requires AllProfiles(runs)
    ensures |chunks| == |runs|
    ensures forall i :: 0 <= i < |runs| ==> chunks[i] == Print(LineEnvelope(stamp, selection, runs[i])) + "\n"
  {
    hide Print, LineEnvelope, HasProfile;
    chunks := [];
    var i := 0;
    while i < |runs|
      invariant 0 <= i <= |runs| && |chunks| == i
      invariant forall k :: 0 <= k < i ==> chunks[k] == Print(LineEnvelope(stamp, selection, runs[k])) + "\n"
    {
      var text := CanonicalJson(LineEnvelope(stamp, selection, runs[i]));
      chunks := chunks + [text + "\n"];
      i := i + 1;
    }
  }
}
