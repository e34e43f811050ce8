/** The layered configuration of src/freeweight/config.py: the recursive merge and the labels saying which
    layer each value came from. */
module Configuration {
  import opened Documents
  import opened Results

  type Table = map<string, Json>

  // ---------------------------------------------------------------------------------------
  // The merge
  // ---------------------------------------------------------------------------------------

  /** What one key holds after the merge. */
  function MergeKey(base: Table, override: Table, key: string): Json
    requires key in base || key in override
    decreases Object(base), 0
  {
    if key !in override then base[key]
    else if key in base && base[key].Object? && override[key].Object? then
      Object(Merge(base[key].fields, override[key].fields))
    else override[key]
  }

  function Merge(base: Table, override: Table): (merged: Table)
    ensures merged.Keys == base.Keys + override.Keys
    decreases Object(base), 1
  {
    map key | key in base.Keys + override.Keys :: MergeKey(base, override, key)
  }

  method DeepMerge(base: Table, override: Table) returns (merged: Table)
    ensures merged == Merge(base, override)
    decreases Object(base)
  {
    hide Merge;
    merged := base;
    var left := override.Keys;
    while left != {}
      invariant left <= override.Keys && merged.Keys == base.Keys + (override.Keys - left)
      invariant forall k :: k in merged ==>
        merged[k] == if k in override && k !in left then MergeKey(base, override, k) else base[k]
      decreases left
    {
      var key :| key in left;
      var value := override[key];
      if value.Object? && key in merged && merged[key].Object? {
        var inner := DeepMerge(base[key].fields, value.fields);
        merged := merged[key := Object(inner)];
      } else {
        merged := merged[key := value];
      }
      left := left - {key};
    }
    MergedIs(base, override, merged);
  }

  lemma MergedIs(base: Table, override: Table, merged: Table)
    requires merged.Keys == base.Keys + override.Keys
    requires forall k :: k in merged ==> merged[k] == if k in override then MergeKey(base, override, k) else base[k]
    ensures merged == Merge(base, override)
  {
  }

  // ---------------------------------------------------------------------------------------
  // Paths into a table
  // ---------------------------------------------------------------------------------------

  /** The value at a path of keys, looking through tables only. */
  function At(t: Table, path: seq<string>): Option<Json>
    requires path != []
    decreases |path|
  {
    if path[0] !in t then None
    else if |path| == 1 then Some(t[path[0]])
    else if t[path[0]].Object? then At(t[path[0]].fields, path[1..])
    else None
  }

  /** A value that is not a table stands somewhere above the path. */
  predicate Blocks(t: Table, path: seq<string>)
    requires path != []
    decreases |path|
  {
    |path| > 1 && path[0] in t && (t[path[0]].Object? ==> Blocks(t[path[0]].fields, path[1..]))
  }

  /** What the merge holds at any path: the override's leaf where it has one; the two tables merged where both
      have tables; the base's value, kept untouched, where the override has nothing there, unless a leaf of the
      override stands above it. */
  lemma {:induction false} MergeAt(base: Table, override: Table, path: seq<string>)
    requires path != []
    ensures At(Merge(base, override), path) ==
      var over, under := At(override, path), At(base, path);
      if over.None? then (if Blocks(override, path) then None else under)
      else if over.value.Object? && under.Some? && under.value.Object?
      then Some(Object(Merge(under.value.fields, over.value.fields)))
      else over
    decreases |path|
  {
    var key := path[0];
    if key in override {
      assert Merge(base, override)[key] == MergeKey(base, override, key);
      if |path| > 1 && key in base && base[key].Object? && override[key].Object? {
        MergeAt(base[key].fields, override[key].fields, path[1..]);
      }
      if |path| > 1 && override[key].Object? {
        BlocksMeansNothing(override[key].fields, path[1..]);
      }
    } else if key in base {
      assert Merge(base, override)[key] == MergeKey(base, override, key);
    }
  }

  lemma {:induction false} BlocksMeansNothing(t: Table, path: seq<string>)
    requires path != []
    ensures Blocks(t, path) ==> At(t, path) == None
    decreases |path|
  {
    if |path| > 1 && path[0] in t && t[path[0]].Object? {
      BlocksMeansNothing(t[path[0]].fields, path[1..]);
    }
  }

  /** The two agree which paths are tables. */
  predicate Agree(a: Table, b: Table)
    decreases Object(a)
  {
    forall k :: k in a && k in b ==>
      && (a[k].Object? <==> b[k].Object?)
      && (a[k].Object? && b[k].Object? ==> Agree(a[k].fields, b[k].fields))
  }

  lemma {:induction false} AgreedNeverBlocks(a: Table, b: Table, path: seq<string>)
    requires Agree(a, b) && path != [] && Blocks(b, path)
    ensures At(a, path) == None
    decreases |path|
  {
    if path[0] in a && a[path[0]].Object? {
      AgreedNeverBlocks(a[path[0]].fields, b[path[0]].fields, path[1..]);
    }
  }

  /** Where two layers agree which paths are tables, a leaf of the merge comes from the higher layer that sets it. */
  lemma HighestLayerWins(base: Table, override: Table, path: seq<string>)
    requires path != [] && Agree(base, override)
    requires At(override, path).Some? ==> !At(override, path).value.Object?
    ensures At(Merge(base, override), path) == if At(override, path).Some? then At(override, path) else At(base, path)
  {
    MergeAt(base, override, path);
    if Blocks(override, path) {
      AgreedNeverBlocks(base, override, path);
    }
  }

  // ---------------------------------------------------------------------------------------
  // Associativity
  // ---------------------------------------------------------------------------------------

  /** Every leaf or table of a is replaced or taken over by c. */
  predicate Covered(a: Table, c: Table)
    decreases Object(a)
  {
    forall k :: k in a ==> k in c && (a[k].Object? && c[k].Object? ==> Covered(a[k].fields, c[k].fields))
  }

  lemma {:induction false} MergeCovered(a: Table, c: Table)
    ensures Merge(a, c) == c <==> Covered(a, c)
    decreases Object(a)
  {
    var m := Merge(a, c);
    forall k | k in a && k in c && a[k].Object? && c[k].Object?
      ensures m[k] == c[k] <==> Covered(a[k].fields, c[k].fields)
    {
      MergeCovered(a[k].fields, c[k].fields);
      assert m[k] == MergeKey(a, c, k);
    }
    forall k | k in m ensures m[k] == MergeKey(a, c, k) {
    }
    if Covered(a, c) {
      assert m.Keys == c.Keys;
      assert forall k :: k in c ==> m[k] == c[k];
    } else {
      var k :| k in a && !(k in c && (a[k].Object? && c[k].Object? ==> Covered(a[k].fields, c[k].fields)));
      assert k in m;
    }
  }

  /** No leaf of the middle layer parts a table of the lowest from one of the highest that does not cover it. */
  predicate Unparted(a: Table, b: Table, c: Table)
    decreases Object(a)
  {
    forall k :: k in a && k in b && k in c && a[k].Object? && c[k].Object? ==>
      if b[k].Object? then Unparted(a[k].fields, b[k].fields, c[k].fields)
      else Covered(a[k].fields, c[k].fields)
  }

  lemma MergeKeyOf(base: Table, override: Table, key: string)
    requires key in base || key in override
    ensures Merge(base, override)[key] == MergeKey(base, override, key)
  {
  }

  /** The order of merging three layers does not matter, if and only if they are unparted. */
  lemma {:induction false} MergeAssociates(a: Table, b: Table, c: Table)
    ensures Merge(Merge(a, b), c) == Merge(a, Merge(b, c)) <==> Unparted(a, b, c)
    decreases Object(a)
  {
    var left, right := Merge(Merge(a, b), c), Merge(a, Merge(b, c));
    assert left.Keys == right.Keys;
    forall k | k in left ensures left[k] == right[k] <==> KeyUnparted(a, b, c, k) {
      KeyAssociates(a, b, c, k);
    }
    hide Merge, MergeKey, Covered;
    assert Unparted(a, b, c) <==> forall k :: k in left ==> KeyUnparted(a, b, c, k);
    assert left == right <==> forall k :: k in left ==> left[k] == right[k];
  }

  predicate KeyUnparted(a: Table, b: Table, c: Table, k: string) {
    k in a && k in b && k in c && a[k].Object? && c[k].Object? ==>
      if b[k].Object? then Unparted(a[k].fields, b[k].fields, c[k].fields)
      else Covered(a[k].fields, c[k].fields)
  }

  lemma {:induction false} KeyAssociates(a: Table, b: Table, c: Table, k: string)
    requires k in a || k in b || k in c
    ensures Merge(Merge(a, b), c)[k] == Merge(a, Merge(b, c))[k] <==> KeyUnparted(a, b, c, k)
    decreases Object(a), 0
  {
    MergeKeyOf(Merge(a, b), c, k);
    MergeKeyOf(a, Merge(b, c), k);
    if k in a || k in b {
      MergeKeyOf(a, b, k);
    }
    if k in b || k in c {
      MergeKeyOf(b, c, k);
    }
    if k in a && k in c && a[k].Object? && c[k].Object? {
      if k in b && b[k].Object? {
        MergeAssociates(a[k].fields, b[k].fields, c[k].fields);
      } else {
        MergeCovered(a[k].fields, c[k].fields);
      }
    }
    hide Merge, Unparted, Covered;
  }

  /** Layers that agree which paths are tables merge in any order of grouping. */
  lemma {:induction false} AgreedAreUnparted(a: Table, b: Table, c: Table)
    requires Agree(a, b) && Agree(b, c)
    ensures Unparted(a, b, c) && Merge(Merge(a, b), c) == Merge(a, Merge(b, c))
    decreases Object(a)
  {
    forall k | k in a && k in b && k in c && a[k].Object? && b[k].Object? && c[k].Object?
      ensures Unparted(a[k].fields, b[k].fields, c[k].fields)
    {
      AgreedAreUnparted(a[k].fields, b[k].fields, c[k].fields);
    }
    MergeAssociates(a, b, c);
    hide Merge;
  }

  // ---------------------------------------------------------------------------------------
  // Which layer a field came from
  // ---------------------------------------------------------------------------------------

  datatype Source = Cli | Env | File | Default

  /** substring in text */
  predicate Within(part: string, text: string) {
    part <= text || (text != "" && Within(part, text[1..]))
  }

  /** field in section, which asks a table for a key, a list for an element and a string for a substring, and
      raises on anything else. */
  function Holds(section: Json, field: string): Result<bool> {
    match section
    case Object(fields) => Ok(field in fields)
    case List(items) => Ok(Text(field) in items)
    case Text(text) => Ok(Within(field, text))
    case _ => ValueError
  }

  lemma {:induction false} WithinMeans(part: string, text: string)
    ensures Within(part, text) <==> exists i :: 0 <= i <= |text| && part <= text[i..]
  {
    if part <= text {
      assert text[0..] == text;
    } else if text != "" {
      WithinMeans(part, text[1..]);
      assert forall i :: 0 < i <= |text| ==> text[i..] == text[1..][i - 1..];
      if i :| 0 <= i <= |text| && part <= text[i..] {
        assert i > 0 by {
          assert text[0..] == text;
        }
        assert part <= text[1..][i - 1..];
      }
    }
  }

  /** A table holds its keys, a list its elements, a text the texts within it; nothing else can be asked. */
  lemma HoldsExactly(section: Json, field: string)
    ensures section.Object? ==> Holds(section, field) == Ok(field in section.fields)
    ensures section.List? ==> Holds(section, field) == Ok(exists i :: 0 <= i < |section.items| && section.items[i] == Text(field))
    ensures section.Text? ==> Holds(section, field) == Ok(exists i :: 0 <= i <= |section.text| && field <= section.text[i..])
    ensures Holds(section, field).ValueError? <==> !section.Object? && !section.List? && !section.Text?
  {
    if section.Text? {
      WithinMeans(field, section.text);
    }
    hide Within;
  }

  function LayerHolds(layer: Table, section: string, field: string): Result<bool> {
    if section in layer then Holds(layer[section], field) else Ok(false)
  }

  function Label(file: Table, env: Table, cli: Table, section: string, field: string): Result<Source> {
    var c := LayerHolds(cli, section, field);
    if c.ValueError? then ValueError else if c.value then Ok(Cli)
    else
      var e := LayerHolds(env, section, field);
      if e.ValueError? then ValueError else if e.value then Ok(Env)
      else
        var f := LayerHolds(file, section, field);
        if f.ValueError? then ValueError else if f.value then Ok(File)
        else Ok(Default)
  }

  datatype Key = Key(section: string, field: string)

  /** The schema's leaf fields in order, derived ones left out. */
  method TrackSources(schema: seq<Key>, derived: set<Key>, file: Table, env: Table, cli: Table)
    returns (sources: Result<map<Key, Source>>)
    ensures sources.Ok? <==> forall i :: 0 <= i < |schema| && schema[i] !in derived ==>
      Label(file, env, cli, schema[i].section, schema[i].field).Ok?
    ensures sources.Ok? ==> forall k :: k in sources.value <==> k in schema && k !in derived
    ensures sources.Ok? ==> forall k :: k in sources.value ==> Ok(sources.value[k]) == Label(file, env, cli, k.section, k.field)
  {
    hide Label;
    var found: map<Key, Source> := map[];
    var i := 0;
    while i < |schema|
      invariant 0 <= i <= |schema|
      invariant forall j :: 0 <= j < i && schema[j] !in derived ==>
        Label(file, env, cli, schema[j].section, schema[j].field).Ok?
      invariant forall k :: k in found <==> k in schema[..i] && k !in derived
      invariant forall k :: k in found ==> Ok(found[k]) == Label(file, env, cli, k.section, k.field)
    {
      if schema[i] !in derived {
        var named := Label(file, env, cli, schema[i].section, schema[i].field);
        if named.ValueError? {
          return ValueError;
        }
        found := found[schema[i] := named.value];
      }
      assert schema[..i + 1] == schema[..i] + [schema[i]];
      i := i + 1;
    }
    assert schema[..|schema|] == schema;
    sources := Ok(found);
  }

  /** The three layers merged, the file lowest. */
  function Merged(file: Table, env: Table, cli: Table): Table { Merge(Merge(file, env), cli) }

  function LayerOf(file: Table, env: Table, cli: Table, source: Source): Table {
    match source
    case Cli => cli
    case Env => env
    case File => file
    case Default => map[]
  }

  predicate TableOrAbsent(layer: Table, section: string) { section in layer ==> layer[section].Object? }

  /** How many layers are asked before one holds the field. */
  function FirstHolder(layers: seq<Table>, section: string, field: string): (n: nat)
    ensures n <= |layers|
  {
    if layers == [] || LayerHolds(layers[0], section, field) == Ok(true) then 0
    else 1 + FirstHolder(layers[1..], section, field)
  }

  /** The section is a table, or absent, in every layer down to the first that holds the field, if one does. */
  predicate TablesDownToHolder(layers: seq<Table>, section: string, field: string) {
    var holder := FirstHolder(layers, section, field);
    holder < |layers| ==> forall i :: 0 <= i <= holder ==> TableOrAbsent(layers[i], section)
  }

  /** The field in the merge came from the layer named: it is set there, no higher layer sets it, and it is seen;
      or no layer's setting is seen at all, and the default stands. */
  predicate Effective(file: Table, env: Table, cli: Table, key: Key, source: Source) {
    var path := [key.section, key.field];
    var seen := At(Merged(file, env, cli), path);
    if source == Default then seen == None
    else
      && seen.Some?
      && At(LayerOf(file, env, cli, source), path).Some?
      && (source != Cli ==> At(cli, path) == None)
      && (source == File ==> At(env, path) == None)
      && (!seen.value.Object? ==> seen == At(LayerOf(file, env, cli, source), path))
  }

  lemma AtField(t: Table, section: string, field: string)
    ensures At(t, [section, field]) ==
      if section in t && t[section].Object? && field in t[section].fields then Some(t[section].fields[field]) else None
    ensures Blocks(t, [section, field]) <==> section in t && !t[section].Object?
  {
    assert [section, field][1..] == [field];
  }

  lemma MergedField(file: Table, env: Table, cli: Table, section: string, field: string)
    ensures var path := [section, field];
            var low, mid, top := At(file, path), At(env, path), At(cli, path);
            var seen := At(Merged(file, env, cli), path);
            && (seen.None? <==> (Blocks(cli, path) || (top.None? && (Blocks(env, path) || (mid.None? && low.None?)))))
            && (seen.Some? && !seen.value.Object? ==>
                  seen == if top.Some? then top else if mid.Some? then mid else low)
  {
    var path := [section, field];
    MergeAt(Merge(file, env), cli, path);
    MergeAt(file, env, path);
    BlocksMeansNothing(cli, path);
    BlocksMeansNothing(env, path);
    hide At, Merge, Blocks;
  }

  lemma HolderIs(cli: Table, env: Table, file: Table, section: string, field: string)
    ensures var layers := [cli, env, file];
            FirstHolder(layers, section, field) ==
            if LayerHolds(cli, section, field) == Ok(true) then 0
            else if LayerHolds(env, section, field) == Ok(true) then 1
            else if LayerHolds(file, section, field) == Ok(true) then 2
            else 3
  {
    var layers := [cli, env, file];
    hide LayerHolds;
    assert layers[1..] == [env, file] && [env, file][1..] == [file] && [file][1..] == [];
    assert FirstHolder([file], section, field) == if LayerHolds(file, section, field) == Ok(true) then 0 else 1;
    assert FirstHolder([env, file], section, field) ==
           if LayerHolds(env, section, field) == Ok(true) then 0 else 1 + FirstHolder([file], section, field);
  }

  lemma TablesDownTo(cli: Table, env: Table, file: Table, section: string, field: string)
    ensures var layers := [cli, env, file];
            var holder := FirstHolder(layers, section, field);
            TablesDownToHolder(layers, section, field) <==>
            (holder < 3 ==>
              && TableOrAbsent(cli, section)
              && (holder >= 1 ==> TableOrAbsent(env, section))
              && (holder >= 2 ==> TableOrAbsent(file, section)))
  {
    hide FirstHolder, TableOrAbsent;
    var layers := [cli, env, file];
    assert layers[0] == cli && layers[1] == env && layers[2] == file;
  }

  /** Where the merged section is a table, the label names the layer whose value is in the merge, if and only if the
      section is a table or absent in every layer down to the first that holds the field. */
  lemma LabelExact(file: Table, env: Table, cli: Table, key: Key)
    requires Label(file, env, cli, key.section, key.field).Ok?
    requires TableOrAbsent(Merged(file, env, cli), key.section)
    ensures var source := Label(file, env, cli, key.section, key.field).value;
            Effective(file, env, cli, key, source) <==> TablesDownToHolder([cli, env, file], key.section, key.field)
  {
    HolderIs(cli, env, file, key.section, key.field);
    TablesDownTo(cli, env, file, key.section, key.field);
    hide FirstHolder, TablesDownToHolder;
    AtField(file, key.section, key.field);
    AtField(env, key.section, key.field);
    AtField(cli, key.section, key.field);
    MergedField(file, env, cli, key.section, key.field);
    hide At, Merge, Within, Blocks;
  }

  /** A string where the environment should have a table hides the file's section from the merge, not from the
      labels. */
  lemma HiddenSectionIsLabelledFile()
    ensures var file: Table := map["server" := Object(map["host" := Text("10.0.0.1")])];
            var env: Table := map["server" := Text("5")];
            var cli: Table := map["server" := Object(map["port" := Number("9000")])];
            && Label(file, env, cli, "server", "host") == Ok(File)
            && At(Merged(file, env, cli), ["server", "host"]) == None
            && TableOrAbsent(Merged(file, env, cli), "server")
  {
    var file: Table := map["server" := Object(map["host" := Text("10.0.0.1")])];
    var env: Table := map["server" := Text("5")];
    var cli: Table := map["server" := Object(map["port" := Number("9000")])];
    AtField(file, "server", "host");
    AtField(env, "server", "host");
    AtField(cli, "server", "host");
    MergedField(file, env, cli, "server", "host");
    MergeKeyOf(Merge(file, env), cli, "server");
    hide At, Merge, Blocks;
  }
}
