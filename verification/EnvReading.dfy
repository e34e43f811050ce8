/** How a variable's name is spelled, when reading raises, and what stands in the table read: src/freeweight/config.py. */
module EnvReading {
  import opened Configuration
  import opened Documents
  import opened EnvNames
  import opened Results
  import opened Strings

  // ---------------------------------------------------------------------------------------
  // The name of a path
  // ---------------------------------------------------------------------------------------

  /** The capital of an ASCII letter; any other character as it is. */
  function Capital(c: char): char { if 'a' <= c <= 'z' then (c as int - 32) as char else c }

  /** How many characters the first i of the path are spelled with: a dot takes two. */
  function Width(path: string, i: nat): nat
    requires i <= |path|
  {
    i + multiset(path[..i])['.']
  }

  /** Each character of the path is spelled in its place: a dot by a double underscore, a letter by its capital. */
  predicate Spells(text: string, path: string) {
    && |text| == Width(path, |path|)
    && forall i :: 0 <= i < |path| ==> SpelledAt(text, path, i)
  }

  predicate SpelledAt(text: string, path: string, i: nat)
    requires i < |path|
  {
    var k := Width(path, i);
    if path[i] == '.' then k + 1 < |text| && text[k] == '_' && text[k + 1] == '_' else k < |text| && text[k] == Capital(path[i])
  }

  lemma CapitalIs(c: char)
    ensures UpperChar(c) == Capital(c)
    ensures Capital(c) == '.' <==> c == '.'
  {
  }

  lemma WidthStep(path: string, c: char)
    ensures Width(path + [c], |path| + 1) == Width(path, |path|) + if c == '.' then 2 else 1
    ensures forall i :: 0 <= i <= |path| ==> Width(path + [c], i) == Width(path, i)
  {
    assert (path + [c])[..|path| + 1] == path + [c] && path[..|path|] == path;
    forall i | 0 <= i <= |path| ensures Width(path + [c], i) == Width(path, i) {
      assert (path + [c])[..i] == path[..i];
    }
  }

  lemma SpellsMore(text: string, path: string, c: char)
    requires Spells(text, path)
    ensures Spells(text + if c == '.' then "__" else [Capital(c)], path + [c])
  {
    WidthStep(path, c);
    hide Width, Capital;
    var more := text + if c == '.' then "__" else [Capital(c)];
    forall i: nat | i < |path + [c]| ensures SpelledAt(more, path + [c], i) {
      if i < |path| {
        assert (path + [c])[i] == path[i] && SpelledAt(text, path, i);
      }
    }
  }

  lemma NothingSpells()
    ensures Spells(Underscored(Upper("")), "")
  {
  }

  lemma {:induction false} UnderscoredSpells(path: string)
    ensures Spells(Underscored(Upper(path)), path)
  {
    hide Underscored, Upper, Spells, Capital, UpperChar;
    if path == "" {
      NothingSpells();
    } else {
      var front, c := path[..|path| - 1], path[|path| - 1];
      UnderscoredSpells(front);
      assert path == front + [c];
      UpperSnoc(front, c);
      UnderscoredSnoc(Upper(front), UpperChar(c));
      CapitalIs(c);
      SpellsMore(Underscored(Upper(front)), front, c);
    }
  }

  lemma UpperConcat(a: string, b: string)
    ensures Upper(a + b) == Upper(a) + Upper(b)
  {
    hide Upper;
    var whole, split := Upper(a + b), Upper(a) + Upper(b);
    assert forall i :: 0 <= i < |a + b| ==> whole[i] == split[i];
  }

  lemma UpperNoDots(s: string)
    requires '.' !in s
    ensures '.' !in Upper(s)
  {
    hide Upper;
  }

  lemma {:induction false} NoField(path: string)
    requires Partition(path).1 == ""
    ensures forall i :: 0 <= i < |path| - 1 ==> path[i] != '.'
  {
    if path != "" && path[0] != '.' {
      NoField(path[1..]);
      assert forall i :: 0 < i < |path| ==> path[i] == path[1..][i - 1];
    }
  }

  lemma UpperDot()
    ensures Upper(".") == "."
  {
  }

  lemma SuffixIs(section: string, field: string)
    requires '.' !in section
    ensures Upper(section) + "__" + Underscored(Upper(field)) == Underscored(Upper(section + "." + field))
  {
    hide Upper, Underscored;
    UpperConcat(section + ".", field);
    UpperConcat(section, ".");
    UpperDot();
    UpperNoDots(section);
    UnderscoredAtDot(Upper(section), Upper(field));
  }

  lemma VariableIs(path: string)
    ensures EnvVarFor(path).Ok? <==> Partition(path).1 != ""
    ensures EnvVarFor(path).Ok? ==> EnvVarFor(path).value == "FREEWEIGHT_" + Underscored(Upper(path))
  {
    hide Upper, Underscored, Partition;
    var (section, field) := Partition(path);
    if field != "" {
      Partitioned(path);
      SuffixIs(section, field);
      var suffix := Upper(section) + "__" + Underscored(Upper(field));
      assert EnvVarFor(path).value == ENV_PREFIX + suffix;
    }
  }

  lemma FieldAtDot(path: string)
    ensures Partition(path).1 != "" <==> exists i :: 0 <= i < |path| - 1 && path[i] == '.'
  {
    var (section, field) := Partition(path);
    if field == "" {
      NoField(path);
    } else {
      Partitioned(path);
      assert path[|section|] == '.';
    }
  }

  /** A path with a dot and something behind it, and no other, has a variable; its name is the prefix and the path spelled
      character by character. */
  lemma SpelledForm(path: string)
    ensures EnvVarFor(path).Ok? <==> exists i :: 0 <= i < |path| - 1 && path[i] == '.'
    ensures EnvVarFor(path).Ok? ==>
              "FREEWEIGHT_" <= EnvVarFor(path).value && Spells(EnvVarFor(path).value[|"FREEWEIGHT_"|..], path)
  {
    hide Upper, Underscored, Spells, Partition, EnvVarFor;
    FieldAtDot(path);
    VariableIs(path);
    UnderscoredSpells(path);
    if EnvVarFor(path).Ok? {
      assert EnvVarFor(path).value[|"FREEWEIGHT_"|..] == Underscored(Upper(path));
    }
  }

  /** A variable is read as a path when its name has the prefix and is not one of the three reserved ones; the path's segments
      are those of the name in lower case between double underscores. */
  lemma ReadExactly(name: string)
    ensures PathOf(name).Some? <==>
            "FREEWEIGHT_" <= name && name[11..] != "CONFIG" && name[11..] != "DATA_DIR" && name[11..] != "LOG_LEVEL"
    ensures PathOf(name).Some? ==>
              && Separable(PathOf(name).value) && |Join(PathOf(name).value)| == |name| - 11
              && forall i :: 11 <= i < |name| ==> Join(PathOf(name).value)[i - 11] == LowerChar(name[i])
  {
    hide Cut, Lower, Separable, Join;
    if PathOf(name).Some? {
      CutIsSeparable(Lower(name[11..]));
    }
  }

  // ---------------------------------------------------------------------------------------
  // When reading raises
  // ---------------------------------------------------------------------------------------

  /** A value, not a table. */
  predicate Stands(t: Table, path: seq<string>)
    requires path != []
  {
    At(t, path).Some? && !At(t, path).value.Object?
  }

  /** An assignment below a value raises. */
  lemma {:induction false} PutBlocked(t: Table, path: seq<string>, value: Json, q: seq<string>)
    requires q != [] && q < path && Stands(t, q)
    ensures Put(t, path, value).ValueError?
    decreases |path|
  {
    if |q| > 1 {
      assert q[1..] < path[1..] && q[0] == path[0];
      PutBlocked(t[path[0]].fields, path[1..], value, q[1..]);
    }
  }

  /** A value stays, unless it is assigned over or a table around it is. */
  lemma StandsOn(t: Table, path: seq<string>, value: Json, q: seq<string>) returns (r: seq<string>)
    requires path != [] && q != [] && Stands(t, q) && Put(t, path, value).Ok? && !value.Object?
    ensures r != [] && r <= q && Stands(Put(t, path, value).value, r)
  {
    hide Put, At;
    PutAt(t, path, value, q);
    if path <= q {
      r := path;
    } else {
      r := q;
      if q < path {
        PutBlocked(t, path, value, q);
      }
    }
  }

  predicate IsPath(v: Variable, path: seq<string>) { PathOf(v.name) == Some(path) }

  /** What a variable assigned still stands, or something around it does. */
  lemma {:induction false} StillStands(environ: seq<Variable>, i: nat, path: seq<string>) returns (r: seq<string>)
    requires i < |environ| && path != [] && IsPath(environ[i], path) && ReadAll(environ).Ok?
    ensures r != [] && r <= path && Stands(ReadAll(environ).value, r)
  {
    hide Put, At, PathOf;
    var n := |environ| - 1;
    if i == n {
      PutAt(ReadAll(environ[..n]).value, path, Text(environ[n].value), path);
      r := path;
    } else {
      r := StillStands(environ[..n], i, path);
      if PathOf(environ[n].name).Some? {
        r := StandsOn(ReadAll(environ[..n]).value, PathOf(environ[n].name).value, Text(environ[n].value), r);
      }
    }
  }

  /** Reading raises exactly where a variable's path goes below that of an earlier one. */
  lemma {:induction false} RaisesExactly(environ: seq<Variable>)
    ensures ReadAll(environ).ValueError? <==> exists i, j :: 0 <= i < j < |environ| && GoesBelow(environ[i], environ[j])
  {
    hide Put, At, PathOf;
    if environ != [] {
      var n := |environ| - 1;
      RaisesExactly(environ[..n]);
      assert forall i :: 0 <= i < n ==> environ[..n][i] == environ[i];
      if ReadAll(environ[..n]).Ok? && PathOf(environ[n].name).Some? {
        var before, path := ReadAll(environ[..n]).value, PathOf(environ[n].name).value;
        if ReadAll(environ).ValueError? {
          var k := PutRaises(before, path, Text(environ[n].value));
          var i := LeafWasRead(environ[..n], path[..k]);
          assert GoesBelow(environ[i], environ[n]);
        } else if i :| 0 <= i < n && GoesBelow(environ[i], environ[n]) {
          var r := StillStands(environ[..n], i, PathOf(environ[i].name).value);
          PutBlocked(before, path, Text(environ[n].value), r);
        }
      }
    }
  }

  predicate GoesBelow(a: Variable, b: Variable) {
    PathOf(a.name).Some? && PathOf(b.name).Some? && PathOf(a.name).value < PathOf(b.name).value
  }

  // ---------------------------------------------------------------------------------------
  // What stands
  // ---------------------------------------------------------------------------------------

  /** No later variable's path begins this one. */
  predicate LastAt(environ: seq<Variable>, i: nat, path: seq<string>) {
    forall j :: i < j < |environ| && PathOf(environ[j].name).Some? ==> !(PathOf(environ[j].name).value <= path)
  }

  /** Where reading does not raise, a variable's value stands at its path unless a later one's path is that path or begins it. */
  lemma {:induction false} LastStands(environ: seq<Variable>, i: nat, path: seq<string>)
    requires i < |environ| && path != [] && IsPath(environ[i], path) && ReadAll(environ).Ok? && LastAt(environ, i, path)
    ensures At(ReadAll(environ).value, path) == Some(Text(environ[i].value))
  {
    hide Put, At, PathOf;
    var n := |environ| - 1;
    if i == n {
      PutAt(ReadAll(environ[..n]).value, path, Text(environ[n].value), path);
    } else {
      assert forall j :: 0 <= j < n ==> environ[..n][j] == environ[j];
      LastStands(environ[..n], i, path);
      if PathOf(environ[n].name).Some? {
        var before, other := ReadAll(environ[..n]).value, PathOf(environ[n].name).value;
        if path < other {
          PutBlocked(before, other, Text(environ[n].value), path);
        }
        PutAt(before, other, Text(environ[n].value), path);
      }
    }
  }

  lemma Shorter(a: seq<string>, b: seq<string>)
    requires a <= b && a != b
    ensures a < b
  {
  }

  /** Nothing else stands: a value in the table is that of the last variable whose path begins its own. */
  lemma {:induction false} StandingWasLast(environ: seq<Variable>, path: seq<string>) returns (i: nat)
    requires path != [] && ReadAll(environ).Ok? && Stands(ReadAll(environ).value, path)
    ensures i < |environ| && IsPath(environ[i], path) && LastAt(environ, i, path)
    ensures At(ReadAll(environ).value, path) == Some(Text(environ[i].value))
  {
    hide Put, At, PathOf;
    NothingRead(environ, path);
    var n := |environ| - 1;
    assert forall j :: 0 <= j < n ==> environ[..n][j] == environ[j];
    if IsPath(environ[n], path) {
      i := n;
      PutAt(ReadAll(environ[..n]).value, path, Text(environ[n].value), path);
    } else {
      if PathOf(environ[n].name).Some? {
        var before, other := ReadAll(environ[..n]).value, PathOf(environ[n].name).value;
        PutLeaves(before, other, Text(environ[n].value), path);
        if other <= path {
          PutAt(before, other, Text(environ[n].value), path);
          Shorter(other, path);
          NothingBelow(ReadAll(environ).value, other, path);
        }
        assert !(other <= path);
      }
      i := StandingWasLast(environ[..n], path);
    }
  }

  /** An empty or missing level changes nothing. */
  lemma NoLevel(t: Table)
    ensures WithLogLevel(t, "") == Ok(t)
  {
  }

  lemma LevelName()
    ensures ENV_PREFIX + "LOG_LEVEL" == "FREEWEIGHT_LOG_LEVEL"
  {
  }

  lemma LogLevelStep(environ: seq<Variable>, name: string)
    requires environ != [] && name == ENV_PREFIX + "LOG_LEVEL"
    ensures var last := environ[|environ| - 1];
            LogLevel(environ) == if last.name == name then last.value else LogLevel(environ[..|environ| - 1])
  {
  }

  /** The log level is the value of the last variable of that name. */
  lemma {:induction false} LogLevelIs(environ: seq<Variable>) returns (i: nat)
    ensures i < |environ| ==>
              && environ[i].name == "FREEWEIGHT_LOG_LEVEL" && LogLevel(environ) == environ[i].value
              && forall j :: i < j < |environ| ==> environ[j].name != "FREEWEIGHT_LOG_LEVEL"
    ensures i >= |environ| ==> LogLevel(environ) == "" && forall j :: 0 <= j < |environ| ==> environ[j].name != "FREEWEIGHT_LOG_LEVEL"
  {
    i := |environ|;
    if environ != [] {
      LevelName();
      LogLevelStep(environ, "FREEWEIGHT_LOG_LEVEL");
      hide LogLevel;
      var n := |environ| - 1;
      if environ[n].name == "FREEWEIGHT_LOG_LEVEL" {
        i := n;
      } else {
        var k := LogLevelIs(environ[..n]);
        assert forall j :: 0 <= j < n ==> environ[..n][j] == environ[j];
        i := if k < n then k else |environ|;
      }
    }
  }
}
