/** Environment variables as configuration paths: env_var_for and _read_env of src/freeweight/config.py. */
module EnvNames {
  import opened Configuration
  import opened Documents
  import opened Results
  import opened Strings

  const ENV_PREFIX := "FREEWEIGHT_"

  const RESERVED_SUFFIXES: set<string> := {"CONFIG", "DATA_DIR", "LOG_LEVEL"}

  // ---------------------------------------------------------------------------------------
  // Letter case, on the ASCII letters
  // ---------------------------------------------------------------------------------------

  function UpperChar(c: char): char { if 'a' <= c <= 'z' then c - 'a' + 'A' else c }

  function LowerChar(c: char): char { if 'A' <= c <= 'Z' then c - 'A' + 'a' else c }

  function Upper(s: string): (r: string)
    ensures |r| == |s| && forall i :: 0 <= i < |s| ==> r[i] == UpperChar(s[i])
  {
    if s == "" then "" else Upper(s[..|s| - 1]) + [UpperChar(s[|s| - 1])]
  }

  function Lower(s: string): (r: string)
    ensures |r| == |s| && forall i :: 0 <= i < |s| ==> r[i] == LowerChar(s[i])
  {
    if s == "" then "" else Lower(s[..|s| - 1]) + [LowerChar(s[|s| - 1])]
  }

  predicate LowerStable(s: string) { forall i :: 0 <= i < |s| ==> !('A' <= s[i] <= 'Z') }

  // ---------------------------------------------------------------------------------------
  // Joining and splitting on the double underscore
  // ---------------------------------------------------------------------------------------

  /** "__".join */
  function Join(parts: seq<string>): string
    requires parts != []
  {
    if |parts| == 1 then parts[0] else parts[0] + "__" + Join(parts[1..])
  }

  /** Whether a double underscore opens the string. */
  predicate Opens(s: string) { |s| >= 2 && s[0] == '_' && s[1] == '_' }

  /** s.split("__"): at the first double underscore, then on in the rest. */
  function Cut(s: string): (parts: seq<string>)
    ensures parts != []
  {
    if s == "" then [""]
    else if Opens(s) then [""] + Cut(s[2..])
    else
      var rest := Cut(s[1..]);
      [[s[0]] + rest[0]] + rest[1..]
  }

  /** No double underscore within. */
  predicate Single(s: string) { forall i :: 0 <= i < |s| - 1 ==> !(s[i] == '_' && s[i + 1] == '_') }

  /** Segments that survive being joined: none holds a double underscore, none but the last ends with one. */
  predicate Separable(parts: seq<string>) {
    && (forall i :: 0 <= i < |parts| ==> Single(parts[i]))
    && (forall i :: 0 <= i < |parts| - 1 ==> parts[i] == "" || parts[i][|parts[i]| - 1] != '_')
  }

  lemma NothingToCut()
    ensures Separable([""]) && Join([""]) == ""
  {
  }

  lemma OpeningCut(s: string, rest: seq<string>)
    requires Opens(s) && rest != [] && Separable(rest) && Join(rest) == s[2..]
    ensures Separable([""] + rest) && Join([""] + rest) == s
  {
    assert Single("");
    hide Single;
    assert ([""] + rest)[1..] == rest;
    assert s == "__" + s[2..];
  }

  lemma {:induction false} CutIsSeparable(s: string)
    ensures Separable(Cut(s)) && Join(Cut(s)) == s
    ensures |s| > 0 && Cut(s)[0] != "" ==> Cut(s)[0][0] == s[0]
  {
    if s == "" {
      NothingToCut();
    } else if Opens(s) {
      CutIsSeparable(s[2..]);
      OpeningCut(s, Cut(s[2..]));
      hide Separable, Join;
    } else {
      CutIsSeparable(s[1..]);
      CutStep(s, Cut(s[1..]));
      hide Separable, Join;
    }
  }

  /** One more character in front of a single segment still opens no double underscore inside it. */
  lemma FirstSingle(c: char, rest: string)
    requires Single(rest) && (rest != "" ==> !(c == '_' && rest[0] == '_'))
    ensures Single([c] + rest)
  {
    var first := [c] + rest;
    forall i | 0 <= i < |first| - 1 ensures !(first[i] == '_' && first[i + 1] == '_') {
      assert first[i + 1] == rest[i];
      if i > 0 {
        assert first[i] == rest[i - 1];
      }
    }
  }

  lemma Regrouped(c: char, rest: seq<string>)
    requires rest != []
    ensures Join([[c] + rest[0]] + rest[1..]) == [c] + Join(rest)
  {
    assert ([[c] + rest[0]] + rest[1..])[1..] == rest[1..];
  }

  lemma FirstReplaced(first: string, rest: seq<string>)
    requires rest != [] && Separable(rest) && Single(first)
    requires |rest| > 1 ==> first == "" || first[|first| - 1] != '_'
    ensures Separable([first] + rest[1..])
  {
    hide Single;
    var parts := [first] + rest[1..];
    forall i | 0 < i < |parts| ensures parts[i] == rest[i] {
    }
  }

  lemma CutStep(s: string, rest: seq<string>)
    requires s != "" && !Opens(s) && rest != [] && Separable(rest) && Join(rest) == s[1..]
    requires |s| > 1 && rest[0] != "" ==> rest[0][0] == s[1]
    ensures var parts := [[s[0]] + rest[0]] + rest[1..]; Separable(parts) && Join(parts) == s
  {
    var first := [s[0]] + rest[0];
    FirstSingle(s[0], rest[0]);
    hide Single;
    if |rest| > 1 {
      if rest[0] == "" {
        assert s[1..] == "__" + Join(rest[1..]);
        assert s[1] == '_' && s[0] != '_';
      } else {
        assert first[|first| - 1] == rest[0][|rest[0]| - 1];
      }
    }
    hide Join;
    FirstReplaced(first, rest);
    Regrouped(s[0], rest);
    assert s == [s[0]] + s[1..];
  }

  lemma {:induction false} CutOfSingle(s: string)
    requires Single(s)
    ensures Cut(s) == [s]
  {
    if s != "" {
      assert !Opens(s);
      assert Single(s[1..]) by {
        assert forall i :: 0 <= i < |s[1..]| ==> s[1..][i] == s[i + 1];
      }
      CutOfSingle(s[1..]);
      assert [s[0]] + s[1..] == s;
    }
  }

  /** A segment followed by the separator is cut off whole. */
  lemma {:induction false} CutFirst(first: string, rest: string)
    requires Single(first) && (first != "" ==> first[|first| - 1] != '_')
    ensures Cut(first + "__" + rest) == [first] + Cut(rest)
  {
    var whole := first + "__" + rest;
    if first == "" {
      assert whole[2..] == rest;
    } else {
      var more := first[1..];
      assert whole[1..] == more + "__" + rest;
      assert !Opens(whole);
      assert Single(more) by {
        assert forall i :: 0 <= i < |more| ==> more[i] == first[i + 1];
      }
      CutFirst(more, rest);
      assert [first[0]] + more == first;
    }
  }

  lemma RestSeparable(parts: seq<string>)
    requires |parts| > 1 && Separable(parts)
    ensures Separable(parts[1..]) && (parts[0] == "" || parts[0][|parts[0]| - 1] != '_')
  {
    hide Single;
    var rest := parts[1..];
    assert forall i :: 0 <= i < |rest| ==> rest[i] == parts[i + 1];
  }

  lemma {:induction false} CutOfJoin(parts: seq<string>)
    requires parts != [] && Separable(parts)
    ensures Cut(Join(parts)) == parts
  {
    assert Single(parts[0]);
    if |parts| == 1 {
      CutOfSingle(parts[0]);
      assert parts == [parts[0]];
    } else {
      var rest := parts[1..];
      RestSeparable(parts);
      hide Separable;
      CutOfJoin(rest);
      hide Single, Cut;
      CutFirst(parts[0], Join(rest));
      assert parts == [parts[0]] + rest;
    }
  }

  // ---------------------------------------------------------------------------------------
  // The variable of a path, and the path of a variable
  // ---------------------------------------------------------------------------------------

  /** path.partition("."), the separator dropped */
  function Partition(path: string): (string, string) {
    if path == "" then ("", "")
    else if path[0] == '.' then ("", path[1..])
    else
      var (section, field) := Partition(path[1..]);
      ([path[0]] + section, field)
  }

  /** replace(".", "__") */
  function Underscored(s: string): string {
    if s == "" then "" else Underscored(s[..|s| - 1]) + if s[|s| - 1] == '.' then "__" else [s[|s| - 1]]
  }

  function EnvVarFor(path: string): Result<string> {
    var (section, field) := Partition(path);
    if field == "" then ValueError
    else Ok(ENV_PREFIX + Upper(section) + "__" + Underscored(Upper(field)))
  }

  /** The path _read_env parses a variable's name into; None when it is not one of ours. */
  function PathOf(name: string): (path: Option<seq<string>>)
    ensures path.Some? ==> path.value != []
  {
    if ENV_PREFIX <= name && name[|ENV_PREFIX|..] !in RESERVED_SUFFIXES then Some(Cut(Lower(name[|ENV_PREFIX|..]))) else None
  }

  lemma {:induction false} Partitioned(path: string)
    requires Partition(path).1 != ""
    ensures var (section, field) := Partition(path); path == section + "." + field && '.' !in section
  {
    if path[0] != '.' {
      Partitioned(path[1..]);
    }
  }

  lemma UnderscoredSnoc(s: string, c: char)
    ensures Underscored(s + [c]) == Underscored(s) + if c == '.' then "__" else [c]
  {
    assert (s + [c])[..|s|] == s;
  }

  lemma {:induction false} UnderscoredConcat(a: string, b: string)
    ensures Underscored(a + b) == Underscored(a) + Underscored(b)
  {
    assert Underscored("") == "";
    hide Underscored;
    if b == "" {
      assert a + b == a;
    } else {
      var front, c := b[..|b| - 1], b[|b| - 1];
      UnderscoredConcat(a, front);
      UnderscoredSnoc(a + front, c);
      UnderscoredSnoc(front, c);
      assert a + b == (a + front) + [c] && b == front + [c];
    }
  }

  lemma {:induction false} UnderscoredPlain(s: string)
    requires '.' !in s
    ensures Underscored(s) == s
  {
    if s != "" {
      UnderscoredPlain(s[..|s| - 1]);
    }
  }

  lemma LowerConcat(a: string, b: string)
    ensures Lower(a + b) == Lower(a) + Lower(b)
  {
    hide Lower;
    var whole, split := Lower(a + b), Lower(a) + Lower(b);
    assert forall i :: 0 <= i < |a + b| ==> whole[i] == split[i];
  }

  lemma UpperSnoc(s: string, c: char)
    ensures Upper(s + [c]) == Upper(s) + [UpperChar(c)] && Lower(s + [c]) == Lower(s) + [LowerChar(c)]
  {
    hide Upper, Lower;
  }

  /** Lowering what was raised is lowering; and it commutes with replacing dots. */
  lemma {:induction false} LowerUnderscored(s: string)
    ensures Lower(Underscored(Upper(s))) == Underscored(Lower(s))
  {
    if s != "" {
      var front, c := s[..|s| - 1], s[|s| - 1];
      LowerUnderscored(front);
      assert s == front + [c];
      UpperSnoc(front, c);
      UnderscoredSnoc(Upper(front), UpperChar(c));
      UnderscoredSnoc(Lower(front), LowerChar(c));
      var tail := if c == '.' then "__" else [UpperChar(c)];
      LowerConcat(Underscored(Upper(front)), tail);
      LowerTail(c);
      hide Underscored, Upper, Lower, UpperChar, LowerChar;
      assert UpperChar(c) == '.' <==> c == '.';
    }
  }

  lemma LowerTail(c: char)
    ensures Lower("__") == "__" && Lower([UpperChar(c)]) == [LowerChar(c)]
    ensures UpperChar(c) == '.' <==> c == '.'
    ensures LowerChar(c) == '.' <==> c == '.'
  {
    hide Lower;
  }

  lemma JoinSnoc(parts: seq<string>, last: string)
    requires parts != []
    ensures Join(parts + [last]) == Join(parts) + "__" + last
  {
    if |parts| > 1 {
      assert (parts + [last])[1..] == parts[1..] + [last];
      JoinSnoc(parts[1..], last);
    } else {
      assert (parts + [last])[1..] == [last];
    }
  }

  lemma JoinGrow(parts: seq<string>, last: string, c: char)
    ensures Join(parts + [last + [c]]) == Join(parts + [last]) + [c]
  {
    if parts != [] {
      JoinSnoc(parts, last);
      JoinSnoc(parts, last + [c]);
    }
  }

  lemma JoinGrowLast(parts: seq<string>, c: char)
    requires parts != []
    ensures var n := |parts| - 1; Join(parts[..n] + [parts[n] + [c]]) == Join(parts) + [c]
  {
    hide Join;
    var n := |parts| - 1;
    assert parts == parts[..n] + [parts[n]];
    JoinGrow(parts[..n], parts[n], c);
  }

  lemma JoinStep(front: string, c: char)
    requires Join(Split(front)) == Underscored(front)
    ensures Join(Split(front + [c])) == Underscored(front + [c])
  {
    SplitSnoc(front, c);
    UnderscoredSnoc(front, c);
    hide Split, Underscored, Join;
    if c == '.' {
      JoinSnoc(Split(front), "");
    } else {
      JoinGrowLast(Split(front), c);
    }
  }

  /** Replacing dots by double underscores is joining the dotted segments by them. */
  lemma {:induction false} JoinOfSplit(path: string)
    ensures Join(Split(path)) == Underscored(path)
  {
    if path != "" {
      var front, c := path[..|path| - 1], path[|path| - 1];
      JoinOfSplit(front);
      assert path == front + [c];
      JoinStep(front, c);
    }
  }

  lemma {:induction false} UnderscoredStable(s: string)
    ensures LowerStable(Underscored(s)) <==> LowerStable(s)
  {
    if s != "" {
      var front, c := s[..|s| - 1], s[|s| - 1];
      UnderscoredStable(front);
      UnderscoredSnoc(front, c);
      assert s == front + [c];
      StableSnoc(front, [c]);
      StableSnoc(Underscored(front), if c == '.' then "__" else [c]);
      hide Underscored;
    }
  }

  lemma StableSnoc(a: string, b: string)
    ensures LowerStable(a + b) <==> LowerStable(a) && LowerStable(b)
  {
    assert forall i :: 0 <= i < |a| ==> (a + b)[i] == a[i];
    assert forall i :: 0 <= i < |b| ==> (a + b)[|a| + i] == b[i];
  }

  lemma LowerOfStable(s: string)
    ensures Lower(s) == s <==> LowerStable(s)
    ensures LowerStable(Lower(s))
  {
    hide Lower;
  }

  /** The name spelled for a path, as _read_env sees it: the lowered path's segments, joined. */
  lemma NameLowered(path: string)
    requires EnvVarFor(path).Ok?
    ensures var name := EnvVarFor(path).value;
            ENV_PREFIX <= name && Lower(name[|ENV_PREFIX|..]) == Join(Split(Lower(path)))
  {
    var (section, field) := Partition(path);
    Partitioned(path);
    var suffix := Upper(section) + "__" + Underscored(Upper(field));
    assert EnvVarFor(path).value == ENV_PREFIX + suffix;
    hide Upper, Lower, Underscored, Join, Split;
    LowerSuffix(section, field);
    LowerConcat(section + ".", field);
    LowerConcat(section, ".");
    LowerDot();
    NoDots(section);
    UnderscoredAtDot(Lower(section), Lower(field));
    JoinOfSplit(Lower(path));
  }

  lemma LowerDot()
    ensures Lower(".") == "."
  {
  }

  lemma NoDots(s: string)
    requires '.' !in s
    ensures '.' !in Lower(s)
  {
    hide Lower;
  }

  lemma LowerSuffix(section: string, field: string)
    ensures Lower(Upper(section) + "__" + Underscored(Upper(field))) == Lower(section) + "__" + Underscored(Lower(field))
  {
    hide Upper, Lower, Underscored;
    LowerConcat(Upper(section) + "__", Underscored(Upper(field)));
    LowerConcat(Upper(section), "__");
    LowerUnderscored(field);
    LowerTail('_');
    assert Lower(Upper(section)) == Lower(section);
  }

  lemma UnderscoredAtDot(section: string, field: string)
    requires '.' !in section
    ensures Underscored(section + "." + field) == section + "__" + Underscored(field)
  {
    UnderscoredConcat(section + ".", field);
    UnderscoredPlain(section);
    UnderscoredSnoc(section, '.');
    hide Underscored;
  }

  /** No reserved suffix holds a double underscore. */
  lemma NotReserved(suffix: string, i: nat)
    requires i + 1 < |suffix| && suffix[i] == '_' && suffix[i + 1] == '_'
    ensures suffix !in RESERVED_SUFFIXES
  {
    assert !Single(suffix);
    assert Single("CONFIG") && Single("DATA_DIR") && Single("LOG_LEVEL");
  }

  /** Every spelled name is read as a path: the reserved suffixes hold no double underscore. */
  lemma SpelledIsRead(path: string)
    requires EnvVarFor(path).Ok?
    ensures PathOf(EnvVarFor(path).value).Some?
  {
    var (section, field) := Partition(path);
    var name := EnvVarFor(path).value;
    var suffix := Upper(section) + "__" + Underscored(Upper(field));
    hide Cut, Lower;
    assert name[|ENV_PREFIX|..] == suffix;
    NotReserved(suffix, |section|);
  }

  /** The variable spelled for a path is read back to exactly that path, if and only if the path has no capital
      letter, no segment holds a double underscore, and none but the last ends with an underscore. */
  lemma SpelledReadsBack(path: string)
    requires EnvVarFor(path).Ok?
    ensures PathOf(EnvVarFor(path).value) == Some(Split(path)) <==> LowerStable(path) && Separable(Split(path))
  {
    hide EnvVarFor, Split, Join, Cut, Lower, Separable, Underscored, LowerStable;
    SpelledIsRead(path);
    NameLowered(path);
    LowerOfStable(path);
    var lowered := Join(Split(Lower(path)));
    assert PathOf(EnvVarFor(path).value) == Some(Cut(lowered));
    if LowerStable(path) && Separable(Split(path)) {
      CutOfJoin(Split(path));
    }
    if Cut(lowered) == Split(path) {
      CutIsSeparable(lowered);
      JoinOfSplit(path);
      JoinOfSplit(Lower(path));
      UnderscoredStable(path);
      UnderscoredStable(Lower(path));
    }
  }

  lemma {:induction false} PartitionAtDot(section: string, field: string)
    requires '.' !in section
    ensures Partition(section + "." + field) == (section, field)
  {
    var path := section + "." + field;
    if section == "" {
      assert path[1..] == field;
    } else {
      assert path[1..] == section[1..] + "." + field;
      PartitionAtDot(section[1..], field);
      assert section == [section[0]] + section[1..];
    }
  }

  lemma SplitUnderscore()
    ensures Split("a_.b") == ["a_", "b"]
  {
    SplitAtDot("a_", "b");
    SplitPlain("a_");
    SplitPlain("b");
    hide Split;
    assert "a_" + "." + "b" == "a_.b";
  }

  lemma CutUnderscore()
    ensures Cut(Join(["a_", "b"])) == ["a", "_b"]
  {
    assert ["a_", "b"][1..] == ["b"];
    assert Join(["a_", "b"]) == "a" + "__" + "_b";
    CutFirst("a", "_b");
    CutOfSingle("_b");
  }

  lemma StableName(path: string)
    requires EnvVarFor(path).Ok? && LowerStable(path)
    ensures PathOf(EnvVarFor(path).value) == Some(Cut(Join(Split(path))))
  {
    hide Split, EnvVarFor, Lower, Cut, Join, LowerStable;
    LowerOfStable(path);
    SpelledIsRead(path);
    NameLowered(path);
  }

  lemma UnderscorePath()
    ensures EnvVarFor("a_.b").Ok? && LowerStable("a_.b")
  {
    PartitionAtDot("a_", "b");
    assert "a_" + "." + "b" == "a_.b";
    hide Upper, Underscored, Partition;
  }

  /** A section that ends with an underscore: the variable spelled for a_.b is read as a._b. */
  lemma UnderscoreMoves()
    ensures EnvVarFor("a_.b").Ok? && Split("a_.b") == ["a_", "b"]
    ensures PathOf(EnvVarFor("a_.b").value) == Some(["a", "_b"])
  {
    hide *;
    UnderscorePath();
    SplitUnderscore();
    CutUnderscore();
    StableName("a_.b");
  }

  // ---------------------------------------------------------------------------------------
  // The nested table
  // ---------------------------------------------------------------------------------------

  datatype Variable = Variable(name: string, value: string)

  /** setdefault down the path, then the assignment; it raises on meeting a value where a table should be. */
  function Put(t: Table, path: seq<string>, value: Json): Result<Table>
    requires path != []
    decreases |path|
  {
    if |path| == 1 then Ok(t[path[0] := value])
    else
      var child := if path[0] in t then t[path[0]] else Object(map[]);
      if !child.Object? then ValueError
      else
        var inner := Put(child.fields, path[1..], value);
        if inner.ValueError? then ValueError else Ok(t[path[0] := Object(inner.value)])
  }

  /** The table after the variables so far, or the error one of them raised. */
  function ReadAll(environ: seq<Variable>): Result<Table> {
    if environ == [] then Ok(map[])
    else
      var before, last := ReadAll(environ[..|environ| - 1]), environ[|environ| - 1];
      if before.ValueError? || PathOf(last.name).None? then before
      else Put(before.value, PathOf(last.name).value, Text(last.value))
  }

  function LogLevel(environ: seq<Variable>): string {
    if environ == [] then ""
    else if environ[|environ| - 1].name == ENV_PREFIX + "LOG_LEVEL" then environ[|environ| - 1].value
    else LogLevel(environ[..|environ| - 1])
  }

  /** LOG_LEVEL stands in for logging.level where that is not set. */
  function WithLogLevel(t: Table, level: string): Result<Table> {
    if level == "" then Ok(t)
    else
      var set' := LayerHolds(t, "logging", "level");
      if set'.ValueError? then ValueError
      else if set'.value then Ok(t)
      else Put(t, ["logging", "level"], Text(level))
  }

  method ReadEnv(environ: seq<Variable>) returns (nested: Result<Table>)
    ensures nested == (var read := ReadAll(environ);
                       if read.ValueError? then ValueError else WithLogLevel(read.value, LogLevel(environ)))
  {
    hide Put, PathOf, WithLogLevel;
    nested := Ok(map[]);
    var level := "";
    var i := 0;
    while i < |environ|
      invariant 0 <= i <= |environ|
      invariant nested == ReadAll(environ[..i]) && level == LogLevel(environ[..i])
    {
      assert environ[..i + 1][..i] == environ[..i];
      if nested.Ok? && PathOf(environ[i].name).Some? {
        nested := Put(nested.value, PathOf(environ[i].name).value, Text(environ[i].value));
      }
      if environ[i].name == ENV_PREFIX + "LOG_LEVEL" {
        level := environ[i].value;
      }
      i := i + 1;
    }
    assert environ[..|environ|] == environ;
    if nested.Ok? {
      nested := WithLogLevel(nested.value, level);
    }
  }

  predicate Related(p: seq<string>, q: seq<string>) { p <= q || q <= p }

  /** An assignment sets its own path and leaves every unrelated one alone. */
  lemma {:induction false} PutAt(t: Table, path: seq<string>, value: Json, other: seq<string>)
    requires path != [] && other != [] && Put(t, path, value).Ok?
    ensures At(Put(t, path, value).value, path) == Some(value)
    ensures !Related(path, other) ==> At(Put(t, path, value).value, other) == At(t, other)
    decreases |path|
  {
    if |path| > 1 {
      var child := if path[0] in t then t[path[0]] else Object(map[]);
      var rest := if |other| > 1 then other[1..] else other;
      PutAt(child.fields, path[1..], value, rest);
      assert path == [path[0]] + path[1..] && other == [other[0]] + other[1..];
    }
  }

  /** The only values that are not tables are those assigned. */
  lemma {:induction false} PutLeaves(t: Table, path: seq<string>, value: Json, other: seq<string>)
    requires path != [] && other != [] && Put(t, path, value).Ok?
    requires At(Put(t, path, value).value, other).Some? && !At(Put(t, path, value).value, other).value.Object?
    requires !value.Object?
    ensures other == path || At(t, other) == At(Put(t, path, value).value, other)
    decreases |path|
  {
    if |path| > 1 && other[0] == path[0] && |other| > 1 {
      var child := if path[0] in t then t[path[0]] else Object(map[]);
      PutLeaves(child.fields, path[1..], value, other[1..]);
      assert path == [path[0]] + path[1..] && other == [other[0]] + other[1..];
    }
  }

  /** It raises only where a value stands at a proper beginning of its path. */
  lemma {:induction false} PutRaises(t: Table, path: seq<string>, value: Json) returns (k: nat)
    requires path != [] && Put(t, path, value).ValueError?
    ensures 0 < k < |path| && At(t, path[..k]).Some? && !At(t, path[..k]).value.Object?
    decreases |path|
  {
    if path[0] in t && !t[path[0]].Object? {
      k := 1;
    } else {
      var child := if path[0] in t then t[path[0]] else Object(map[]);
      var inner := PutRaises(child.fields, path[1..], value);
      k := inner + 1;
      assert path[..k][1..] == path[1..][..inner];
    }
  }

  /** Where one variable's path begins another's, the paths are the same, and so are the values. */
  ghost predicate Consistent(environ: seq<Variable>) {
    forall i, j :: 0 <= i < j < |environ| ==> Compatible(environ[i], environ[j])
  }

  predicate Compatible(a: Variable, b: Variable) {
    var p, q := PathOf(a.name), PathOf(b.name);
    p.Some? && q.Some? && Related(p.value, q.value) ==> p == q && a.value == b.value
  }

  /** Reading does not raise, and every variable's value stands at its own path. */
  ghost predicate AllStand(environ: seq<Variable>) {
    && ReadAll(environ).Ok?
    && forall i :: 0 <= i < |environ| && PathOf(environ[i].name).Some? ==>
         At(ReadAll(environ).value, PathOf(environ[i].name).value) == Some(Text(environ[i].value))
  }

  /** A value in the table was put there by a variable of that path. */
  lemma {:induction false} LeafWasRead(environ: seq<Variable>, path: seq<string>) returns (i: nat)
    requires path != [] && ReadAll(environ).Ok?
    requires At(ReadAll(environ).value, path).Some? && !At(ReadAll(environ).value, path).value.Object?
    ensures i < |environ| && PathOf(environ[i].name) == Some(path)
  {
    hide Put, At, PathOf;
    var n := |environ| - 1;
    NothingRead(environ, path);
    if PathOf(environ[n].name).Some? && PathOf(environ[n].name).value == path {
      i := n;
    } else {
      if PathOf(environ[n].name).Some? {
        PutLeaves(ReadAll(environ[..n]).value, PathOf(environ[n].name).value, Text(environ[n].value), path);
      }
      i := LeafWasRead(environ[..n], path);
    }
  }

  lemma NothingRead(environ: seq<Variable>, path: seq<string>)
    requires path != []
    ensures environ == [] ==> ReadAll(environ).Ok? && At(ReadAll(environ).value, path).None?
  {
  }

  lemma RaisedClashes(environ: seq<Variable>)
    requires environ != [] && ReadAll(environ[..|environ| - 1]).Ok? && PathOf(environ[|environ| - 1].name).Some?
    requires var last := environ[|environ| - 1];
             Put(ReadAll(environ[..|environ| - 1]).value, PathOf(last.name).value, Text(last.value)).ValueError?
    ensures !Consistent(environ)
  {
    hide Put, At, PathOf;
    var n := |environ| - 1;
    var path := PathOf(environ[n].name).value;
    var k := PutRaises(ReadAll(environ[..n]).value, path, Text(environ[n].value));
    var j := LeafWasRead(environ[..n], path[..k]);
    assert environ[..n][j] == environ[j] && !Compatible(environ[j], environ[n]);
  }

  lemma {:induction false} ConsistentStand(environ: seq<Variable>)
    requires Consistent(environ)
    ensures AllStand(environ)
  {
    hide Put, At, PathOf;
    if environ != [] {
      var n := |environ| - 1;
      ConsistentStand(environ[..n]);
      if PathOf(environ[n].name).Some? {
        var before, path := ReadAll(environ[..n]).value, PathOf(environ[n].name).value;
        if Put(before, path, Text(environ[n].value)).ValueError? {
          RaisedClashes(environ);
        } else {
          forall i | 0 <= i < |environ| && PathOf(environ[i].name).Some?
            ensures At(ReadAll(environ).value, PathOf(environ[i].name).value) == Some(Text(environ[i].value))
          {
            PutAt(before, path, Text(environ[n].value), PathOf(environ[i].name).value);
            if i < n {
              assert environ[..n][i] == environ[i] && Compatible(environ[i], environ[n]);
            }
          }
        }
      }
    }
  }

  /** Nothing stands below a value that is not a table. */
  lemma {:induction false} NothingBelow(t: Table, path: seq<string>, longer: seq<string>)
    requires path != [] && path < longer && At(t, path).Some? && !At(t, path).value.Object?
    ensures At(t, longer) == None
    decreases |path|
  {
    if |path| > 1 {
      assert path[1..] < longer[1..];
      NothingBelow(t[path[0]].fields, path[1..], longer[1..]);
    }
  }

  lemma StandingAgree(t: Table, p: seq<string>, a: string, q: seq<string>, b: string)
    requires p != [] && q != [] && At(t, p) == Some(Text(a)) && At(t, q) == Some(Text(b)) && Related(p, q)
    ensures p == q && a == b
  {
    hide At;
    if p < q {
      NothingBelow(t, p, q);
    } else if q < p {
      NothingBelow(t, q, p);
    }
  }

  /** Reading does not raise and leaves every variable's value at its own path, if and only if variables whose paths
      begin one another have the same path and the same value. */
  lemma AllStandExactly(environ: seq<Variable>)
    ensures AllStand(environ) <==> Consistent(environ)
  {
    hide ReadAll, At, PathOf, Related;
    if Consistent(environ) {
      ConsistentStand(environ);
    }
    if AllStand(environ) {
      forall i, j | 0 <= i < j < |environ| ensures Compatible(environ[i], environ[j]) {
        var p, q := PathOf(environ[i].name), PathOf(environ[j].name);
        if p.Some? && q.Some? && Related(p.value, q.value) {
          StandingAgree(ReadAll(environ).value, p.value, environ[i].value, q.value, environ[j].value);
        }
      }
    }
  }

  /** LOG_LEVEL never overrides an explicit logging.level, sets it otherwise, and touches nothing else. Where logging is
      not a table, it changes nothing if the level is found in it, as a text holds a part of it, and raises if not. */
  lemma LogLevelYields(t: Table, level: string, other: seq<string>)
    requires level != "" && other != [] && !Related(["logging", "level"], other)
    ensures TableOrAbsent(t, "logging") ==> WithLogLevel(t, level).Ok?
    ensures TableOrAbsent(t, "logging") ==>
      var after := WithLogLevel(t, level).value;
      && At(after, ["logging", "level"]) ==
         (if At(t, ["logging", "level"]).Some? then At(t, ["logging", "level"]) else Some(Text(level)))
      && At(after, other) == At(t, other)
    ensures !TableOrAbsent(t, "logging") ==>
      WithLogLevel(t, level) == if LayerHolds(t, "logging", "level") == Ok(true) then Ok(t) else ValueError
  {
    var path := ["logging", "level"];
    AtField(t, "logging", "level");
    assert path[1..] == ["level"];
    if TableOrAbsent(t, "logging") && At(t, path).None? {
      PutAt(t, path, Text(level), other);
    }
  }
}
