/** Canonical JSON text: keys sorted, no insignificant whitespace, strings escaped as RFC 8259 section 7 requires;
    and a decoder of such text. */
module Canonical {
  import opened Documents
  import opened Strings

  // ---------------------------------------------------------------------------------------
  // Strings
  // ---------------------------------------------------------------------------------------

  function HexDigit(n: nat): char
    requires n < 16
  {
    if n < 10 then '0' + n as char else 'a' + (n - 10) as char
  }

  function HexValue(c: char): int {
    if '0' <= c <= '9' then c as int - '0' as int
    else if 'a' <= c <= 'f' then c as int - 'a' as int + 10
    else if 'A' <= c <= 'F' then c as int - 'A' as int + 10
    else -1
  }

  /** Quotes, backslashes and control characters are escaped; everything else stands for itself. */
  function EscapeChar(c: char): string {
    if c == '\"' then "\\\""
    else if c == '\\' then "\\\\"
    else if c == '\n' then "\\n"
    else if c == '\r' then "\\r"
    else if c == '\t' then "\\t"
    else if c as int == 8 then "\\b"
    else if c as int == 12 then "\\f"
    else if c < ' ' then "\\u00" + [HexDigit(c as int / 16), HexDigit(c as int % 16)]
    else [c]
  }

  function Escape(s: string): string {
    if s == "" then "" else EscapeChar(s[0]) + Escape(s[1..])
  }

  function Quote(s: string): string { "\"" + Escape(s) + "\"" }

  // ---------------------------------------------------------------------------------------
  // Printing
  // ---------------------------------------------------------------------------------------

  ghost function Print(j: Json): string
    decreases j, 1, 0
  {
    match j
    case Null => "null"
    case Bool(true) => "true"
    case Bool(false) => "false"
    case Number(literal) => literal
    case Text(s) => Quote(s)
    case List(items) => "[" + PrintItems(j, 0) + "]"
    case Object(fields) => "{" + PrintMembers(j, SortedKeys(fields.Keys)) + "}"
  }

  /** The items from the k-th on, separated by commas. */
  ghost function PrintItems(j: Json, k: nat): string
    requires j.List? && k <= |j.items|
    decreases j, 0, |j.items| - k
  {
    if k == |j.items| then ""
    else if k == |j.items| - 1 then Print(j.items[k])
    else Print(j.items[k]) + "," + PrintItems(j, k + 1)
  }

  ghost function PrintMembers(j: Json, keys: seq<string>): string
    requires j.Object? && forall i :: 0 <= i < |keys| ==> keys[i] in j.fields
    decreases j, 0, |keys|
  {
    if keys == [] then ""
    else if |keys| == 1 then Quote(keys[0]) + ":" + Print(j.fields[keys[0]])
    else Quote(keys[0]) + ":" + Print(j.fields[keys[0]]) + "," + PrintMembers(j, keys[1..])
  }

  method CanonicalJson(j: Json) returns (text: string)
    ensures text == Print(j)
    decreases j, 1
  {
    hide Quote, PrintItems, PrintMembers, SortedKeys;
    match j
    case Null => text := "null";
    case Bool(b) => text := if b then "true" else "false";
    case Number(literal) => text := literal;
    case Text(s) => text := Quote(s);
    case List(_) =>
      text := ItemsText(j);
      text := "[" + text + "]";
    case Object(_) =>
      text := MembersText(j);
      text := "{" + text + "}";
  }

  method ItemsText(j: Json) returns (text: string)
    requires j.List?
    ensures text == PrintItems(j, 0)
    decreases j, 0
  {
    hide Print;
    var k := |j.items|;
    text := "";
    while k > 0
      invariant 0 <= k <= |j.items|
      invariant text == PrintItems(j, k)
    {
      k := k - 1;
      var item := CanonicalJson(j.items[k]);
      text := if k == |j.items| - 1 then item else item + "," + text;
    }
  }

  method MembersText(j: Json) returns (text: string)
    requires j.Object?
    ensures forall i :: 0 <= i < |SortedKeys(j.fields.Keys)| ==> SortedKeys(j.fields.Keys)[i] in j.fields
    ensures text == PrintMembers(j, SortedKeys(j.fields.Keys))
    decreases j, 0
  {
    hide Print, Quote, SortedKeys;
    var keys := Sorted(j.fields.Keys);
    var k := |keys|;
    text := "";
    assert forall i :: 0 <= i < |keys| ==> keys[i] in keys;
    while k > 0
      invariant 0 <= k <= |keys|
      invariant text == PrintMembers(j, keys[k..])
    {
      k := k - 1;
      assert keys[k..][1..] == keys[k + 1..] && keys[k..][0] == keys[k] && keys[k] in j.fields;
      var value := CanonicalJson(j.fields[keys[k]]);
      text := if k == |keys| - 1 then Quote(keys[k]) + ":" + value else Quote(keys[k]) + ":" + value + "," + text;
    }
    assert keys[0..] == keys;
  }

  // ---------------------------------------------------------------------------------------
  // Decoding
  // ---------------------------------------------------------------------------------------

  datatype Parsed<T> = Fail | Done(value: T, rest: string)

  predicate NumberChar(c: char) { '0' <= c <= '9' || c == '-' || c == '+' || c == '.' || c == 'e' || c == 'E' }

  /** How far a number reaches. */
  function Span(text: string): (n: nat)
    ensures n <= |text|
  {
    if text == "" || !NumberChar(text[0]) then 0 else 1 + Span(text[1..])
  }

  /** The string up to its closing quote. */
  function ParseText(text: string): (p: Parsed<string>)
    ensures p.Done? ==> |p.rest| < |text|
    decreases |text|
  {
    if text == "" || text[0] < ' ' then Fail
    else if text[0] == '\"' then Done("", text[1..])
    else if text[0] != '\\' then
      var p := ParseText(text[1..]);
      if p.Fail? then Fail else Done([text[0]] + p.value, p.rest)
    else if |text| < 2 then Fail
    else if text[1] == 'u' then
      if |text| < 6 || HexValue(text[2]) != 0 || HexValue(text[3]) != 0 || HexValue(text[4]) < 0 || HexValue(text[5]) < 0 then Fail
      else
        var p := ParseText(text[6..]);
        if p.Fail? then Fail else Done([(HexValue(text[4]) * 16 + HexValue(text[5])) as char] + p.value, p.rest)
    else
      var c := Unescaped(text[1]);
      var p := ParseText(text[2..]);
      if c == "" || p.Fail? then Fail else Done(c + p.value, p.rest)
  }

  /** The character a two-character escape stands for. */
  function Unescaped(c: char): string {
    if c == '\"' || c == '\\' || c == '/' then [c]
    else if c == 'n' then "\n"
    else if c == 'r' then "\r"
    else if c == 't' then "\t"
    else if c == 'b' then [8 as char]
    else if c == 'f' then [12 as char]
    else ""
  }

  function ParseValue(text: string): (p: Parsed<Json>)
    ensures p.Done? ==> |p.rest| < |text|
    decreases |text|, 1
  {
    if text == "" then Fail
    else if text[0] == '\"' then
      var p := ParseText(text[1..]);
      if p.Fail? then Fail else Done(Text(p.value), p.rest)
    else if text[0] == '[' then
      if |text| > 1 && text[1] == ']' then Done(List([]), text[2..])
      else
        var p := ParseItems(text[1..]);
        if p.Fail? then Fail else Done(List(p.value), p.rest)
    else if text[0] == '{' then
      if |text| > 1 && text[1] == '}' then Done(Object(map[]), text[2..])
      else
        var p := ParseMembers(text[1..]);
        if p.Fail? then Fail else Done(Object(p.value), p.rest)
    else if "null" <= text then Done(Null, text[4..])
    else if "true" <= text then Done(Bool(true), text[4..])
    else if "false" <= text then Done(Bool(false), text[5..])
    else if Span(text) > 0 then Done(Number(text[..Span(text)]), text[Span(text)..])
    else Fail
  }

  function ParseItems(text: string): (p: Parsed<seq<Json>>)
    ensures p.Done? ==> |p.rest| < |text|
    decreases |text|, 2
  {
    var first := ParseValue(text);
    if first.Fail? || first.rest == "" then Fail
    else if first.rest[0] == ']' then Done([first.value], first.rest[1..])
    else if first.rest[0] != ',' then Fail
    else
      var more := ParseItems(first.rest[1..]);
      if more.Fail? then Fail else Done([first.value] + more.value, more.rest)
  }

  /** The later of two equal keys wins. */
  function ParseMembers(text: string): (p: Parsed<map<string, Json>>)
    ensures p.Done? ==> |p.rest| < |text|
    decreases |text|, 2
  {
    if text == "" || text[0] != '\"' then Fail
    else
      var key := ParseText(text[1..]);
      if key.Fail? || key.rest == "" || key.rest[0] != ':' then Fail
      else
        var first := ParseValue(key.rest[1..]);
        if first.Fail? || first.rest == "" then Fail
        else if first.rest[0] == '}' then Done(map[key.value := first.value], first.rest[1..])
        else if first.rest[0] != ',' then Fail
        else
          var more := ParseMembers(first.rest[1..]);
          if more.Fail? then Fail else Done(map[key.value := first.value] + more.value, more.rest)
  }

  // ---------------------------------------------------------------------------------------
  // What is printed is read back
  // ---------------------------------------------------------------------------------------

  /** Every number's literal is made of number characters. */
  predicate Literals(j: Json) {
    match j
    case Number(literal) => literal != "" && forall i :: 0 <= i < |literal| ==> NumberChar(literal[i])
    case List(items) => forall i :: 0 <= i < |items| ==> Literals(items[i])
    case Object(fields) => forall k :: k in fields ==> Literals(fields[k])
    case _ => true
  }

  /** What may follow a value: nothing that would prolong a number. */
  predicate Ends(rest: string) { rest == "" || !NumberChar(rest[0]) }

  lemma HexBack(n: nat)
    requires n < 16
    ensures HexValue(HexDigit(n)) == n
  {
  }

  lemma {:induction false} EscapeBack(c: char, rest: string)
    requires ParseText(rest).Done?
    ensures ParseText(EscapeChar(c) + rest) == Done([c] + ParseText(rest).value, ParseText(rest).rest)
  {
    var text := EscapeChar(c) + rest;
    if c == '\"' || c == '\\' || c == '\n' || c == '\r' || c == '\t' || c as int == 8 || c as int == 12 {
      assert text[2..] == rest;
    } else if c < ' ' {
      HexBack(c as int / 16);
      HexBack(c as int % 16);
      assert text[6..] == rest;
    } else {
      assert text[1..] == rest;
    }
  }

  lemma QuoteEnds(rest: string)
    ensures ParseText("\"" + rest) == Done("", rest)
  {
    assert ("\"" + rest)[1..] == rest;
  }

  lemma {:induction false} TextBack(s: string, rest: string)
    ensures ParseText(Escape(s) + "\"" + rest) == Done(s, rest)
  {
    hide ParseText, EscapeChar;
    if s == "" {
      QuoteEnds(rest);
      assert Escape(s) + "\"" + rest == "\"" + rest;
    } else {
      TextBack(s[1..], rest);
      EscapeBack(s[0], Escape(s[1..]) + "\"" + rest);
      assert Escape(s) + "\"" + rest == EscapeChar(s[0]) + (Escape(s[1..]) + "\"" + rest);
      assert [s[0]] + s[1..] == s;
    }
  }

  lemma QuoteBack(s: string, rest: string)
    ensures (Quote(s) + rest)[0] == '\"' && ParseText((Quote(s) + rest)[1..]) == Done(s, rest)
  {
    TextBack(s, rest);
    hide Escape, ParseText;
    assert (Quote(s) + rest)[1..] == Escape(s) + "\"" + rest;
  }

  lemma {:induction false} SpanBack(literal: string, rest: string)
    requires Ends(rest) && forall i :: 0 <= i < |literal| ==> NumberChar(literal[i])
    ensures Span(literal + rest) == |literal|
  {
    if literal == "" {
      assert literal + rest == rest;
    } else {
      assert (literal + rest)[1..] == literal[1..] + rest;
      SpanBack(literal[1..], rest);
    }
  }

  /** A printed value opens with a character that closes nothing. */
  lemma PrintOpens(j: Json)
    requires Literals(j)
    ensures Print(j) != "" && Print(j)[0] != ']' && Print(j)[0] != '}' && Print(j)[0] != ','
    ensures j.Object? ==> Print(j)[0] == '{'
  {
    hide Escape, PrintItems, PrintMembers;
  }

  lemma {:induction false} ValueBack(j: Json, rest: string)
    requires Literals(j) && Ends(rest)
    ensures ParseValue(Print(j) + rest) == Done(j, rest)
    decreases j, 1, 0
  {
    match j
    case Null => assert (Print(j) + rest)[4..] == rest;
    case Bool(true) => assert (Print(j) + rest)[4..] == rest;
    case Bool(false) => assert (Print(j) + rest)[5..] == rest;
    case Number(literal) => NumberBack(literal, rest);
    case Text(s) => TextValueBack(s, rest);
    case List(items) => ListBack(j, rest);
    case Object(fields) => ObjectBack(j, rest);
  }

  lemma NumberBack(literal: string, rest: string)
    requires Literals(Number(literal)) && Ends(rest)
    ensures ParseValue(literal + rest) == Done(Number(literal), rest)
  {
    SpanBack(literal, rest);
    var text := literal + rest;
    assert NumberChar(text[0]);
    assert text[..|literal|] == literal && text[|literal|..] == rest;
    hide ParseItems, ParseMembers, ParseText, Span;
  }

  // one step of the decoder each

  lemma ParseQuoted(text: string, s: string, rest: string)
    requires text != "" && text[0] == '\"' && ParseText(text[1..]) == Done(s, rest)
    ensures ParseValue(text) == Done(Text(s), rest)
  {
    hide ParseItems, ParseMembers, ParseText, Span;
  }

  lemma ParseBracket(text: string, items: seq<Json>, rest: string)
    requires |text| > 1 && text[0] == '[' && text[1] != ']' && ParseItems(text[1..]) == Done(items, rest)
    ensures ParseValue(text) == Done(List(items), rest)
  {
    hide ParseItems, ParseMembers, ParseText, Span;
  }

  lemma ParseBrace(text: string, fields: map<string, Json>, rest: string)
    requires |text| > 1 && text[0] == '{' && text[1] != '}' && ParseMembers(text[1..]) == Done(fields, rest)
    ensures ParseValue(text) == Done(Object(fields), rest)
  {
    hide ParseItems, ParseMembers, ParseText, Span;
  }

  lemma ParseLastItem(text: string, item: Json, rest: string)
    requires ParseValue(text) == Done(item, "]" + rest)
    ensures ParseItems(text) == Done([item], rest)
  {
    assert ("]" + rest)[1..] == rest;
    hide ParseValue;
  }

  lemma ParseItem(text: string, item: Json, tail: string, items: seq<Json>, rest: string)
    requires ParseValue(text) == Done(item, "," + tail) && ParseItems(tail) == Done(items, rest)
    ensures ParseItems(text) == Done([item] + items, rest)
  {
    assert ("," + tail)[1..] == tail;
    hide ParseValue;
  }

  /** A key, its colon and its value. */
  predicate Member(text: string, key: string, value: Json, rest: string) {
    && text != "" && text[0] == '\"'
    && var k := ParseText(text[1..]);
       k.Done? && k.value == key && k.rest != "" && k.rest[0] == ':' && ParseValue(k.rest[1..]) == Done(value, rest)
  }

  lemma ParseLastMember(text: string, key: string, value: Json, rest: string)
    requires Member(text, key, value, "}" + rest)
    ensures ParseMembers(text) == Done(map[key := value], rest)
  {
    assert ("}" + rest)[1..] == rest;
    hide ParseValue, ParseText;
  }

  lemma ParseMember(text: string, key: string, value: Json, tail: string, fields: map<string, Json>, rest: string)
    requires Member(text, key, value, "," + tail) && ParseMembers(tail) == Done(fields, rest)
    ensures ParseMembers(text) == Done(map[key := value] + fields, rest)
  {
    assert ("," + tail)[1..] == tail;
    hide ParseValue, ParseText;
  }

  lemma TextValueBack(s: string, rest: string)
    ensures ParseValue(Quote(s) + rest) == Done(Text(s), rest)
  {
    QuoteBack(s, rest);
    ParseQuoted(Quote(s) + rest, s, rest);
  }

  // one step of the printer each

  lemma ItemsStep(j: Json, k: nat)
    requires j.List? && k < |j.items|
    ensures PrintItems(j, k) == Print(j.items[k]) + if k == |j.items| - 1 then "" else "," + PrintItems(j, k + 1)
  {
    hide Print;
  }

  lemma MembersStep(j: Json, keys: seq<string>)
    requires j.Object? && keys != [] && forall i :: 0 <= i < |keys| ==> keys[i] in j.fields
    ensures PrintMembers(j, keys) ==
            Quote(keys[0]) + ":" + Print(j.fields[keys[0]]) + if |keys| == 1 then "" else "," + PrintMembers(j, keys[1..])
  {
    hide Print;
  }

  lemma EmptyListBack(rest: string)
    ensures ParseValue("[]" + rest) == Done(List([]), rest)
  {
    assert ("[]" + rest)[2..] == rest;
    hide ParseItems, ParseMembers, ParseText, Span;
  }

  lemma PrintList(j: Json)
    requires j.List?
    ensures Print(j) == "[" + PrintItems(j, 0) + "]" && (j.items == [] ==> Print(j) == "[]")
  {
  }

  lemma BracketsBack(inner: string, items: seq<Json>, rest: string)
    requires inner != "" && inner[0] != ']' && ParseItems(inner + "]" + rest) == Done(items, rest)
    ensures ParseValue("[" + inner + "]" + rest) == Done(List(items), rest)
  {
    hide ParseItems, ParseValue;
    var text := "[" + inner + "]" + rest;
    assert text == "[" + (inner + "]" + rest);
    assert text[1..] == inner + "]" + rest;
    assert text[1] == inner[0];
    ParseBracket(text, items, rest);
  }

  lemma {:induction false} ListBack(j: Json, rest: string)
    requires j.List? && Literals(j) && Ends(rest)
    ensures ParseValue(Print(j) + rest) == Done(j, rest)
    decreases j, 0, |j.items| + 1
  {
    assert j.items != [] ==> Literals(j.items[0]);
    hide Print, PrintItems, ParseValue, ParseItems;
    PrintList(j);
    if j.items == [] {
      EmptyListBack(rest);
    } else {
      ItemsBack(j, 0, rest);
      ItemsStep(j, 0);
      PrintOpens(j.items[0]);
      assert j.items[0..] == j.items;
      BracketsBack(PrintItems(j, 0), j.items, rest);
    }
  }

  lemma {:induction false} ItemsBack(j: Json, k: nat, rest: string)
    requires j.List? && k < |j.items| && Literals(j)
    ensures ParseItems(PrintItems(j, k) + "]" + rest) == Done(j.items[k..], rest)
    decreases j, 0, |j.items| - k
  {
    hide Print, PrintItems, ParseValue, ParseItems;
    var item := j.items[k];
    var text := PrintItems(j, k) + "]" + rest;
    ItemsStep(j, k);
    if k == |j.items| - 1 {
      assert text == Print(item) + ("]" + rest);
      ValueBack(item, "]" + rest);
      ParseLastItem(text, item, rest);
      assert j.items[k..] == [item];
    } else {
      var tail := PrintItems(j, k + 1) + "]" + rest;
      assert text == Print(item) + ("," + tail);
      ValueBack(item, "," + tail);
      ItemsBack(j, k + 1, rest);
      ParseItem(text, item, tail, j.items[k + 1..], rest);
      assert j.items[k..] == [item] + j.items[k + 1..];
    }
  }

  /** The fields named. */
  function Picked(fields: map<string, Json>, keys: seq<string>): map<string, Json>
    requires forall i :: 0 <= i < |keys| ==> keys[i] in fields
  {
    map k | k in fields && k in keys :: fields[k]
  }

  lemma PickedAll(fields: map<string, Json>)
    ensures var keys := SortedKeys(fields.Keys);
            && (forall i :: 0 <= i < |keys| ==> keys[i] in fields) && Picked(fields, keys) == fields
            && (keys == [] ==> fields == map[])
  {
    var keys := SortedKeys(fields.Keys);
    forall i | 0 <= i < |keys| ensures keys[i] in fields {
      assert keys[i] in keys;
    }
    if keys == [] {
      forall k ensures k !in fields {
        assert k in keys <==> k in fields.Keys;
      }
    }
  }

  lemma PickedStep(fields: map<string, Json>, keys: seq<string>)
    requires keys != [] && Ascending(keys) && forall i :: 0 <= i < |keys| ==> keys[i] in fields
    ensures Picked(fields, keys) == map[keys[0] := fields[keys[0]]] + Picked(fields, keys[1..])
    ensures |keys| == 1 ==> Picked(fields, keys) == map[keys[0] := fields[keys[0]]]
  {
    assert keys == [keys[0]] + keys[1..];
    assert keys[0] !in keys[1..];
  }

  lemma PrintObject(j: Json)
    requires j.Object?
    ensures var keys := SortedKeys(j.fields.Keys);
            && (forall i :: 0 <= i < |keys| ==> keys[i] in j.fields)
            && Print(j) == "{" + PrintMembers(j, keys) + "}"
            && (keys == [] ==> Print(j) == "{}")
  {
    PickedAll(j.fields);
    hide Picked;
  }

  lemma EmptyObjectBack(rest: string)
    ensures ParseValue("{}" + rest) == Done(Object(map[]), rest)
  {
    assert ("{}" + rest)[2..] == rest;
    hide ParseItems, ParseMembers, ParseText, Span;
  }

  lemma {:induction false} ObjectBack(j: Json, rest: string)
    requires j.Object? && Literals(j) && Ends(rest)
    ensures ParseValue(Print(j) + rest) == Done(j, rest)
    decreases j, 0, |SortedKeys(j.fields.Keys)| + 1
  {
    hide Print, PrintMembers, ParseValue, ParseMembers, Picked, Quote, Literals;
    var keys := SortedKeys(j.fields.Keys);
    PickedAll(j.fields);
    PrintObject(j);
    if keys == [] {
      EmptyObjectBack(rest);
    } else {
      MembersBack(j, keys, rest);
      MembersStep(j, keys);
      QuoteOpens(keys[0]);
      BracesBack(PrintMembers(j, keys), j.fields, rest);
    }
  }

  lemma BracesBack(members: string, fields: map<string, Json>, rest: string)
    requires members != "" && members[0] == '\"' && ParseMembers(members + "}" + rest) == Done(fields, rest)
    ensures ParseValue("{" + members + "}" + rest) == Done(Object(fields), rest)
  {
    hide ParseMembers, ParseValue;
    var text := "{" + members + "}" + rest;
    assert text == "{" + (members + "}" + rest);
    assert text[1..] == members + "}" + rest;
    assert text[1] == '\"';
    ParseBrace(text, fields, rest);
  }

  lemma QuoteOpens(s: string)
    ensures Quote(s) != "" && Quote(s)[0] == '\"'
  {
    hide Escape;
  }

  lemma {:induction false} MembersBack(j: Json, keys: seq<string>, rest: string)
    requires j.Object? && keys != [] && Literals(j)
    requires Ascending(keys) && forall i :: 0 <= i < |keys| ==> keys[i] in j.fields
    ensures ParseMembers(PrintMembers(j, keys) + "}" + rest) == Done(Picked(j.fields, keys), rest)
    decreases j, 0, |keys|
  {
    hide Print, PrintMembers, ParseValue, ParseText, Quote, ParseMembers, Picked, Member;
    var key, value := keys[0], j.fields[keys[0]];
    var text := PrintMembers(j, keys) + "}" + rest;
    MembersStep(j, keys);
    PickedStep(j.fields, keys);
    if |keys| == 1 {
      assert text == Quote(key) + ":" + Print(value) + ("}" + rest);
      MemberBack(key, value, "}" + rest, text);
      ParseLastMember(text, key, value, rest);
    } else {
      var tail := PrintMembers(j, keys[1..]) + "}" + rest;
      assert text == Quote(key) + ":" + Print(value) + ("," + tail);
      MemberBack(key, value, "," + tail, text);
      MembersBack(j, keys[1..], rest);
      ParseMember(text, key, value, tail, Picked(j.fields, keys[1..]), rest);
    }
  }

  lemma {:induction false} MemberBack(key: string, value: Json, rest: string, text: string)
    requires Literals(value) && Ends(rest)
    requires text == Quote(key) + ":" + Print(value) + rest
    ensures Member(text, key, value, rest)
    decreases value, 2, 0
  {
    hide Print, ParseValue, ParseText, Quote;
    var after := ":" + Print(value) + rest;
    assert text == Quote(key) + after;
    QuoteBack(key, after);
    assert after[1..] == Print(value) + rest;
    ValueBack(value, rest);
  }

  // ---------------------------------------------------------------------------------------
  // Whole documents
  // ---------------------------------------------------------------------------------------

  predicate Space(c: char) { c == ' ' || c == '\t' || c == '\n' || c == '\r' }

  predicate Blank(text: string) { forall i :: 0 <= i < |text| ==> Space(text[i]) }

  datatype Loaded = Decoded(value: Json) | DecodeError

  /** json.loads: one value and nothing after it but white space. */
  function Loads(text: string): Loaded {
    var p := ParseValue(text);
    if p.Done? && Blank(p.rest) then Decoded(p.value) else DecodeError
  }

  /** Decoding what was printed gives it back, and extra text after it is refused. */
  lemma LoadsBack(j: Json, rest: string)
    requires Literals(j) && Ends(rest)
    ensures Loads(Print(j) + rest) == if Blank(rest) then Decoded(j) else DecodeError
  {
    ValueBack(j, rest);
    hide ParseValue, Print;
  }

  // ---------------------------------------------------------------------------------------
  // A cut document
  // ---------------------------------------------------------------------------------------

  /** The decoder never looks past the value it decodes: longer text gives the same value and a longer rest. */
  predicate Extends<T(==)>(p: Parsed<T>, longer: Parsed<T>, more: string) {
    p.Done? ==> longer == Done(p.value, p.rest + more)
  }

  lemma {:induction false} TextExtends(text: string, more: string)
    ensures Extends(ParseText(text), ParseText(text + more), more)
    decreases |text|
  {
    if ParseText(text).Done? {
      if text[0] == '\"' {
        assert (text + more)[1..] == text[1..] + more;
      } else if text[0] != '\\' {
        TextExtends(text[1..], more);
        assert (text + more)[1..] == text[1..] + more;
      } else if text[1] == 'u' {
        TextExtends(text[6..], more);
        assert (text + more)[6..] == text[6..] + more;
      } else {
        TextExtends(text[2..], more);
        assert (text + more)[2..] == text[2..] + more;
      }
    }
  }

  lemma {:induction false} SpanExtends(text: string, more: string)
    requires Span(text) < |text|
    ensures Span(text + more) == Span(text)
  {
    if NumberChar(text[0]) {
      SpanExtends(text[1..], more);
      assert (text + more)[1..] == text[1..] + more;
    }
  }

  /** A number at the very end of the text may be prolonged; nothing else. */
  lemma {:induction false} ValueExtends(text: string, more: string)
    requires ParseValue(text).Done? ==> ParseValue(text).rest != "" || !ParseValue(text).value.Number?
    ensures Extends(ParseValue(text), ParseValue(text + more), more)
    decreases |text|, 1
  {
    if text != "" {
      var longer := text + more;
      if text[0] == '\"' {
        TextExtends(text[1..], more);
        assert longer[1..] == text[1..] + more;
        hide ParseText, ParseItems, ParseMembers, Span;
      } else if text[0] == '[' {
        ListExtends(text, more);
      } else if text[0] == '{' {
        ObjectExtends(text, more);
      } else {
        ScalarExtends(text, more);
      }
    }
  }

  lemma NullExtends(text: string, more: string)
    requires "null" <= text
    ensures Extends(ParseValue(text), ParseValue(text + more), more)
  {
    hide ParseText, ParseItems, ParseMembers, Span;
    var longer := text + more;
    assert "null" <= longer && longer[4..] == text[4..] + more;
  }

  lemma TrueExtends(text: string, more: string)
    requires "true" <= text
    ensures Extends(ParseValue(text), ParseValue(text + more), more)
  {
    hide ParseText, ParseItems, ParseMembers, Span;
    var longer := text + more;
    assert "true" <= longer && longer[4..] == text[4..] + more && longer[0] == 't';
  }

  lemma FalseExtends(text: string, more: string)
    requires "false" <= text
    ensures Extends(ParseValue(text), ParseValue(text + more), more)
  {
    hide ParseText, ParseItems, ParseMembers, Span;
    var longer := text + more;
    assert "false" <= longer && longer[5..] == text[5..] + more && longer[0] == 'f';
  }

  lemma WordExtends(text: string, more: string)
    requires "null" <= text || "true" <= text || "false" <= text
    ensures Extends(ParseValue(text), ParseValue(text + more), more)
  {
    hide ParseValue, Extends;
    if "null" <= text {
      NullExtends(text, more);
    } else if "true" <= text {
      TrueExtends(text, more);
    } else {
      FalseExtends(text, more);
    }
  }

  lemma ParseDigits(text: string)
    requires Span(text) > 0
    ensures ParseValue(text) == Done(Number(text[..Span(text)]), text[Span(text)..])
  {
    SpanOpens(text);
    hide ParseText, ParseItems, ParseMembers, Span;
  }

  lemma NumberExtends(text: string, more: string)
    requires 0 < Span(text) < |text|
    ensures Extends(ParseValue(text), ParseValue(text + more), more)
  {
    hide ParseValue, Span;
    SpanExtends(text, more);
    ParseDigits(text);
    ParseDigits(text + more);
    var longer, n := text + more, Span(text);
    assert longer[..n] == text[..n] && longer[n..] == text[n..] + more;
  }

  lemma ScalarExtends(text: string, more: string)
    requires text != "" && text[0] != '\"' && text[0] != '[' && text[0] != '{'
    requires ParseValue(text).Done? ==> ParseValue(text).rest != "" || !ParseValue(text).value.Number?
    ensures Extends(ParseValue(text), ParseValue(text + more), more)
  {
    hide ParseText, ParseItems, ParseMembers, Span, NumberChar;
    if "null" <= text || "true" <= text || "false" <= text {
      WordExtends(text, more);
    } else if 0 < Span(text) < |text| {
      NumberExtends(text, more);
    }
  }

  lemma SpanOpens(text: string)
    requires Span(text) > 0
    ensures NumberChar(text[0])
  {
  }

  // a value in brackets or braces, by what stands inside

  lemma InBrackets(text: string)
    requires |text| > 1 && text[0] == '[' && text[1] != ']'
    ensures ParseValue(text) ==
            var p := ParseItems(text[1..]); if p.Fail? then Fail else Done(List(p.value), p.rest)
  {
    hide ParseText, ParseItems, ParseMembers, Span;
  }

  lemma InBraces(text: string)
    requires |text| > 1 && text[0] == '{' && text[1] != '}'
    ensures ParseValue(text) ==
            var p := ParseMembers(text[1..]); if p.Fail? then Fail else Done(Object(p.value), p.rest)
  {
    hide ParseText, ParseItems, ParseMembers, Span;
  }

  lemma EmptyExtends(text: string, more: string)
    requires |text| > 1 && ((text[0] == '[' && text[1] == ']') || (text[0] == '{' && text[1] == '}'))
    ensures Extends(ParseValue(text), ParseValue(text + more), more)
  {
    hide ParseText, ParseItems, ParseMembers, Span;
    assert (text + more)[2..] == text[2..] + more;
  }

  lemma OpenFails(text: string)
    requires text == "[" || text == "{"
    ensures ParseValue(text).Fail?
  {
    NothingParses();
    assert text[1..] == "";
    hide ParseText, ParseItems, ParseMembers, Span;
  }

  lemma {:induction false} ListExtends(text: string, more: string)
    requires text != "" && text[0] == '['
    ensures Extends(ParseValue(text), ParseValue(text + more), more)
    decreases |text|, 0
  {
    hide ParseValue, ParseItems;
    if |text| == 1 {
      OpenFails(text);
    } else if text[1] == ']' {
      EmptyExtends(text, more);
    } else {
      ItemsExtend(text[1..], more);
      InBrackets(text);
      InBrackets(text + more);
      assert (text + more)[1..] == text[1..] + more;
    }
  }

  lemma {:induction false} ObjectExtends(text: string, more: string)
    requires text != "" && text[0] == '{'
    ensures Extends(ParseValue(text), ParseValue(text + more), more)
    decreases |text|, 0
  {
    hide ParseValue, ParseMembers;
    if |text| == 1 {
      OpenFails(text);
    } else if text[1] == '}' {
      EmptyExtends(text, more);
    } else {
      MembersExtend(text[1..], more);
      InBraces(text);
      InBraces(text + more);
      assert (text + more)[1..] == text[1..] + more;
    }
  }

  lemma NothingParses()
    ensures ParseItems("").Fail? && ParseMembers("").Fail?
  {
  }

  lemma {:induction false} ItemsExtend(text: string, more: string)
    ensures Extends(ParseItems(text), ParseItems(text + more), more)
    decreases |text|, 2
  {
    hide ParseValue;
    var first := ParseValue(text);
    if ParseItems(text).Done? {
      ValueExtends(text, more);
      assert (first.rest + more)[1..] == first.rest[1..] + more;
      if first.rest[0] == ',' {
        ItemsExtend(first.rest[1..], more);
      }
    }
  }

  lemma {:induction false} MembersExtend(text: string, more: string)
    ensures Extends(ParseMembers(text), ParseMembers(text + more), more)
    decreases |text|, 2
  {
    hide ParseValue, ParseText;
    if ParseMembers(text).Done? {
      var key := ParseText(text[1..]);
      var first := ParseValue(key.rest[1..]);
      TextExtends(text[1..], more);
      assert (text + more)[1..] == text[1..] + more;
      ValueExtends(key.rest[1..], more);
      assert (key.rest + more)[1..] == key.rest[1..] + more;
      assert (first.rest + more)[1..] == first.rest[1..] + more;
      if first.rest[0] == ',' {
        MembersExtend(first.rest[1..], more);
      }
    }
  }

  lemma ObjectParses(text: string)
    requires text != "" && text[0] == '{' && ParseValue(text).Done?
    ensures ParseValue(text).value.Object?
  {
    hide ParseText, ParseItems, ParseMembers, Span;
  }

  /** A printed object cut short is refused, wherever it is cut. */
  lemma PrefixRefused(j: Json, n: nat)
    requires j.Object? && Literals(j) && 0 < n < |Print(j)|
    ensures Loads(Print(j)[..n]) == DecodeError
  {
    hide Print, ParseValue, Literals;
    var cut, more := Print(j)[..n], Print(j)[n..];
    PrintOpens(j);
    ValueBack(j, "");
    assert Print(j) + "" == Print(j) && cut + more == Print(j);
    if ParseValue(cut).Done? {
      ObjectParses(cut);
      assert |ParseValue(cut).rest + more| > 0;
      ValueExtends(cut, more);
    }
  }
}
