/** The line separators that JSON leaves unescaped, in values and in their printed text. */
module Separators {
  import opened Canonical
  import opened Documents
  import opened Strings

  predicate Exotic(c: char) { c as int == 0x85 || c as int == 0x2028 || c as int == 0x2029 }

  predicate PlainText(s: string) { forall i :: 0 <= i < |s| ==> !Exotic(s[i]) }

  /** No string or key holds one of the line separators JSON does not escape. */
  predicate Clean(j: Json) {
    match j
    case Number(literal) => true
    case Text(s) => PlainText(s)
    case List(items) => forall i :: 0 <= i < |items| ==> Clean(items[i])
    case Object(fields) => forall k :: k in fields ==> PlainText(k) && Clean(fields[k])
    case _ => true
  }

  /** Nothing below a space, and nothing exotic where the value is clean. */
  predicate Fine(text: string, strict: bool) {
    forall i :: 0 <= i < |text| ==> text[i] >= ' ' && (strict ==> !Exotic(text[i]))
  }

  lemma FineConcat(a: string, b: string, strict: bool)
    requires Fine(a, strict) && Fine(b, strict)
    ensures Fine(a + b, strict)
  {
  }

  lemma {:induction false} EscapeFine(s: string, strict: bool)
    requires strict ==> PlainText(s)
    ensures Fine(Escape(s), strict)
  {
    if s != "" {
      EscapeFine(s[1..], strict);
      EscapeCharFine(s[0], strict);
      FineConcat(EscapeChar(s[0]), Escape(s[1..]), strict);
      hide EscapeChar, Fine;
    }
  }

  lemma EscapeCharFine(c: char, strict: bool)
    requires strict ==> !Exotic(c)
    ensures Fine(EscapeChar(c), strict)
  {
    if c < ' ' {
      assert HexDigit(c as int / 16) >= '0' && HexDigit(c as int % 16) >= '0';
    }
  }

  lemma QuoteFine(s: string, strict: bool)
    requires strict ==> PlainText(s)
    ensures Fine(Quote(s), strict)
  {
    EscapeFine(s, strict);
    FineConcat("\"", Escape(s), strict);
    FineConcat("\"" + Escape(s), "\"", strict);
  }

  lemma EnclosedFine(inner: string, strict: bool)
    requires Fine(inner, strict)
    ensures Fine("[" + inner + "]", strict) && Fine("{" + inner + "}", strict)
  {
  }

  lemma ScalarFine(j: Json, strict: bool)
    requires Literals(j) && !j.Text? && !j.List? && !j.Object?
    ensures Fine(Print(j), strict)
  {
    hide PrintItems, PrintMembers, Quote, SortedKeys;
    match j
    case Number(literal) => assert forall i :: 0 <= i < |literal| ==> NumberChar(literal[i]);
    case _ =>
  }

  lemma {:induction false} PrintFine(j: Json, strict: bool)
    requires Literals(j) && (strict ==> Clean(j))
    ensures Fine(Print(j), strict)
    decreases j, 1, 0
  {
    hide Fine, PrintItems, PrintMembers, Quote, SortedKeys;
    match j
    case Text(s) => QuoteFine(s, strict);
    case List(items) =>
      PrintList(j);
      ItemsFine(j, 0, strict);
      EnclosedFine(PrintItems(j, 0), strict);
    case Object(fields) =>
      PrintObject(j);
      MembersFine(j, SortedKeys(fields.Keys), strict);
      EnclosedFine(PrintMembers(j, SortedKeys(fields.Keys)), strict);
    case _ => ScalarFine(j, strict);
  }

  lemma {:induction false} ItemsFine(j: Json, k: nat, strict: bool)
    requires j.List? && k <= |j.items| && Literals(j) && (strict ==> Clean(j))
    ensures Fine(PrintItems(j, k), strict)
    decreases j, 0, |j.items| - k
  {
    hide Print, Fine;
    if k < |j.items| {
      ItemsStep(j, k);
      PrintFine(j.items[k], strict);
      if k < |j.items| - 1 {
        ItemsFine(j, k + 1, strict);
        CommaFine(strict);
        FineConcat(",", PrintItems(j, k + 1), strict);
        FineConcat(Print(j.items[k]), "," + PrintItems(j, k + 1), strict);
      } else {
        assert Print(j.items[k]) + "" == Print(j.items[k]);
      }
    } else {
      CommaFine(strict);
    }
  }

  lemma CommaFine(strict: bool)
    ensures Fine("", strict) && Fine(",", strict) && Fine(":", strict)
  {
  }

  lemma {:induction false} MembersFine(j: Json, keys: seq<string>, strict: bool)
    requires j.Object? && Literals(j) && (strict ==> Clean(j)) && forall i :: 0 <= i < |keys| ==> keys[i] in j.fields
    ensures Fine(PrintMembers(j, keys), strict)
    decreases j, 0, |keys|
  {
    hide Print, Fine, Quote;
    CommaFine(strict);
    if keys != [] {
      var key, value := keys[0], j.fields[keys[0]];
      MembersStep(j, keys);
      PrintFine(value, strict);
      QuoteFine(key, strict);
      FineConcat(Quote(key), ":", strict);
      FineConcat(Quote(key) + ":", Print(value), strict);
      if |keys| > 1 {
        MembersFine(j, keys[1..], strict);
        FineConcat(",", PrintMembers(j, keys[1..]), strict);
        FineConcat(Quote(key) + ":" + Print(value), "," + PrintMembers(j, keys[1..]), strict);
      } else {
        assert Quote(key) + ":" + Print(value) + "" == Quote(key) + ":" + Print(value);
      }
    }
  }

  // ---------------------------------------------------------------------------------------
  // Every separator shows
  // ---------------------------------------------------------------------------------------

  lemma FineParts(a: string, b: string)
    requires Fine(a + b, true)
    ensures Fine(a, true) && Fine(b, true)
  {
    assert forall i :: 0 <= i < |a| ==> (a + b)[i] == a[i];
    assert forall i :: 0 <= i < |b| ==> (a + b)[|a| + i] == b[i];
  }

  lemma {:induction false} EscapeShows(s: string)
    requires Fine(Escape(s), true)
    ensures PlainText(s)
  {
    if s != "" {
      FineParts(EscapeChar(s[0]), Escape(s[1..]));
      EscapeShows(s[1..]);
      ShownAsItself(s[0]);
      assert s == [s[0]] + s[1..];
      hide EscapeChar;
    }
  }

  lemma ShownAsItself(c: char)
    ensures Exotic(c) ==> EscapeChar(c) == [c]
  {
  }

  lemma QuoteShows(s: string)
    requires Fine(Quote(s), true)
    ensures PlainText(s)
  {
    FineParts("\"" + Escape(s), "\"");
    FineParts("\"", Escape(s));
    EscapeShows(s);
  }

  /** A value prints without a separator only if none of its strings and keys holds one. */
  lemma {:induction false} PrintShows(j: Json)
    requires Fine(Print(j), true)
    ensures Clean(j)
    decreases j, 1, 0
  {
    match j
    case Null =>
    case Bool(_) =>
    case Number(_) =>
    case Text(s) => QuoteShows(s);
    case List(items) =>
      FineParts("[" + PrintItems(j, 0), "]");
      FineParts("[", PrintItems(j, 0));
      ItemsShow(j, 0);
    case Object(fields) =>
      PrintObject(j);
      var keys := SortedKeys(fields.Keys);
      FineParts("{" + PrintMembers(j, keys), "}");
      FineParts("{", PrintMembers(j, keys));
      MembersShow(j, keys);
      AllKeysClean(fields, keys);
  }

  lemma AllKeysClean(fields: map<string, Json>, keys: seq<string>)
    requires keys == SortedKeys(fields.Keys)
    requires forall i :: 0 <= i < |keys| ==> keys[i] in fields && PlainText(keys[i]) && Clean(fields[keys[i]])
    ensures Clean(Object(fields))
  {
    forall k | k in fields ensures PlainText(k) && Clean(fields[k]) {
      assert k in keys;
    }
  }

  lemma {:induction false} ItemsShow(j: Json, k: nat)
    requires j.List? && k <= |j.items| && Fine(PrintItems(j, k), true)
    ensures forall i :: k <= i < |j.items| ==> Clean(j.items[i])
    decreases j, 0, |j.items| - k
  {
    hide Print, Fine;
    if k < |j.items| {
      ItemsStep(j, k);
      if k < |j.items| - 1 {
        FineParts(Print(j.items[k]), "," + PrintItems(j, k + 1));
        FineParts(",", PrintItems(j, k + 1));
        ItemsShow(j, k + 1);
      } else {
        assert Print(j.items[k]) + "" == Print(j.items[k]);
      }
      PrintShows(j.items[k]);
    }
  }

  lemma {:induction false} MembersShow(j: Json, keys: seq<string>)
    requires j.Object? && (forall i :: 0 <= i < |keys| ==> keys[i] in j.fields) && Fine(PrintMembers(j, keys), true)
    ensures forall i :: 0 <= i < |keys| ==> PlainText(keys[i]) && Clean(j.fields[keys[i]])
    decreases j, 0, |keys|
  {
    hide Print, Fine, Quote, PlainText;
    if keys != [] {
      var key, value := keys[0], j.fields[keys[0]];
      var pair := Quote(key) + ":" + Print(value);
      MembersStep(j, keys);
      if |keys| > 1 {
        FineParts(pair, "," + PrintMembers(j, keys[1..]));
        FineParts(",", PrintMembers(j, keys[1..]));
        MembersShow(j, keys[1..]);
        assert keys == [keys[0]] + keys[1..];
      } else {
        assert pair + "" == pair;
      }
      FineParts(Quote(key) + ":", Print(value));
      FineParts(Quote(key), ":");
      QuoteShows(key);
      PrintShows(value);
    }
  }
}
