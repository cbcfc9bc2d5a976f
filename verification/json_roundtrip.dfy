/**
 * What the JSON writer and reader promise each other: reading back what was written gives
 * the same mappings, provided no string contains a character the writer leaves unescaped
 * and the reader treats as structure.
 */
module JsonRoundTrip {
  import opened Wrappers
  import opened Text
  import opened Models
  import opened JsonConfig

  // ---------------------------------------------------------------------------------------
  // The field scanners on text built from quoted words
  // ---------------------------------------------------------------------------------------

  /** A field name of the reader: a lower-case letter first and no quote anywhere. */
  predicate FieldName(name: string) {
    |name| > 0 && 'a' <= name[0] <= 'z' && Avoids(name, {'"'})
  }

  /** The scan passes over text with no quote in it: no match can start there. */
  lemma {:induction false} FindSkipsQuoteFree(shape: ValueShape, name: string, u: string, v: string)
    requires Avoids(u, {'"'})
    ensures FindField(shape, name, u + v) == FindField(shape, name, v)
    decreases |u|
  {
    if |u| == 0 {
      assert u + v == v;
    } else {
      var s := u + v;
      assert s[0] == u[0];
      assert MatchFieldAt(shape, name, s).None?;
      assert s[1..] == u[1..] + v;
      FindSkipsQuoteFree(shape, name, u[1..], v);
    }
  }

  /** No match starts at a quote followed by a character the name does not start with. */
  lemma NoMatchBeforeForeign(shape: ValueShape, name: string, x: string)
    requires FieldName(name)
    requires |x| > 0 && x[0] != name[0]
    ensures FindField(shape, name, "\"" + x) == FindField(shape, name, x)
  {
    var s := "\"" + x;
    if |s| >= |name| + 2 {
      assert s[1..|name| + 1][0] == x[0];
    }
    assert MatchFieldAt(shape, name, s).None?;
    assert s[1..] == x;
  }

  /** `"\s*:` is not what follows. */
  predicate NoColonNext(x: string) {
    var r := SkipRegexSpaces(x);
    |r| == 0 || r[0] != ':'
  }

  /** No match starts where the quoted name is not spelled out. */
  lemma NoMatchWithoutName(shape: ValueShape, name: string, s: string)
    requires |s| >= |name| + 2 ==> s[1..|name| + 1] != name || s[|name| + 1] != '"'
    ensures MatchFieldAt(shape, name, s).None?
  {
  }

  /** No match starts at a quoted name that no colon follows. */
  lemma NoMatchWithoutColon(shape: ValueShape, name: string, s: string, x: string)
    requires |s| >= |name| + 2 && s[|name| + 2..] == x && NoColonNext(x)
    ensures MatchFieldAt(shape, name, s).None?
  {
  }

  /**
   * No match starts at the opening quote of a quoted word unless the word is the field name
   * and a colon follows its closing quote.
   */
  lemma NoMatchAtQuotedWord(shape: ValueShape, name: string, w: string, x: string)
    requires Avoids(name, {'"'}) && Avoids(w, {'"'})
    requires w != name || NoColonNext(x)
    ensures MatchFieldAt(shape, name, "\"" + w + "\"" + x).None?
  {
    var s := "\"" + w + "\"" + x;
    var n := |name|;
    if |s| < n + 2 {
      NoMatchWithoutName(shape, name, s);
    } else if |w| < n {
      assert s[1..n + 1][|w|] == s[|w| + 1] == '"';
      assert name[|w|] != '"';
      NoMatchWithoutName(shape, name, s);
    } else if |w| > n {
      assert s[n + 1] == w[n] != '"';
      NoMatchWithoutName(shape, name, s);
    } else if w != name {
      assert s[1..n + 1] == w;
      NoMatchWithoutName(shape, name, s);
    } else {
      assert s[n + 2..] == x;
      NoMatchWithoutColon(shape, name, s, x);
    }
  }

  /** Passing over one quoted word that is not a field of this name. */
  lemma FindSkipsQuotedWord(shape: ValueShape, name: string, w: string, x: string)
    requires FieldName(name) && Avoids(w, {'"'})
    requires w != name || NoColonNext(x)
    ensures FindField(shape, name, "\"" + w + "\"" + x) == FindField(shape, name, "\"" + x)
  {
    var s := "\"" + w + "\"" + x;
    NoMatchAtQuotedWord(shape, name, w, x);
    assert s[1..] == w + ("\"" + x);
    FindSkipsQuoteFree(shape, name, w, "\"" + x);
  }

  /** A written list of two or more items, as its first quoted item and what follows. */
  lemma JoinQuotedFirst(items: seq<string>, v: string)
    requires |items| > 1
    ensures JoinQuoted(items) + v == "\"" + items[0] + "\"" + (", " + (JoinQuoted(items[1..]) + v))
  {
  }

  /** Passing over one quoted item and the `, ` after it. */
  lemma FindSkipsListItem(shape: ValueShape, name: string, item: string, v: string)
    requires FieldName(name) && Avoids(item, {'"'})
    ensures FindField(shape, name, "\"" + item + "\"" + (", " + v)) == FindField(shape, name, v)
  {
    var x := ", " + v;
    assert x[0] == ',';
    RegexSpaceRunNone(x);
    assert NoColonNext(x);
    FindSkipsQuotedWord(shape, name, item, x);
    assert x[0] != name[0];
    NoMatchBeforeForeign(shape, name, x);
    assert Avoids(", ", {'"'});
    FindSkipsQuoteFree(shape, name, ", ", v);
  }

  /** Passing over a written string list `"a", "b", …` that a `]` closes. */
  lemma {:induction false} FindSkipsQuotedList(shape: ValueShape, name: string, items: seq<string>, v: string)
    requires FieldName(name)
    requires forall k :: 0 <= k < |items| ==> Avoids(items[k], {'"'})
    requires |v| > 0 && v[0] == ']'
    ensures FindField(shape, name, JoinQuoted(items) + v) == FindField(shape, name, v)
    decreases |items|
  {
    if |items| == 0 {
      assert JoinQuoted(items) + v == v;
    } else if |items| == 1 {
      assert JoinQuoted(items) + v == "\"" + items[0] + "\"" + v;
      assert SkipRegexSpaces(v) == v;
      FindSkipsQuotedWord(shape, name, items[0], v);
      NoMatchBeforeForeign(shape, name, v);
    } else {
      JoinQuotedFirst(items, v);
      FindSkipsListItem(shape, name, items[0], JoinQuoted(items[1..]) + v);
      FindSkipsQuotedList(shape, name, items[1..], v);
    }
  }

  /** Passing over a whole `"field": "value"` entry of another name, up to the comma after it. */
  lemma FindSkipsStringEntry(shape: ValueShape, name: string, field: string, value: string, rest: string)
    requires FieldName(name) && FieldName(field) && field != name
    requires Avoids(value, {'"'})
    requires |rest| > 0 && rest[0] == ','
    ensures FindField(shape, name, "\"" + field + "\"" + ": \"" + value + "\"" + rest)
            == FindField(shape, name, rest)
  {
    var tail := "\"" + value + "\"" + rest;
    var x := ": " + tail;
    assert "\"" + field + "\"" + ": \"" + value + "\"" + rest == "\"" + field + "\"" + x;
    FindSkipsQuotedWord(shape, name, field, x);
    NoMatchBeforeForeign(shape, name, x);
    FindSkipsQuoteFree(shape, name, ": ", tail);
    assert SkipRegexSpaces(rest) == rest;
    FindSkipsQuotedWord(shape, name, value, rest);
    NoMatchBeforeForeign(shape, name, rest);
  }

  /** Passing over a whole `"field": [list]` entry of another name, up to the comma after it. */
  lemma FindSkipsListEntry(shape: ValueShape, name: string, field: string, items: seq<string>, rest: string)
    requires FieldName(name) && FieldName(field) && field != name
    requires forall k :: 0 <= k < |items| ==> Avoids(items[k], {'"'})
    requires |rest| > 0 && rest[0] == ','
    ensures FindField(shape, name, "\"" + field + "\"" + ": [" + JoinQuoted(items) + "]" + rest)
            == FindField(shape, name, rest)
  {
    var x := ": [" + (JoinQuoted(items) + ("]" + rest));
    assert "\"" + field + "\"" + ": [" + JoinQuoted(items) + "]" + rest == "\"" + field + "\"" + x;
    FindSkipsQuotedWord(shape, name, field, x);
    NoMatchBeforeForeign(shape, name, x);
    FindSkipsQuoteFree(shape, name, ": [", JoinQuoted(items) + ("]" + rest));
    FindSkipsQuotedList(shape, name, items, "]" + rest);
    FindSkipsQuoteFree(shape, name, "]", rest);
  }

  /** After a written `"name": ` the field pattern matches what the value pattern matches. */
  lemma MatchAfterColon(shape: ValueShape, name: string, v: string)
    requires Avoids(name, {'"'})
    requires |v| > 0 && !IsRegexSpace(v[0])
    ensures MatchFieldAt(shape, name, "\"" + name + "\"" + (": " + v)) == MatchValue(shape, v)
  {
    var s := "\"" + name + "\"" + (": " + v);
    var n := |name|;
    assert s[1..n + 1] == name;
    assert s[n + 2..] == ": " + v;
    RegexSpaceRunNone(s[n + 2..]);
    assert (": " + v)[1..] == " " + v;
    assert RegexSpaceRun(" " + v) == 1 by {
      assert (" " + v)[1..] == v;
    }
  }

  /** The string pattern matches a written `"name": "value"` entry and captures the value. */
  lemma MatchesStringEntry(name: string, value: string, rest: string)
    requires Avoids(name, {'"'}) && Avoids(value, {'"'})
    ensures MatchFieldAt(QuotedString, name, "\"" + name + "\"" + ": \"" + value + "\"" + rest)
            == Some(value)
  {
    var v := "\"" + value + "\"" + rest;
    assert "\"" + name + "\"" + ": \"" + value + "\"" + rest == "\"" + name + "\"" + (": " + v);
    MatchAfterColon(QuotedString, name, v);
    QuotedValue(value, rest);
  }

  /** The quoted-string value pattern captures a quoted word. */
  lemma QuotedValue(value: string, rest: string)
    requires Avoids(value, {'"'})
    ensures MatchValue(QuotedString, "\"" + value + "\"" + rest) == Some(value)
  {
    var v := "\"" + value + "\"" + rest;
    assert v[|value| + 1] == '"';
    assert forall k :: 1 <= k < |value| + 1 ==> v[k] == value[k - 1];
    assert IndexOfChar(v, '"', 1) == Some(|value| + 1);
    assert v[1..|value| + 1] == value;
  }

  /** The array pattern matches a written `"name": [inner]` entry and captures `inner`. */
  lemma MatchesListEntry(name: string, inner: string, rest: string)
    requires Avoids(name, {'"'}) && Avoids(inner, {']'})
    ensures MatchFieldAt(BracketArray, name, "\"" + name + "\"" + ": [" + inner + "]" + rest)
            == Some(inner)
  {
    var v := "[" + inner + "]" + rest;
    assert "\"" + name + "\"" + ": [" + inner + "]" + rest == "\"" + name + "\"" + (": " + v);
    MatchAfterColon(BracketArray, name, v);
    BracketValue(inner, rest);
  }

  /** The array value pattern captures the text between a `[` and the first `]`. */
  lemma BracketValue(inner: string, rest: string)
    requires Avoids(inner, {']'})
    ensures MatchValue(BracketArray, "[" + inner + "]" + rest) == Some(inner)
  {
    var v := "[" + inner + "]" + rest;
    assert v[|inner| + 1] == ']';
    assert forall k :: 1 <= k < |inner| + 1 ==> v[k] == inner[k - 1];
    assert IndexOfChar(v, ']', 1) == Some(|inner| + 1);
    assert v[1..|inner| + 1] == inner;
  }

  /** The boolean pattern matches a written `"name": true|false` entry. */
  lemma MatchesBooleanEntry(name: string, b: bool, rest: string)
    requires Avoids(name, {'"'})
    ensures MatchFieldAt(BooleanLiteral, name, "\"" + name + "\"" + ": " + BoolText(b) + rest)
            == Some(BoolText(b))
  {
    var v := BoolText(b) + rest;
    assert "\"" + name + "\"" + ": " + BoolText(b) + rest == "\"" + name + "\"" + (": " + v);
    MatchAfterColon(BooleanLiteral, name, v);
    BooleanValue(b, rest);
  }

  /** The boolean value pattern captures a written flag. */
  lemma BooleanValue(b: bool, rest: string)
    ensures MatchValue(BooleanLiteral, BoolText(b) + rest) == Some(BoolText(b))
  {
    var v := BoolText(b) + rest;
    if b {
      assert v[..4] == "true";
    } else {
      assert v[..4] == "fals" && v[3] != "true"[3];
      assert v[..5] == "false";
    }
  }

  // ---------------------------------------------------------------------------------------
  // One written object read back
  // ---------------------------------------------------------------------------------------

  /** The characters the writer does not escape and the reader takes as structure. */
  const Reserved: set<char> := {'"', ',', '[', ']', '{', '}'}

  /** A candidate or file type that survives the trip: non-empty, with no reserved character. */
  predicate PortableText(s: string) {
    |s| > 0 && Avoids(s, Reserved)
  }

  /**
   * A mapping the writer and reader agree on: the key is no quote or brace, every candidate
   * and file type is portable, and the file-type list is non-empty (the reader turns an
   * empty one into `["*"]`).
   */
  predicate Portable(m: SmartChrMapping) {
    && m.key !in {'"', '{', '}'}
    && (forall k :: 0 <= k < |m.candidates| ==> PortableText(m.candidates[k]))
    && |m.fileTypes| > 0
    && (forall k :: 0 <= k < |m.fileTypes| ==> PortableText(m.fileTypes[k]))
  }

  /** Regrouping `a + b + c + d` as `a + (b + (c + d))`. */
  lemma Regroup(a: string, b: string, c: string, d: string)
    ensures a + b + c + d == a + (b + (c + d))
  {
  }

  /** A string line: its indent, its entry, and the line break with the comma before it. */
  lemma StringLineParts(field: string, value: string)
    ensures StringLine(field, value) == "      " + ("\"" + field + "\"" + ": \"" + value + "\"") + ",\n"
  {
  }

  /** A list line: its indent, its entry, and the line break with the comma before it. */
  lemma ListLineParts(field: string, items: seq<string>)
    ensures ListLine(field, items) == "      " + ("\"" + field + "\"" + ": [" + JoinQuoted(items) + "]") + ",\n"
  {
  }

  /** The enabled line: its indent, its entry, and the closing line. */
  lemma EnabledLinesParts(enabled: bool)
    ensures EnabledLines(enabled) == "      " + ("\"" + "enabled" + "\"" + ": " + BoolText(enabled)) + "\n" + "    }"
  {
  }

  /** Passing over a `"field": "value",` line of another name. */
  lemma FindSkipsStringLine(shape: ValueShape, name: string, field: string, value: string, rest: string)
    requires FieldName(name) && FieldName(field) && field != name
    requires Avoids(value, {'"'})
    ensures FindField(shape, name, StringLine(field, value) + rest) == FindField(shape, name, rest)
  {
    var entry := "\"" + field + "\"" + ": \"" + value + "\"";
    var tail := ",\n" + rest;
    StringLineParts(field, value);
    Regroup("      ", entry, ",\n", rest);
    assert StringLine(field, value) + rest == "      " + (entry + tail);
    calc {
      FindField(shape, name, StringLine(field, value) + rest);
      { FindSkipsQuoteFree(shape, name, "      ", entry + tail); }
      FindField(shape, name, entry + tail);
      { FindSkipsStringEntry(shape, name, field, value, tail); }
      FindField(shape, name, tail);
      { FindSkipsQuoteFree(shape, name, ",\n", rest); }
      FindField(shape, name, rest);
    }
  }

  /** Passing over a `"field": [items],` line of another name. */
  lemma FindSkipsListLine(shape: ValueShape, name: string, field: string, items: seq<string>, rest: string)
    requires FieldName(name) && FieldName(field) && field != name
    requires forall k :: 0 <= k < |items| ==> Avoids(items[k], {'"'})
    ensures FindField(shape, name, ListLine(field, items) + rest) == FindField(shape, name, rest)
  {
    var entry := "\"" + field + "\"" + ": [" + JoinQuoted(items) + "]";
    var tail := ",\n" + rest;
    ListLineParts(field, items);
    Regroup("      ", entry, ",\n", rest);
    assert ListLine(field, items) + rest == "      " + (entry + tail);
    calc {
      FindField(shape, name, ListLine(field, items) + rest);
      { FindSkipsQuoteFree(shape, name, "      ", entry + tail); }
      FindField(shape, name, entry + tail);
      { FindSkipsListEntry(shape, name, field, items, tail); }
      FindField(shape, name, tail);
      { FindSkipsQuoteFree(shape, name, ",\n", rest); }
      FindField(shape, name, rest);
    }
  }

  /** The scan finds a match that starts right at the beginning. */
  lemma FindsAtStart(shape: ValueShape, name: string, s: string)
    requires MatchFieldAt(shape, name, s).Some?
    ensures FindField(shape, name, s) == MatchFieldAt(shape, name, s)
  {
  }

  /** The string pattern finds the value written on a `"field": "value",` line. */
  lemma FindsStringLine(field: string, value: string, rest: string)
    requires Avoids(field, {'"'}) && Avoids(value, {'"'})
    ensures FindField(QuotedString, field, StringLine(field, value) + rest) == Some(value)
  {
    var entry := "\"" + field + "\"" + ": \"" + value + "\"";
    StringLineParts(field, value);
    Regroup("      ", entry, ",\n", rest);
    calc {
      FindField(QuotedString, field, StringLine(field, value) + rest);
      { FindSkipsQuoteFree(QuotedString, field, "      ", entry + (",\n" + rest)); }
      FindField(QuotedString, field, entry + (",\n" + rest));
      { MatchesStringEntry(field, value, ",\n" + rest);
        FindsAtStart(QuotedString, field, entry + (",\n" + rest)); }
      Some(value);
    }
  }

  /** The array pattern finds the list text written on a `"field": [items],` line. */
  lemma FindsListLine(field: string, items: seq<string>, rest: string)
    requires Avoids(field, {'"'}) && Avoids(JoinQuoted(items), {']'})
    ensures FindField(BracketArray, field, ListLine(field, items) + rest) == Some(JoinQuoted(items))
  {
    var entry := "\"" + field + "\"" + ": [" + JoinQuoted(items) + "]";
    ListLineParts(field, items);
    Regroup("      ", entry, ",\n", rest);
    calc {
      FindField(BracketArray, field, ListLine(field, items) + rest);
      { FindSkipsQuoteFree(BracketArray, field, "      ", entry + (",\n" + rest)); }
      FindField(BracketArray, field, entry + (",\n" + rest));
      { MatchesListEntry(field, JoinQuoted(items), ",\n" + rest);
        FindsAtStart(BracketArray, field, entry + (",\n" + rest)); }
      Some(JoinQuoted(items));
    }
  }

  /** The boolean pattern finds the flag written on the `"enabled"` line. */
  lemma FindsEnabledLines(enabled: bool)
    ensures FindField(BooleanLiteral, "enabled", EnabledLines(enabled)) == Some(BoolText(enabled))
  {
    var entry := "\"" + "enabled" + "\"" + ": " + BoolText(enabled);
    var tail := "\n" + "    }";
    EnabledLinesParts(enabled);
    Regroup("      ", entry, "\n", "    }");
    assert EnabledLines(enabled) == "      " + (entry + tail);
    calc {
      FindField(BooleanLiteral, "enabled", EnabledLines(enabled));
      { FindSkipsQuoteFree(BooleanLiteral, "enabled", "      ", entry + tail); }
      FindField(BooleanLiteral, "enabled", entry + tail);
      { MatchesBooleanEntry("enabled", enabled, tail); }
      Some(BoolText(enabled));
    }
  }

  // ---------------------------------------------------------------------------------------
  // A written string list read back by extractJsonArray
  // ---------------------------------------------------------------------------------------

  /** A non-empty written list starts and ends with a quote. */
  lemma {:induction false} JoinQuotedEnds(items: seq<string>)
    requires |items| > 0
    ensures var j := JoinQuoted(items); |j| >= 2 && j[0] == '"' && j[|j| - 1] == '"'
    decreases |items|
  {
    if |items| > 1 {
      JoinQuotedEnds(items[1..]);
    }
  }

  /** A written list holds no character of `cs` when its items do not and the separators are not in `cs`. */
  lemma {:induction false} JoinQuotedAvoids(items: seq<string>, cs: set<char>)
    requires '"' !in cs && ',' !in cs && ' ' !in cs
    requires forall k :: 0 <= k < |items| ==> Avoids(items[k], cs)
    ensures Avoids(JoinQuoted(items), cs)
    decreases |items|
  {
    if |items| == 1 {
      AvoidsConcat("\"" + items[0], "\"", cs);
      AvoidsConcat("\"", items[0], cs);
    } else if |items| > 1 {
      JoinQuotedAvoids(items[1..], cs);
      AvoidsConcat(Quoted(items[0]) + ", ", JoinQuoted(items[1..]), cs);
      AvoidsConcat(Quoted(items[0]), ", ", cs);
      AvoidsConcat("\"" + items[0], "\"", cs);
      AvoidsConcat("\"", items[0], cs);
    }
  }

  /** One list piece, after optional leading whitespace, trims and unquotes to the item. */
  lemma CleanQuoted(pad: string, item: string)
    requires forall k :: 0 <= k < |pad| ==> IsKotlinWhitespace(pad[k])
    ensures RemoveSurrounding(Trim(pad + Quoted(item)), '"') == item
  {
    assert pad + Quoted(item) == pad + Quoted(item) + "";
    TrimPadded(pad, Quoted(item), "");
    var r := RemoveSurrounding(Quoted(item), '"');
    assert Quoted(item) == ['"'] + r + ['"'];
    assert r == Quoted(item)[1..|Quoted(item)| - 1];
  }

  /** Cutting a written list of two or more items at its first comma. */
  lemma JoinQuotedCut(pad: string, items: seq<string>)
    requires |items| > 1
    ensures pad + JoinQuoted(items) == (pad + Quoted(items[0])) + [','] + (" " + JoinQuoted(items[1..]))
  {
    var first := Quoted(items[0]);
    var rest := JoinQuoted(items[1..]);
    var comma: string := [','];
    var tail := " " + rest;
    assert JoinQuoted(items) == first + ", " + rest;
    assert ", " == comma + " ";
    Assoc3(first, ", ", rest);
    Assoc3(comma, " ", rest);
    assert ", " + rest == comma + tail;
    Assoc3(pad, first, comma + tail);
    Assoc3(pad + first, comma, tail);
  }

  /** Concatenation regroups freely. */
  lemma Assoc3(a: string, b: string, c: string)
    ensures a + b + c == a + (b + c)
  {
  }

  /** Cleaning a list of pieces cleans its first piece and then the rest. */
  lemma CleanItemsFirst(first: string, rest: seq<string>)
    ensures CleanItems([first] + rest) == [RemoveSurrounding(Trim(first), '"')] + CleanItems(rest)
  {
    assert ([first] + rest)[1..] == rest;
  }

  /** The first piece of a written list: padding and one quoted item, with no comma. */
  lemma FirstPieceAvoidsComma(pad: string, item: string)
    requires pad == "" || pad == " "
    requires Avoids(item, {','})
    ensures Avoids(pad + Quoted(item), {','})
  {
    AvoidsConcat("\"", item, {','});
    AvoidsConcat("\"" + item, "\"", {','});
    AvoidsConcat(pad, Quoted(item), {','});
  }

  /** The first piece of a written list, cleaned, is its first item. */
  lemma CleanFirstPiece(pad: string, item: string)
    requires pad == "" || pad == " "
    requires Avoids(item, {',', '"'})
    ensures Avoids(pad + Quoted(item), {','})
    ensures RemoveSurrounding(Trim(pad + Quoted(item)), '"') == item
  {
    assert forall k :: 0 <= k < |pad| ==> IsKotlinWhitespace(pad[k]);
    CleanQuoted(pad, item);
    FirstPieceAvoidsComma(pad, item);
  }

  /** A written list of two or more items splits into its first piece and the split rest. */
  lemma SplitFirstPiece(pad: string, items: seq<string>)
    requires |items| > 1
    requires Avoids(pad + Quoted(items[0]), {','})
    ensures Split(pad + JoinQuoted(items), ',')
            == [pad + Quoted(items[0])] + Split(" " + JoinQuoted(items[1..]), ',')
  {
    JoinQuotedCut(pad, items);
    SplitAt(pad + Quoted(items[0]), ',', " " + JoinQuoted(items[1..]));
  }

  /** A written list of one item splits into one piece, which cleans to the item. */
  lemma CleanSplitOne(pad: string, items: seq<string>)
    requires pad == "" || pad == " "
    requires |items| == 1 && Avoids(items[0], {',', '"'})
    ensures CleanItems(Split(pad + JoinQuoted(items), ',')) == items
  {
    var first := pad + Quoted(items[0]);
    CleanFirstPiece(pad, items[0]);
    SplitAvoiding(first, ',');
    CleanItemsFirst(first, []);
    assert [items[0]] == items;
  }

  /** A written list of two or more items cleans to its first item and the cleaned rest. */
  lemma CleanSplitStep(pad: string, items: seq<string>)
    requires pad == "" || pad == " "
    requires |items| > 1 && Avoids(items[0], {',', '"'})
    requires CleanItems(Split(" " + JoinQuoted(items[1..]), ',')) == items[1..]
    ensures CleanItems(Split(pad + JoinQuoted(items), ',')) == items
  {
    var first := pad + Quoted(items[0]);
    CleanFirstPiece(pad, items[0]);
    SplitFirstPiece(pad, items);
    CleanItemsFirst(first, Split(" " + JoinQuoted(items[1..]), ','));
    HeadTail(items);
  }

  /** Splitting a written list at its commas and cleaning each piece gives the items back. */
  lemma {:induction false} CleanSplitJoinQuoted(pad: string, items: seq<string>)
    requires pad == "" || pad == " "
    requires |items| > 0
    requires forall k :: 0 <= k < |items| ==> Avoids(items[k], {',', '"'})
    ensures CleanItems(Split(pad + JoinQuoted(items), ',')) == items
    decreases |items|
  {
    if |items| == 1 {
      CleanSplitOne(pad, items);
    } else {
      assert forall k :: 0 <= k < |items| - 1 ==> items[1..][k] == items[k + 1];
      CleanSplitJoinQuoted(" ", items[1..]);
      CleanSplitStep(pad, items);
    }
  }

  /** The array text the writer produced for a list of portable items is read back as that list. */
  lemma ListRoundTrip(items: seq<string>)
    requires |items| > 0
    requires forall k :: 0 <= k < |items| ==> PortableText(items[k])
    ensures var content := Trim(JoinQuoted(items));
            |content| > 0 && KeepNonEmpty(CleanItems(Split(content, ','))) == items
  {
    JoinQuotedEnds(items);
    TrimUnpadded(JoinQuoted(items));
    assert forall k :: 0 <= k < |items| ==> Avoids(items[k], {',', '"'});
    assert "" + JoinQuoted(items) == JoinQuoted(items);
    CleanSplitJoinQuoted("", items);
    KeepNonEmptyKeepsAll(items);
  }

  // ---------------------------------------------------------------------------------------
  // One written object read back by parseSingleMapping
  // ---------------------------------------------------------------------------------------

  /** Portable items avoid every subset of the reserved characters. */
  lemma PortableItemsAvoid(items: seq<string>, cs: set<char>)
    requires forall k :: 0 <= k < |items| ==> PortableText(items[k])
    requires cs <= Reserved
    ensures forall k :: 0 <= k < |items| ==> Avoids(items[k], cs)
  {
  }

  /** The written object from its `fileTypes` line on. */
  function FileTypesOnward(m: SmartChrMapping): string {
    ListLine("fileTypes", m.fileTypes) + EnabledLines(m.enabled)
  }

  /** The written object from its `mode` line on. */
  function ModeOnward(m: SmartChrMapping): string {
    StringLine("mode", ModeName(m.mode)) + FileTypesOnward(m)
  }

  /** The written object from its `candidates` line on. */
  function CandidatesOnward(m: SmartChrMapping): string {
    ListLine("candidates", m.candidates) + ModeOnward(m)
  }

  /** The object is its opening line, its key line, and the rest. */
  lemma ObjectTextOnward(m: SmartChrMapping)
    ensures ObjectText(m) == "{\n" + (StringLine("key", [m.key]) + CandidatesOnward(m))
    ensures ObjectText(m) == "{" + "\n" + (StringLine("key", [m.key]) + CandidatesOnward(m))
  {
  }

  /** The scan for any field but `key` passes over the opening brace and the key line. */
  lemma ObjectSkipsToCandidates(shape: ValueShape, name: string, m: SmartChrMapping)
    requires FieldName(name) && name != "key"
    requires m.key != '"'
    ensures FindField(shape, name, ObjectText(m)) == FindField(shape, name, CandidatesOnward(m))
  {
    var keyOnward := StringLine("key", [m.key]) + CandidatesOnward(m);
    ObjectTextOnward(m);
    calc {
      FindField(shape, name, ObjectText(m));
      { FindSkipsQuoteFree(shape, name, "{\n", keyOnward); }
      FindField(shape, name, keyOnward);
      { FindSkipsStringLine(shape, name, "key", [m.key], CandidatesOnward(m)); }
      FindField(shape, name, CandidatesOnward(m));
    }
  }

  /** The scan for `mode`, `fileTypes` or `enabled` also passes over the candidates line. */
  lemma ObjectSkipsToMode(shape: ValueShape, name: string, m: SmartChrMapping)
    requires FieldName(name) && name != "key" && name != "candidates"
    requires Portable(m)
    ensures FindField(shape, name, ObjectText(m)) == FindField(shape, name, ModeOnward(m))
  {
    PortableItemsAvoid(m.candidates, {'"'});
    calc {
      FindField(shape, name, ObjectText(m));
      { ObjectSkipsToCandidates(shape, name, m); }
      FindField(shape, name, CandidatesOnward(m));
      { FindSkipsListLine(shape, name, "candidates", m.candidates, ModeOnward(m)); }
      FindField(shape, name, ModeOnward(m));
    }
  }

  /** The scan for `fileTypes` or `enabled` also passes over the mode line. */
  lemma ObjectSkipsToFileTypes(shape: ValueShape, name: string, m: SmartChrMapping)
    requires FieldName(name) && name != "key" && name != "candidates" && name != "mode"
    requires Portable(m)
    ensures FindField(shape, name, ObjectText(m)) == FindField(shape, name, FileTypesOnward(m))
  {
    calc {
      FindField(shape, name, ObjectText(m));
      { ObjectSkipsToMode(shape, name, m); }
      FindField(shape, name, ModeOnward(m));
      { FindSkipsStringLine(shape, name, "mode", ModeName(m.mode), FileTypesOnward(m)); }
      FindField(shape, name, FileTypesOnward(m));
    }
  }

  /** The key pattern finds the written key. */
  lemma ObjectKey(m: SmartChrMapping)
    requires m.key != '"'
    ensures FindField(QuotedString, "key", ObjectText(m)) == Some([m.key])
  {
    var keyOnward := StringLine("key", [m.key]) + CandidatesOnward(m);
    ObjectTextOnward(m);
    calc {
      FindField(QuotedString, "key", ObjectText(m));
      { FindSkipsQuoteFree(QuotedString, "key", "{\n", keyOnward); }
      FindField(QuotedString, "key", keyOnward);
      { FindsStringLine("key", [m.key], CandidatesOnward(m)); }
      Some([m.key]);
    }
  }

  /** The candidates pattern finds the written candidate list. */
  lemma ObjectCandidates(m: SmartChrMapping)
    requires Portable(m)
    ensures FindField(BracketArray, "candidates", ObjectText(m)) == Some(JoinQuoted(m.candidates))
  {
    PortableItemsAvoid(m.candidates, {']'});
    JoinQuotedAvoids(m.candidates, {']'});
    calc {
      FindField(BracketArray, "candidates", ObjectText(m));
      { ObjectSkipsToCandidates(BracketArray, "candidates", m); }
      FindField(BracketArray, "candidates", CandidatesOnward(m));
      { FindsListLine("candidates", m.candidates, ModeOnward(m)); }
      Some(JoinQuoted(m.candidates));
    }
  }

  /** The mode pattern finds the written mode name. */
  lemma ObjectMode(m: SmartChrMapping)
    requires Portable(m)
    ensures FindField(QuotedString, "mode", ObjectText(m)) == Some(ModeName(m.mode))
  {
    calc {
      FindField(QuotedString, "mode", ObjectText(m));
      { ObjectSkipsToMode(QuotedString, "mode", m); }
      FindField(QuotedString, "mode", ModeOnward(m));
      { FindsStringLine("mode", ModeName(m.mode), FileTypesOnward(m)); }
      Some(ModeName(m.mode));
    }
  }

  /** The file-types pattern finds the written file-type list. */
  lemma ObjectFileTypes(m: SmartChrMapping)
    requires Portable(m)
    ensures FindField(BracketArray, "fileTypes", ObjectText(m)) == Some(JoinQuoted(m.fileTypes))
  {
    PortableItemsAvoid(m.fileTypes, {']'});
    JoinQuotedAvoids(m.fileTypes, {']'});
    calc {
      FindField(BracketArray, "fileTypes", ObjectText(m));
      { ObjectSkipsToFileTypes(BracketArray, "fileTypes", m); }
      FindField(BracketArray, "fileTypes", FileTypesOnward(m));
      { FindsListLine("fileTypes", m.fileTypes, EnabledLines(m.enabled)); }
      Some(JoinQuoted(m.fileTypes));
    }
  }

  /** The boolean pattern finds the written enabled flag. */
  lemma ObjectEnabled(m: SmartChrMapping)
    requires Portable(m)
    ensures FindField(BooleanLiteral, "enabled", ObjectText(m)) == Some(BoolText(m.enabled))
  {
    PortableItemsAvoid(m.fileTypes, {'"'});
    calc {
      FindField(BooleanLiteral, "enabled", ObjectText(m));
      { ObjectSkipsToFileTypes(BooleanLiteral, "enabled", m); }
      FindField(BooleanLiteral, "enabled", FileTypesOnward(m));
      { FindSkipsListLine(BooleanLiteral, "enabled", "fileTypes", m.fileTypes, EnabledLines(m.enabled)); }
      FindField(BooleanLiteral, "enabled", EnabledLines(m.enabled));
      { FindsEnabledLines(m.enabled); }
      Some(BoolText(m.enabled));
    }
  }

  /** A list field whose array text is a written list of portable items reads back as those items. */
  lemma ArrayFieldReads(json: string, name: string, items: seq<string>)
    requires |items| > 0
    requires forall k :: 0 <= k < |items| ==> PortableText(items[k])
    requires FindField(BracketArray, name, json) == Some(JoinQuoted(items))
    ensures ExtractJsonArray(json, name) == items
  {
    ListRoundTrip(items);
  }

  /** An object whose fields are found with a mapping's written values parses to that mapping. */
  lemma ParsesFields(json: string, m: SmartChrMapping)
    requires FindField(QuotedString, "key", json) == Some([m.key])
    requires ExtractJsonArray(json, "candidates") == m.candidates
    requires FindField(QuotedString, "mode", json) == Some(ModeName(m.mode))
    requires ExtractJsonArray(json, "fileTypes") == m.fileTypes && |m.fileTypes| > 0
    requires FindField(BooleanLiteral, "enabled", json) == Some(BoolText(m.enabled))
    ensures ParseSingleMapping(json) == Success(m)
  {
    assert KeyField(json) == m.key;
    assert ModeField(json) == m.mode;
    assert ExtractJsonBoolean(json, "enabled") == m.enabled;
  }

  /** `parseSingleMapping` reads a written portable object back as the mapping it was written from. */
  lemma ObjectRoundTrip(m: SmartChrMapping)
    requires Portable(m)
    ensures ParseSingleMapping(ObjectText(m)) == Success(m)
  {
    var json := ObjectText(m);
    ObjectKey(m);
    ObjectCandidates(m);
    ObjectMode(m);
    ObjectFileTypes(m);
    ObjectEnabled(m);
    ArrayFieldReads(json, "candidates", m.candidates);
    ArrayFieldReads(json, "fileTypes", m.fileTypes);
    ParsesFields(json, m);
  }

  // ---------------------------------------------------------------------------------------
  // The brace-counting splitter over the written objects
  // ---------------------------------------------------------------------------------------

  const Braces: set<char> := {'{', '}'}

  /** Skipping separators in a suffix gives the same position, shifted by the prefix. */
  lemma {:induction false} SkipSeparatorsShift(p: string, q: string, from: nat)
    requires from <= |q|
    ensures SkipSeparators(p + q, |p| + from) == |p| + SkipSeparators(q, from)
    decreases |q| - from
  {
    if from < |q| {
      assert (p + q)[|p| + from] == q[from];
      SkipSeparatorsShift(p, q, from + 1);
    }
  }

  /** The splitter's loop state stays well formed when a prefix is put in front. */
  lemma SplitterStateShift(p: string, q: string, i: nat, start: nat)
    requires SplitterState(q, i, start)
    ensures SplitterState(p + q, |p| + i, |p| + start)
  {
    if start > i {
      forall k | |p| + i <= k < |p| + start
        ensures IsSeparator((p + q)[k])
      {
        assert (p + q)[k] == q[k - |p|];
      }
    }
  }

  /** The splitter run over `p + q` from inside `q` does what it does over `q` alone. */
  lemma {:induction false} SplitObjectsShift(readObject: ObjectReader, p: string, q: string, i: nat, depth: int, start: nat)
    requires SplitterState(q, i, start)
    ensures SplitterState(p + q, |p| + i, |p| + start)
    ensures SplitObjects(p + q, |p| + i, depth, |p| + start, readObject) == SplitObjects(q, i, depth, start, readObject)
    decreases |q| - i, 2
  {
    SplitterStateShift(p, q, i, start);
    if i < |q| {
      var c := p + q;
      assert c[|p| + i] == q[i];
      if q[i] == '}' && depth - 1 == 0 {
        ClosingBraceShift(readObject, p, q, i, start);
      } else if q[i] == '}' {
        SplitObjectsShift(readObject, p, q, i + 1, depth - 1, start);
      } else if q[i] == '{' {
        SplitObjectsShift(readObject, p, q, i + 1, depth + 1, start);
      } else {
        SplitObjectsShift(readObject, p, q, i + 1, depth, start);
      }
    }
  }

  /**
   * At a brace that brings the count back to zero the splitter's result depends only on the
   * trimmed object text and on what it makes of the rest.
   */
  lemma SplitObjectsCloseAlike(readObject: ObjectReader, c: string, j: nat, from: nat, q: string, i: nat, start: nat)
    requires SplitterState(c, j, from) && SplitterState(q, i, start)
    requires j < |c| && c[j] == '}' && i < |q| && q[i] == '}'
    requires from <= j + 1 && start <= i + 1
    requires c[from..j + 1] == q[start..i + 1]
    requires SplitObjects(c, j + 1, 0, SkipSeparators(c, j + 1), readObject)
             == SplitObjects(q, i + 1, 0, SkipSeparators(q, i + 1), readObject)
    ensures SplitObjects(c, j, 1, from, readObject) == SplitObjects(q, i, 1, start, readObject)
  {
  }

  lemma SliceShift(p: string, q: string, a: nat, b: nat)
    requires a <= b <= |q|
    ensures (p + q)[|p| + a..|p| + b] == q[a..b]
  {
  }

  /** After an object closes the splitter's state is well formed at the skipped-to position. */
  lemma SkippedState(q: string, i: nat)
    requires i <= |q|
    ensures SplitterState(q, i, SkipSeparators(q, i))
  {
  }

  /** The rest after a closed object, split over `p + q`, is the rest split over `q`. */
  lemma RestShift(readObject: ObjectReader, p: string, q: string, i: nat, next: nat)
    requires SplitterState(q, i, next)
    requires SkipSeparators(p + q, |p| + i) == |p| + next
    ensures SplitObjects(p + q, |p| + i, 0, SkipSeparators(p + q, |p| + i), readObject) == SplitObjects(q, i, 0, next, readObject)
    decreases |q| - i, 3
  {
    SplitObjectsShift(readObject, p, q, i, 0, next);
  }

  /** The facts about `p + q` at a closing brace that make its step match the step over `q`. */
  lemma {:induction false} ClosingBraceFacts(readObject: ObjectReader, p: string, q: string, i: nat, start: nat)
    requires SplitterState(q, i, start)
    requires i < |q| && q[i] == '}'
    ensures SplitterState(p + q, |p| + i, |p| + start)
    ensures (p + q)[|p| + i] == '}' && |p| + start <= |p| + i + 1
    ensures (p + q)[|p| + start..|p| + i + 1] == q[start..i + 1]
    ensures SplitObjects(p + q, |p| + i + 1, 0, SkipSeparators(p + q, |p| + i + 1), readObject)
            == SplitObjects(q, i + 1, 0, SkipSeparators(q, i + 1), readObject)
    decreases |q| - i, 0
  {
    SplitterStateShift(p, q, i, start);
    assert (p + q)[|p| + i] == q[i];
    SliceShift(p, q, start, i + 1);
    var next := SkipSeparators(q, i + 1);
    SkippedState(q, i + 1);
    SkipSeparatorsShift(p, q, i + 1);
    RestShift(readObject, p, q, i + 1, next);
  }

  /** The step of `SplitObjectsShift` at a brace that closes an object. */
  lemma {:induction false} ClosingBraceShift(readObject: ObjectReader, p: string, q: string, i: nat, start: nat)
    requires SplitterState(q, i, start)
    requires i < |q| && q[i] == '}'
    ensures SplitterState(p + q, |p| + i, |p| + start)
    ensures SplitObjects(p + q, |p| + i, 1, |p| + start, readObject) == SplitObjects(q, i, 1, start, readObject)
    decreases |q| - i, 1
  {
    ClosingBraceFacts(readObject, p, q, i, start);
    SplitObjectsCloseAlike(readObject, p + q, |p| + i, |p| + start, q, i, start);
  }

  /** The splitter passes over text with no brace in it without doing anything. */
  lemma {:induction false} SplitObjectsWalk(readObject: ObjectReader, c: string, i: nat, j: nat, depth: int, start: nat)
    requires SplitterState(c, i, start)
    requires i <= j <= |c|
    requires forall k :: i <= k < j ==> c[k] !in Braces
    ensures SplitterState(c, j, start)
    ensures SplitObjects(c, i, depth, start, readObject) == SplitObjects(c, j, depth, start, readObject)
    decreases j - i
  {
    if i < j {
      SplitObjectsWalk(readObject, c, i + 1, j, depth, start);
    }
  }

  /** The splitter at an opening brace counts it and moves on. */
  lemma SplitObjectsAtOpen(readObject: ObjectReader, c: string, i: nat, depth: int, start: nat)
    requires SplitterState(c, i, start)
    requires i < |c| && c[i] == '{'
    ensures SplitterState(c, i + 1, start)
    ensures SplitObjects(c, i, depth, start, readObject) == SplitObjects(c, i + 1, depth + 1, start, readObject)
  {
  }

  /** The splitter at the brace closing an object that parses: that mapping, then the rest. */
  lemma SplitObjectsAtParsedClose(readObject: ObjectReader, c: string, j: nat, from: nat, m: SmartChrMapping, rest: seq<SmartChrMapping>)
    requires SplitterState(c, j, from)
    requires j < |c| && c[j] == '}' && from <= j + 1
    requires |Trim(c[from..j + 1])| > 0 && readObject(Trim(c[from..j + 1])) == Success(m)
    requires SplitObjects(c, j + 1, 0, SkipSeparators(c, j + 1), readObject) == Success(rest)
    ensures SplitObjects(c, j, 1, from, readObject) == Success([m] + rest)
  {
  }

  /** Separators up to a non-separator are skipped exactly to it. */
  lemma {:induction false} SkipSeparatorsTo(c: string, from: nat, to: nat)
    requires from <= to < |c|
    requires forall k :: from <= k < to ==> IsSeparator(c[k])
    requires !IsSeparator(c[to])
    ensures SkipSeparators(c, from) == to
    decreases |c| - from
  {
    if from < to {
      SkipSeparatorsTo(c, from + 1, to);
    }
  }

  /** Text that ends in a closing brace and has no other brace before it. */
  predicate ClosedByBrace(v: string) {
    |v| > 0 && v[|v| - 1] == '}' && Avoids(v[..|v| - 1], Braces)
  }

  lemma PrependToClosed(u: string, v: string)
    requires Avoids(u, Braces) && ClosedByBrace(v)
    ensures ClosedByBrace(u + v)
  {
    assert (u + v)[..|u + v| - 1] == u + v[..|v| - 1];
    AvoidsConcat(u, v[..|v| - 1], Braces);
  }

  lemma QuotedAvoidsBraces(s: string)
    requires Avoids(s, Braces)
    ensures Avoids(Quoted(s), Braces)
  {
    AvoidsConcat("\"", s, Braces);
    AvoidsConcat("\"" + s, "\"", Braces);
  }

  lemma StringLineAvoidsBraces(field: string, value: string)
    requires Avoids(field, Braces) && Avoids(value, Braces)
    ensures Avoids(StringLine(field, value), Braces)
  {
    QuotedAvoidsBraces(field);
    QuotedAvoidsBraces(value);
    var a := "      " + Quoted(field);
    AvoidsConcat("      ", Quoted(field), Braces);
    AvoidsConcat(a, ": ", Braces);
    AvoidsConcat(a + ": ", Quoted(value), Braces);
    AvoidsConcat(a + ": " + Quoted(value), ",\n", Braces);
  }

  lemma ListLineAvoidsBraces(field: string, items: seq<string>)
    requires Avoids(field, Braces)
    requires forall k :: 0 <= k < |items| ==> Avoids(items[k], Braces)
    ensures Avoids(ListLine(field, items), Braces)
  {
    QuotedAvoidsBraces(field);
    JoinQuotedAvoids(items, Braces);
    var a := "      " + Quoted(field);
    AvoidsConcat("      ", Quoted(field), Braces);
    AvoidsConcat(a, ": [", Braces);
    AvoidsConcat(a + ": [", JoinQuoted(items), Braces);
    AvoidsConcat(a + ": [" + JoinQuoted(items), "],\n", Braces);
  }

  lemma EnabledLinesClosed(enabled: bool)
    ensures ClosedByBrace(EnabledLines(enabled))
  {
    var e := EnabledLines(enabled);
    assert e[..|e| - 1] == "      " + Quoted("enabled") + ": " + BoolText(enabled) + "\n" + "    ";
  }

  /** The written object from its `mode` line on holds its only `}` at the end. */
  lemma ModeOnwardClosed(m: SmartChrMapping)
    requires Portable(m)
    ensures ClosedByBrace(ModeOnward(m))
  {
    PortableItemsAvoid(m.fileTypes, Braces);
    EnabledLinesClosed(m.enabled);
    ListLineAvoidsBraces("fileTypes", m.fileTypes);
    PrependToClosed(ListLine("fileTypes", m.fileTypes), EnabledLines(m.enabled));
    StringLineAvoidsBraces("mode", ModeName(m.mode));
    PrependToClosed(StringLine("mode", ModeName(m.mode)), FileTypesOnward(m));
  }

  /** The written object after its opening brace holds its only `}` at the end. */
  lemma KeyOnwardClosed(m: SmartChrMapping)
    requires Portable(m)
    ensures ClosedByBrace("\n" + (StringLine("key", [m.key]) + CandidatesOnward(m)))
  {
    ModeOnwardClosed(m);
    PortableItemsAvoid(m.candidates, Braces);
    ListLineAvoidsBraces("candidates", m.candidates);
    PrependToClosed(ListLine("candidates", m.candidates), ModeOnward(m));
    StringLineAvoidsBraces("key", [m.key]);
    PrependToClosed(StringLine("key", [m.key]), CandidatesOnward(m));
    PrependToClosed("\n", StringLine("key", [m.key]) + CandidatesOnward(m));
  }

  /** A written portable object opens with its only `{` and closes with its only `}`. */
  lemma ObjectTextBraces(m: SmartChrMapping)
    requires Portable(m)
    ensures var o := ObjectText(m); |o| >= 2 && o[0] == '{' && ClosedByBrace(o[1..])
  {
    KeyOnwardClosed(m);
    ObjectTextOnward(m);
    OpenThenClosed("\n", StringLine("key", [m.key]) + CandidatesOnward(m));
  }

  /** `{` followed by text that a lone `}` closes. */
  lemma OpenThenClosed(a: string, x: string)
    requires ClosedByBrace(a + x)
    ensures var o := "{" + (a + x); |o| >= 2 && o[0] == '{' && ClosedByBrace(o[1..])
    ensures "{" + a + x == "{" + (a + x)
  {
    assert ("{" + (a + x))[1..] == a + x;
  }

  // ---------------------------------------------------------------------------------------
  // The array of written objects
  // ---------------------------------------------------------------------------------------

  /** Object texts joined as the writer joins them: a comma, a line break and the indent between two. */
  function PackedTexts(os: seq<string>): string
    requires |os| > 0
  {
    if |os| == 1 then os[0] else os[0] + (",\n    " + PackedTexts(os[1..]))
  }

  /** The object text of each mapping. */
  function ObjectTexts(ms: seq<SmartChrMapping>): (os: seq<string>)
    ensures |os| == |ms|
    ensures forall k :: 0 <= k < |ms| ==> os[k] == ObjectText(ms[k])
  {
    if |ms| == 0 then [] else [ObjectText(ms[0])] + ObjectTexts(ms[1..])
  }

  /** The writer's entries are the joined objects with the indent before and a line break after. */
  lemma {:induction false} EntriesPacked(ms: seq<SmartChrMapping>)
    requires |ms| > 0
    ensures Entries(ms) == "    " + PackedTexts(ObjectTexts(ms)) + "\n"
  {
    var os := ObjectTexts(ms);
    if |ms| > 1 {
      EntriesPacked(ms[1..]);
      assert os[1..] == ObjectTexts(ms[1..]);
      RegroupEntries(ObjectText(ms[0]), Entries(ms[1..]), PackedTexts(ObjectTexts(ms[1..])));
    }
  }

  lemma RegroupEntries(o: string, e: string, p: string)
    requires e == "    " + p + "\n"
    ensures "    " + o + ",\n" + e == "    " + (o + (",\n    " + p)) + "\n"
  {
  }

  /** Text the splitter takes as one object: its only `{` first and its only `}` last. */
  predicate ObjectShape(o: string) {
    |o| >= 2 && o[0] == '{' && ClosedByBrace(o[1..])
  }

  /** Text the splitter takes as one object that the object reader reads as `m`. */
  predicate ObjectFor(readObject: ObjectReader, o: string, m: SmartChrMapping) {
    ObjectShape(o) && readObject(o) == Success(m)
  }

  /** The written object of a portable mapping is an object for it. */
  lemma WrittenObjectFor(m: SmartChrMapping)
    requires Portable(m)
    ensures ObjectFor(ParseSingleMapping, ObjectText(m), m)
  {
    ObjectTextBraces(m);
    ObjectRoundTrip(m);
  }

  /** Joined objects start with `{` and end with `}`. */
  lemma {:induction false} PackedTextsEnds(readObject: ObjectReader, os: seq<string>, ms: seq<SmartChrMapping>)
    requires |os| == |ms| > 0
    requires forall k :: 0 <= k < |os| ==> ObjectFor(readObject, os[k], ms[k])
    ensures var t := PackedTexts(os); |t| > 0 && t[0] == '{' && t[|t| - 1] == '}'
    decreases |os|
  {
    if |os| > 1 {
      PackedTextsEnds(readObject, os[1..], ms[1..]);
    }
  }

  /** The first object of joined objects: it is the text up to the first `}`, and trims to itself. */
  lemma FirstObject(o: string, c: string)
    requires ObjectShape(o)
    requires |o| <= |c| && c[..|o|] == o
    ensures forall k :: 1 <= k < |o| - 1 ==> c[k] !in Braces
    ensures c[0] == '{' && c[|o| - 1] == '}'
    ensures c[0..|o|] == o && Trim(o) == o
  {
    assert forall k :: 1 <= k < |o| - 1 ==> c[k] == o[1..][..|o| - 2][k - 1];
    assert c[|o| - 1] == o[1..][|o| - 2];
    TrimUnpadded(o);
  }

  /** The splitter cuts joined objects back into the mappings they parse to. */
  lemma {:induction false} SplitPackedTexts(readObject: ObjectReader, os: seq<string>, ms: seq<SmartChrMapping>)
    requires |os| == |ms| > 0
    requires forall k :: 0 <= k < |os| ==> ObjectFor(readObject, os[k], ms[k])
    ensures SplitObjects(PackedTexts(os), 0, 0, 0, readObject) == Success(ms)
    decreases |os|, 1
  {
    var o := os[0];
    var c := PackedTexts(os);
    assert ObjectFor(readObject, o, ms[0]);
    assert c[..|o|] == o;
    FirstObject(o, c);
    SplitObjectsAtOpen(readObject, c, 0, 0, 0);
    SplitObjectsWalk(readObject, c, 1, |o| - 1, 1, 0);
    SplitAfterFirst(readObject, os, ms);
    assert readObject(Trim(c[0..|o|])) == Success(ms[0]);
    SplitObjectsAtParsedClose(readObject, c, |o| - 1, 0, ms[0], ms[1..]);
    calc {
      SplitObjects(c, 0, 0, 0, readObject);
      SplitObjects(c, 1, 1, 0, readObject);
      SplitObjects(c, |o| - 1, 1, 0, readObject);
      Success([ms[0]] + ms[1..]);
      { HeadTail(ms); }
      Success(ms);
    }
  }

  /** After the first of the joined objects the splitter reads the remaining ones. */
  lemma {:induction false} SplitAfterFirst(readObject: ObjectReader, os: seq<string>, ms: seq<SmartChrMapping>)
    requires |os| == |ms| > 0
    requires forall k :: 0 <= k < |os| ==> ObjectFor(readObject, os[k], ms[k])
    ensures |os[0]| <= |PackedTexts(os)|
    ensures SplitObjects(PackedTexts(os), |os[0]|, 0, SkipSeparators(PackedTexts(os), |os[0]|), readObject)
            == Success(ms[1..])
    decreases |os|, 0
  {
    if |os| == 1 {
      SplitAfterLast(readObject, os, ms);
    } else {
      PackedTail(readObject, os, ms);
      SplitAcrossGap(readObject, os[0], PackedTexts(os[1..]));
      SplitPackedTexts(readObject, os[1..], ms[1..]);
    }
  }

  /** After the last object there is nothing more to read. */
  lemma SplitAfterLast(readObject: ObjectReader, os: seq<string>, ms: seq<SmartChrMapping>)
    requires |os| == |ms| == 1
    ensures PackedTexts(os) == os[0]
    ensures SplitObjects(PackedTexts(os), |os[0]|, 0, SkipSeparators(PackedTexts(os), |os[0]|), readObject)
            == Success(ms[1..])
  {
    assert ms[1..] == [];
  }

  /** Joined objects are the first one, a separator, and the joined rest, which opens with `{`. */
  lemma PackedTail(readObject: ObjectReader, os: seq<string>, ms: seq<SmartChrMapping>)
    requires |os| == |ms| > 1
    requires forall k :: 0 <= k < |os| ==> ObjectFor(readObject, os[k], ms[k])
    ensures PackedTexts(os) == os[0] + ",\n    " + PackedTexts(os[1..])
    ensures forall k :: 0 <= k < |os| - 1 ==> ObjectFor(readObject, os[1..][k], ms[1..][k])
    ensures var rest := PackedTexts(os[1..]); |rest| > 0 && rest[0] == '{'
  {
    assert forall k :: 0 <= k < |os| - 1 ==> os[1..][k] == os[k + 1] && ms[1..][k] == ms[k + 1];
    PackedTextsEnds(readObject, os[1..], ms[1..]);
  }

  /** After one object, the splitter skips the separators and reads the next object onward. */
  lemma SplitAcrossGap(readObject: ObjectReader, o: string, rest: string)
    requires |rest| > 0 && rest[0] == '{'
    ensures var c := o + ",\n    " + rest;
            SplitObjects(c, |o|, 0, SkipSeparators(c, |o|), readObject) == SplitObjects(rest, 0, 0, 0, readObject)
  {
    var p := o + ",\n    ";
    var c := p + rest;
    SeparatorGap(o, rest);
    SkipSeparatorsTo(c, |o|, |p|);
    SplitObjectsWalk(readObject, c, |o|, |p|, 0, |p|);
    SplitFromStartOf(readObject, c, p, rest);
    calc {
      SplitObjects(c, |o|, 0, SkipSeparators(c, |o|), readObject);
      SplitObjects(c, |o|, 0, |p|, readObject);
      SplitObjects(c, |p|, 0, |p|, readObject);
      SplitObjects(rest, 0, 0, 0, readObject);
    }
  }

  /** Splitting `p + q` from where `q` starts is splitting `q`. */
  lemma SplitFromStartOf(readObject: ObjectReader, c: string, p: string, q: string)
    requires c == p + q
    ensures SplitObjects(c, |p|, 0, |p|, readObject) == SplitObjects(q, 0, 0, 0, readObject)
  {
    SplitObjectsShift(readObject, p, q, 0, 0, 0);
    assert |p| + 0 == |p|;
  }

  /** An object that fails to read aborts the split, whatever follows it. */
  lemma SplitStopsAtFailure(readObject: ObjectReader, o: string, rest: string)
    requires ObjectShape(o) && readObject(o).Failure?
    ensures SplitObjects(o + rest, 0, 0, 0, readObject) == Failure(readObject(o).error)
  {
    var c := o + rest;
    assert c[..|o|] == o;
    FirstObject(o, c);
    SplitObjectsAtOpen(readObject, c, 0, 0, 0);
    SplitObjectsWalk(readObject, c, 1, |o| - 1, 1, 0);
    assert Trim(c[0..|o|]) == o;
  }

  lemma HeadTail<T>(xs: seq<T>)
    requires |xs| > 0
    ensures [xs[0]] + xs[1..] == xs
  {
  }

  /** Between two joined objects lie only separators, and the next object opens right after. */
  lemma SeparatorGap(o: string, rest: string)
    requires |rest| > 0 && rest[0] == '{'
    ensures var c := o + ",\n    " + rest;
            && (forall k :: |o| <= k < |o| + 6 ==> IsSeparator(c[k]) && c[k] !in Braces)
            && |o| + 6 < |c| && c[|o| + 6] == '{' && !IsSeparator(c[|o| + 6])
  {
  }

  /** The splitter cuts the joined written objects of portable mappings back into those mappings. */
  lemma SplitWritten(ms: seq<SmartChrMapping>)
    requires |ms| > 0
    requires forall k :: 0 <= k < |ms| ==> Portable(ms[k])
    ensures var t := PackedTexts(ObjectTexts(ms)); |t| > 0 && t[0] == '{' && t[|t| - 1] == '}'
    ensures SplitObjects(PackedTexts(ObjectTexts(ms)), 0, 0, 0, ParseSingleMapping) == Success(ms)
  {
    var os := ObjectTexts(ms);
    forall k | 0 <= k < |ms|
      ensures ObjectFor(ParseSingleMapping, os[k], ms[k])
    {
      WrittenObjectFor(ms[k]);
    }
    SplitPackedTexts(ParseSingleMapping, os, ms);
    PackedTextsEnds(ParseSingleMapping, os, ms);
  }

  // ---------------------------------------------------------------------------------------
  // The whole document
  // ---------------------------------------------------------------------------------------

  /** The writer's text up to and including the `[` of the mappings array. */
  const Header: string := "{\n  \"mappings\": ["

  /** The writer's text from the `]` of the mappings array on. */
  const Footer: string := "]\n}"

  /** The key pattern `"\w+"\s*:` matches at the `"mappings"` key. */
  lemma MappingsKeyMatches(t: string)
    requires |t| >= 17 && t[..17] == Header
    ensures KeyPatternAt(t[4..])
  {
    var s := t[4..];
    assert s[1..] == "mappings" + s[9..];
    WordRunPrefix("mappings", s[9..]);
    assert s[10..][0] == ':';
    RegexSpaceRunNone(s[10..]);
  }

  /** The reader locates the array of a framed text at the writer's brackets. */
  lemma FramedBrackets(inner: string)
    ensures var t := Header + inner + Footer;
            && IndexOf(t, "\"mappings\"", 0) == Some(4)
            && IndexOfChar(t, '[', 4) == Some(16)
            && LastIndexOfChar(t, ']') == Some(|t| - 3)
            && t[17..|t| - 3] == inner
  {
    var t := Header + inner + Footer;
    var key := "\"mappings\"";
    assert t[..17] == Header;
    assert t[4..14] == key;
    assert forall j :: 0 <= j < 4 ==> t[j] != '"';
    forall j | 0 <= j < 4
      ensures !OccursAt(t, key, j)
    {
      if j + |key| <= |t| {
        assert t[j..j + |key|][0] == t[j];
      }
    }
    assert OccursAt(t, key, 4);
    assert forall j :: 4 <= j < 16 ==> t[j] != '[';
    assert t[16] == '[';
    assert t[|t| - 3] == ']' && t[|t| - 2] == '\n' && t[|t| - 1] == '}';
    assert t[17..|t| - 3] == inner;
  }

  /**
   * `parseJsonToMappings` on text framed the way the writer frames it: the trimmed text
   * between the brackets is split into objects, or gives no mappings when blank.
   */
  lemma ParseFramed(inner: string)
    ensures var content := Trim(inner);
            ParseJson(Header + inner + Footer)
            == if |content| == 0 then Success([]) else SplitObjects(content, 0, 0, 0, ParseSingleMapping)
  {
    var t := Header + inner + Footer;
    assert t[..17] == Header;
    TrimUnpadded(t);
    assert StartsWith(Trim(t), "{");
    MappingsKeyMatches(t);
    IsValidJsonStructureMeans(t);
    FramedBrackets(inner);
  }

  /** The writer's text for no mappings is a framed text with nothing inside. */
  lemma EmptyDocumentFramed()
    ensures GenerateJson([]) == Header + "" + Footer
  {
  }

  /** The writer's text for some mappings frames their joined objects, padded. */
  lemma DocumentFramed(ms: seq<SmartChrMapping>)
    requires |ms| > 0
    ensures GenerateJson(ms) == Header + ("\n    " + PackedTexts(ObjectTexts(ms)) + "\n  ") + Footer
  {
    EntriesPacked(ms);
    RegroupDocument(Entries(ms), PackedTexts(ObjectTexts(ms)));
  }

  lemma RegroupDocument(entries: string, packed: string)
    requires entries == "    " + packed + "\n"
    ensures "{\n" + "  \"mappings\": [\n" + entries + "  ]\n" + "}"
            == Header + ("\n    " + packed + "\n  ") + Footer
  {
  }

  /** Writing no mappings and reading the text back gives no mappings. */
  lemma EmptyRoundTrip()
    ensures ParseJson(GenerateJson([])) == Success([])
  {
    EmptyDocumentFramed();
    ParseFramed("");
  }

  /** A framed text whose padded inside is objects the splitter reads is read as those objects. */
  lemma ReadsFramedObjects(packed: string, ms: seq<SmartChrMapping>)
    requires |packed| > 0 && packed[0] == '{' && packed[|packed| - 1] == '}'
    requires SplitObjects(packed, 0, 0, 0, ParseSingleMapping) == Success(ms)
    ensures ParseJson(Header + ("\n    " + packed + "\n  ") + Footer) == Success(ms)
  {
    FramedSplit(packed);
  }

  /**
   * A document laid out as the writer lays it out whose first object has no non-empty
   * candidate fails to read as a whole: no mapping of it is returned.
   */
  lemma BadObjectFailsDocument(o: string, rest: string)
    requires ObjectShape(o) && |ExtractJsonArray(o, "candidates")| == 0
    requires |rest| == 0 || rest[|rest| - 1] == '}'
    ensures ParseJson(Header + ("\n    " + (o + rest) + "\n  ") + Footer)
            == Failure(InvalidMapping(EmptyCandidates))
  {
    var packed := o + rest;
    assert packed[0] == o[0];
    assert packed[|packed| - 1] == '}' by {
      if |rest| == 0 {
        assert packed == o && o[|o| - 1] == o[1..][|o| - 2];
      } else {
        assert packed[|packed| - 1] == rest[|rest| - 1];
      }
    }
    SplitStopsAtFailure(ParseSingleMapping, o, rest);
    FramedSplit(packed);
  }

  /** A framed text whose padded inside starts with `{` and ends with `}` is split as that inside. */
  lemma FramedSplit(packed: string)
    requires |packed| > 0 && packed[0] == '{' && packed[|packed| - 1] == '}'
    ensures ParseJson(Header + ("\n    " + packed + "\n  ") + Footer)
            == SplitObjects(packed, 0, 0, 0, ParseSingleMapping)
  {
    TrimPadded("\n    ", packed, "\n  ");
    ParseFramed("\n    " + packed + "\n  ");
  }

  /**
   * The round trip of the JSON export and import: reading back the text written for
   * portable mappings gives the same mappings, in the same order.
   */
  lemma RoundTrip(ms: seq<SmartChrMapping>)
    requires forall k :: 0 <= k < |ms| ==> Portable(ms[k])
    ensures ParseJson(GenerateJson(ms)) == Success(ms)
  {
    if |ms| == 0 {
      EmptyRoundTrip();
    } else {
      SplitWritten(ms);
      DocumentFramed(ms);
      ReadsFramedObjects(PackedTexts(ObjectTexts(ms)), ms);
    }
  }
}
