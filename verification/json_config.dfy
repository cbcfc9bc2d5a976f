/**
 * The hand-written JSON writer and reader for the mapping list. The reader is not a JSON
 * parser: it checks the outer braces and one `"word":` pattern, cuts the text between the
 * first `[` after `"mappings"` and the last `]` into brace-balanced objects, and pulls each
 * field out of an object with a fixed regular expression. Each of those expressions is
 * modelled by a scanner for that one pattern.
 */
module JsonConfig {
  import opened Wrappers
  import opened Text
  import opened Models

  /** Why reading failed (the source wraps every cause in one IllegalArgumentException). */
  datatype JsonError =
    | InvalidFormat             // the trimmed text is not enclosed in `{` … `}`
    | InvalidStructure          // no `"word":` anywhere in the text
    | BadRange                  // `substring` with the last `]` before the first `[`
    | InvalidMapping(cause: MappingError)

  // ---------------------------------------------------------------------------------------
  // generateJsonFromMappings
  // ---------------------------------------------------------------------------------------

  function Quoted(s: string): string {
    "\"" + s + "\""
  }

  /** A list written as its items in double quotes, separated by a comma and a space; nothing is escaped. */
  function JoinQuoted(items: seq<string>): string {
    if |items| == 0 then ""
    else if |items| == 1 then Quoted(items[0])
    else Quoted(items[0]) + ", " + JoinQuoted(items[1..])
  }

  /** Kotlin's `Boolean.toString()`. */
  function BoolText(b: bool): string {
    if b then "true" else "false"
  }

  /** One `"field": "value",` line of an object. */
  function StringLine(field: string, value: string): string {
    "      " + Quoted(field) + ": " + Quoted(value) + ",\n"
  }

  /** One `"field": [items],` line of an object. */
  function ListLine(field: string, items: seq<string>): string {
    "      " + Quoted(field) + ": [" + JoinQuoted(items) + "],\n"
  }

  /** The last line of an object, `"enabled": flag`, and its closing brace. */
  function EnabledLines(enabled: bool): string {
    "      " + Quoted("enabled") + ": " + BoolText(enabled) + "\n" + "    }"
  }

  /** One mapping object, from its `{` to its `}`, one line per field as the writer lays it out. */
  function ObjectText(m: SmartChrMapping): string {
    "{\n"
    + (StringLine("key", [m.key])
    + (ListLine("candidates", m.candidates)
    + (StringLine("mode", ModeName(m.mode))
    + (ListLine("fileTypes", m.fileTypes)
    + EnabledLines(m.enabled)))))
  }

  /** The indented objects of the array, separated by commas, each on its own lines. */
  function Entries(ms: seq<SmartChrMapping>): string
    requires |ms| > 0
  {
    if |ms| == 1 then "    " + ObjectText(ms[0]) + "\n"
    else "    " + ObjectText(ms[0]) + ",\n" + Entries(ms[1..])
  }

  /** `generateJsonFromMappings`. */
  function GenerateJson(ms: seq<SmartChrMapping>): (text: string)
    ensures |text| >= 2 && text[0] == '{' && text[|text| - 1] == '}'
    ensures |ms| == 0 ==> text == "{\n  \"mappings\": []\n}"
  {
    if |ms| == 0 then "{\n" + "  \"mappings\": []\n" + "}"
    else "{\n" + "  \"mappings\": [\n" + Entries(ms) + "  ]\n" + "}"
  }

  // ---------------------------------------------------------------------------------------
  // The three field patterns of extractJsonString / extractJsonArray / extractJsonBoolean
  // ---------------------------------------------------------------------------------------

  /** The value part of a field pattern: `"([^"]*)"`, `\[([^\]]*)]` or `(true|false)`. */
  datatype ValueShape = QuotedString | BracketArray | BooleanLiteral

  /** The value pattern matched at the very start of `v`, giving its capture group. */
  function MatchValue(shape: ValueShape, v: string): (r: Option<string>)
    ensures shape == BooleanLiteral && r.Some? ==> r.value == "true" || r.value == "false"
    ensures shape == QuotedString && r.Some? ==> Avoids(r.value, {'"'}) && StartsWith(v, Quoted(r.value))
    ensures shape == BracketArray && r.Some? ==> Avoids(r.value, {']'}) && StartsWith(v, "[" + r.value + "]")
    ensures shape == BooleanLiteral && r.Some? ==> StartsWith(v, r.value)
    ensures shape == BooleanLiteral ==> (r.None? <==> !StartsWith(v, "true") && !StartsWith(v, "false"))
    ensures shape == QuotedString ==>
              (r.None? <==> |v| == 0 || v[0] != '"' || forall j :: 1 <= j < |v| ==> v[j] != '"')
    ensures shape == BracketArray ==>
              (r.None? <==> |v| == 0 || v[0] != '[' || forall j :: 1 <= j < |v| ==> v[j] != ']')
  {
    match shape
    case QuotedString =>
      if |v| > 0 && v[0] == '"' then
        match IndexOfChar(v, '"', 1)
        case Some(j) =>
          assert v[..|Quoted(v[1..j])|] == Quoted(v[1..j]);
          Some(v[1..j])
        case None => None
      else None
    case BracketArray =>
      if |v| > 0 && v[0] == '[' then
        match IndexOfChar(v, ']', 1)
        case Some(j) =>
          assert v[..|"[" + v[1..j] + "]"|] == "[" + v[1..j] + "]";
          Some(v[1..j])
        case None => None
      else None
    case BooleanLiteral =>
      if StartsWith(v, "true") then Some("true")
      else if StartsWith(v, "false") then Some("false")
      else None
  }

  /**
   * The whole pattern `"name"\s*:\s*<value>` matched at the very start of `s`. Each part
   * can match in one way only (`\s` never matches `:` or the value's first character), so
   * the greedy scan is the regex engine's match.
   */
  function MatchFieldAt(shape: ValueShape, name: string, s: string): (r: Option<string>)
    ensures r.Some? ==> StartsWith(s, Quoted(name))
  {
    var n := |name|;
    if |s| < n + 2 || s[0] != '"' || s[1..n + 1] != name || s[n + 1] != '"' then None
    else
      assert s[..n + 2] == Quoted(name);
      var afterName := SkipRegexSpaces(s[n + 2..]);
      if |afterName| == 0 || afterName[0] != ':' then None
      else MatchValue(shape, SkipRegexSpaces(afterName[1..]))
  }

  /** `Regex.find`: the match that starts leftmost, and its capture group. */
  function FindField(shape: ValueShape, name: string, s: string): (r: Option<string>)
    ensures shape == BooleanLiteral && r.Some? ==> r.value == "true" || r.value == "false"
    ensures shape == QuotedString && r.Some? ==> Avoids(r.value, {'"'})
    ensures shape == BracketArray && r.Some? ==> Avoids(r.value, {']'})
    decreases |s|
  {
    if |s| == 0 then None
    else if MatchFieldAt(shape, name, s).Some? then MatchFieldAt(shape, name, s)
    else FindField(shape, name, s[1..])
  }

  /** The suffixes of `s` after its first character are its suffixes from 1 on. */
  lemma SuffixOfTail(s: string)
    requires |s| > 0
    ensures s[0..] == s
    ensures forall p :: 1 <= p <= |s| ==> s[p..] == s[1..][p - 1..]
  {
  }

  /** The scan finds nothing only when no position matches. */
  lemma {:induction false} FindFieldNone(shape: ValueShape, name: string, s: string)
    requires FindField(shape, name, s).None?
    ensures forall p {:trigger MatchFieldAt(shape, name, s[p..])} ::
              0 <= p < |s| ==> MatchFieldAt(shape, name, s[p..]).None?
    decreases |s|
  {
    if |s| > 0 {
      SuffixOfTail(s);
      FindFieldNone(shape, name, s[1..]);
    }
  }

  /** Conversely, when no position matches the scan finds nothing. */
  lemma {:induction false} FindFieldNoMatch(shape: ValueShape, name: string, s: string)
    requires forall p {:trigger MatchFieldAt(shape, name, s[p..])} ::
               0 <= p < |s| ==> MatchFieldAt(shape, name, s[p..]).None?
    ensures FindField(shape, name, s).None?
    decreases |s|
  {
    if |s| > 0 {
      SuffixOfTail(s);
      assert MatchFieldAt(shape, name, s[0..]).None?;
      forall q | 0 <= q < |s| - 1
        ensures MatchFieldAt(shape, name, s[1..][q..]).None?
      {
        assert s[1..][q..] == s[q + 1..];
      }
      FindFieldNoMatch(shape, name, s[1..]);
    }
  }

  /**
   * Any run of `\s` on either side of the colon is accepted: the field pattern at
   * `"name"<spaces>:<spaces>v` is the value pattern at `v`.
   */
  lemma MatchFieldAtSpaced(shape: ValueShape, name: string, w1: string, w2: string, v: string)
    requires forall i :: 0 <= i < |w1| ==> IsRegexSpace(w1[i])
    requires forall i :: 0 <= i < |w2| ==> IsRegexSpace(w2[i])
    requires |v| == 0 || !IsRegexSpace(v[0])
    ensures MatchFieldAt(shape, name, Quoted(name) + w1 + ":" + w2 + v) == MatchValue(shape, v)
  {
    var afterColon := w2 + v;
    var afterName := ":" + afterColon;
    var s := Quoted(name) + (w1 + afterName);
    assert Quoted(name) + w1 + ":" + w2 + v == s;
    var n := |name|;
    assert s[0] == '"' && s[1..n + 1] == name && s[n + 1] == '"';
    assert s[n + 2..] == w1 + afterName;
    SkipSpaceRun(w1, afterName);
    assert afterName[1..] == afterColon;
    SkipSpaceRun(w2, v);
  }

  /** With a match at position `p` and none before it, the scan finds the match at `p`. */
  lemma {:induction false} FindFieldAt(shape: ValueShape, name: string, s: string, p: nat)
    requires p < |s| && MatchFieldAt(shape, name, s[p..]).Some?
    requires forall q {:trigger MatchFieldAt(shape, name, s[q..])} ::
               0 <= q < p ==> MatchFieldAt(shape, name, s[q..]).None?
    ensures FindField(shape, name, s) == MatchFieldAt(shape, name, s[p..])
    decreases p
  {
    SuffixOfTail(s);
    if p == 0 {
      assert s[p..] == s;
    } else {
      assert MatchFieldAt(shape, name, s[0..]).None?;
      assert FindField(shape, name, s) == FindField(shape, name, s[1..]);
      forall q | 0 <= q < p - 1
        ensures MatchFieldAt(shape, name, s[1..][q..]).None?
      {
        assert s[1..][q..] == s[q + 1..];
      }
      assert s[1..][p - 1..] == s[p..];
      FindFieldAt(shape, name, s[1..], p - 1);
    }
  }

  /** `extractJsonString`: the first `"name": "…"` value, or the empty string. */
  function ExtractJsonString(json: string, name: string): (r: string)
    ensures Avoids(r, {'"'})
    ensures FindField(QuotedString, name, json).None? ==> r == ""
    ensures FindField(QuotedString, name, json).Some? ==> r == FindField(QuotedString, name, json).value
  {
    FindField(QuotedString, name, json).GetOr("")
  }

  /** Each array element is trimmed, then loses one pair of surrounding double quotes. */
  function CleanItems(parts: seq<string>): (r: seq<string>)
    ensures |r| == |parts|
    ensures forall k :: 0 <= k < |parts| ==> r[k] == RemoveSurrounding(Trim(parts[k]), '"')
  {
    if |parts| == 0 then [] else [RemoveSurrounding(Trim(parts[0]), '"')] + CleanItems(parts[1..])
  }

  /**
   * `extractJsonArray`: the text between the brackets of the first `"name": [ … ]`, split at
   * every comma, each piece trimmed and unquoted, empty pieces dropped.
   */
  function ExtractJsonArray(json: string, name: string): (r: seq<string>)
    ensures forall k :: 0 <= k < |r| ==> |r[k]| > 0
    ensures FindField(BracketArray, name, json).None? ==> r == []
    ensures var group := FindField(BracketArray, name, json);
            group.Some? && |Trim(group.value)| == 0 ==> r == []
    ensures var group := FindField(BracketArray, name, json);
            group.Some? && |Trim(group.value)| > 0 ==>
              r == KeepNonEmpty(CleanItems(Split(Trim(group.value), ',')))
  {
    match FindField(BracketArray, name, json)
    case None => []
    case Some(group) =>
      var content := Trim(group);
      if |content| == 0 then []
      else KeepNonEmpty(CleanItems(Split(content, ',')))
  }

  /** `extractJsonBoolean`: the first `"name": true|false`, or true when there is none. */
  function ExtractJsonBoolean(json: string, name: string): (r: bool)
    ensures FindField(BooleanLiteral, name, json).None? ==> r
    ensures FindField(BooleanLiteral, name, json) == Some("false") ==> !r
    ensures r <==> FindField(BooleanLiteral, name, json) != Some("false")
  {
    match FindField(BooleanLiteral, name, json)
    case None => true
    case Some(word) => word == "true"
  }

  // ---------------------------------------------------------------------------------------
  // isValidJsonStructure: the pattern `"\w+"\s*:`
  // ---------------------------------------------------------------------------------------

  /** `"\w+"\s*:` matched at the very start of `s`. */
  predicate KeyPatternAt(s: string) {
    && |s| > 0 && s[0] == '"'
    && var w := WordRun(s[1..]);
       && w > 0 && w + 1 < |s| && s[w + 1] == '"'
       && var rest := SkipRegexSpaces(s[w + 2..]);
          |rest| > 0 && rest[0] == ':'
  }

  /** `isValidJsonStructure`: the key pattern occurs somewhere in the text. */
  predicate IsValidJsonStructure(s: string)
    ensures IsValidJsonStructure(s) ==> |s| >= 4 && '"' in s
    decreases |s|
  {
    |s| > 0 && (KeyPatternAt(s) || IsValidJsonStructure(s[1..]))
  }

  /** The scan finds the key pattern exactly when it starts at some position. */
  lemma {:induction false} IsValidJsonStructureMeans(s: string)
    ensures IsValidJsonStructure(s) <==> exists p :: 0 <= p < |s| && KeyPatternAt(s[p..])
    decreases |s|
  {
    if |s| > 0 {
      IsValidJsonStructureMeans(s[1..]);
      assert s[0..] == s;
      if IsValidJsonStructure(s[1..]) {
        var p :| 0 <= p < |s| - 1 && KeyPatternAt(s[1..][p..]);
        assert s[1..][p..] == s[p + 1..];
      }
      if exists p :: 0 <= p < |s| && KeyPatternAt(s[p..]) {
        var p :| 0 <= p < |s| && KeyPatternAt(s[p..]);
        if p > 0 {
          assert s[1..][p - 1..] == s[p..];
        }
      }
    }
  }

  /** Text without a double quote has no key pattern anywhere. */
  lemma {:induction false} NoQuoteNoKey(s: string)
    requires Avoids(s, {'"'})
    ensures !IsValidJsonStructure(s)
    decreases |s|
  {
    if |s| > 0 {
      NoQuoteNoKey(s[1..]);
    }
  }

  /** Braces around unquoted words are rejected as having no JSON structure. */
  lemma UnquotedContentRejected(words: string)
    requires Avoids(words, {'"'})
    ensures ParseJson("{" + words + "}") == Failure(InvalidStructure)
  {
    var s := "{" + words + "}";
    assert forall k :: 0 <= k < |s| ==> s[k] == '{' || s[k] == '}' || s[k] in words;
    NoQuoteNoKey(s);
    TrimUnpadded(s);
  }

  // ---------------------------------------------------------------------------------------
  // parseSingleMapping
  // ---------------------------------------------------------------------------------------

  /** The key: the first character of the `key` string, or a space when that string is empty. */
  function KeyField(json: string): (c: char)
    ensures FindField(QuotedString, "key", json).None? ==> c == ' '
    ensures |ExtractJsonString(json, "key")| > 0 ==> c == ExtractJsonString(json, "key")[0]
    ensures |ExtractJsonString(json, "key")| == 0 ==> c == ' '
  {
    var keyText := ExtractJsonString(json, "key");
    if |keyText| > 0 then keyText[0] else ' '
  }

  /** The mode named by the `mode` string; LOOP when it names no mode. */
  function ModeField(json: string): (m: CycleMode)
    ensures m == ONE_OF <==> ExtractJsonString(json, "mode") == "ONE_OF"
  {
    ModeValueOf(ExtractJsonString(json, "mode")).GetOr(LOOP)
  }

  /** The `fileTypes` list, or `["*"]` (every file type) when it is empty or missing. */
  function FileTypesField(json: string): (fs: seq<string>)
    ensures |fs| > 0
    ensures |ExtractJsonArray(json, "fileTypes")| == 0 ==> fs == ["*"]
    ensures |ExtractJsonArray(json, "fileTypes")| > 0 ==> fs == ExtractJsonArray(json, "fileTypes")
  {
    var fileTypes := ExtractJsonArray(json, "fileTypes");
    if |fileTypes| == 0 then ["*"] else fileTypes
  }

  /**
   * `parseSingleMapping`: a missing key becomes `' '`, a missing or unknown mode LOOP, a
   * missing or empty file-type list `["*"]`, a missing enabled flag true; no candidates
   * make the mapping constructor throw.
   */
  function ParseSingleMapping(json: string): (r: Result<SmartChrMapping, JsonError>)
    ensures r.Failure? <==> |ExtractJsonArray(json, "candidates")| == 0
    ensures r.Failure? ==> r.error == InvalidMapping(EmptyCandidates)
    ensures r.Success? ==> r.value.candidates == ExtractJsonArray(json, "candidates")
    ensures r.Success? && FindField(QuotedString, "key", json).None? ==> r.value.key == ' '
    ensures r.Success? ==> (r.value.mode == ONE_OF <==> ExtractJsonString(json, "mode") == "ONE_OF")
    ensures r.Success? ==> |r.value.fileTypes| > 0
    ensures r.Success? && |ExtractJsonArray(json, "fileTypes")| == 0 ==> r.value.fileTypes == ["*"]
    ensures r.Success? && FindField(BooleanLiteral, "enabled", json).None? ==> r.value.enabled
    ensures r.Success? ==> && r.value.key == KeyField(json) && r.value.mode == ModeField(json)
                           && r.value.fileTypes == FileTypesField(json)
                           && r.value.enabled == ExtractJsonBoolean(json, "enabled")
  {
    var candidates := ExtractJsonArray(json, "candidates");
    match NewMapping(KeyField(json), candidates, ModeField(json), FileTypesField(json),
                     ExtractJsonBoolean(json, "enabled"))
    case Failure(e) => Failure(InvalidMapping(e))
    case Success(m) => Success(m)
  }

  // ---------------------------------------------------------------------------------------
  // parseJsonToMappings
  // ---------------------------------------------------------------------------------------

  /** A character the object splitter skips between objects: a comma or whitespace. */
  predicate IsSeparator(c: char) {
    c == ',' || IsKotlinWhitespace(c)
  }

  /** The `while` loop that moves `start` past commas and whitespace. */
  function SkipSeparators(content: string, from: nat): (r: nat)
    requires from <= |content|
    ensures from <= r <= |content|
    ensures forall k :: from <= k < r ==> IsSeparator(content[k])
    ensures r < |content| ==> !IsSeparator(content[r])
    decreases |content| - from
  {
    if from < |content| && IsSeparator(content[from]) then SkipSeparators(content, from + 1) else from
  }

  /**
   * The loop state of the splitter is well formed: `start` is at most the current index, or
   * only separators lie between them (they were skipped ahead of the index).
   */
  predicate SplitterState(content: string, i: nat, start: nat) {
    && i <= |content| && start <= |content|
    && (start <= i || forall k :: i <= k < start ==> IsSeparator(content[k]))
  }

  /** How the splitter reads one object's text; `parseJsonToMappings` uses `parseSingleMapping`. */
  type ObjectReader = string -> Result<SmartChrMapping, JsonError>

  /**
   * The brace-counting loop over the array text, from index `i` on: each time the count
   * drops back to 0 the text since `start` is trimmed and, unless empty, read as one
   * mapping by `readObject`; a mapping that fails to read aborts the whole read.
   */
  function SplitObjects(content: string, i: nat, depth: int, start: nat, readObject: ObjectReader): (r: Result<seq<SmartChrMapping>, JsonError>)
    requires SplitterState(content, i, start)
    ensures r.Success? ==> |r.value| <= |content| - i
    decreases |content| - i
  {
    if i == |content| then Success([])
    else if content[i] == '{' then
      SplitObjects(content, i + 1, depth + 1, start, readObject)
    else if content[i] == '}' then
      if depth - 1 == 0 then
        var objectJson := Trim(content[start..i + 1]);
        var next := SkipSeparators(content, i + 1);
        if |objectJson| > 0 then
          match readObject(objectJson)
          case Failure(e) => Failure(e)
          case Success(m) =>
            match SplitObjects(content, i + 1, 0, next, readObject)
            case Failure(e) => Failure(e)
            case Success(rest) => Success([m] + rest)
        else SplitObjects(content, i + 1, 0, next, readObject)
      else SplitObjects(content, i + 1, depth - 1, start, readObject)
    else SplitObjects(content, i + 1, depth, start, readObject)
  }

  /** `parseJsonToMappings`. */
  function ParseJson(json: string): (r: Result<seq<SmartChrMapping>, JsonError>)
    ensures var t := Trim(json);
            !(|t| > 0 && t[0] == '{' && t[|t| - 1] == '}') ==> r == Failure(InvalidFormat)
    ensures !IsValidJsonStructure(json) ==> r.Failure?
    ensures var t := Trim(json);
            (&& |t| > 0 && t[0] == '{' && t[|t| - 1] == '}' && IsValidJsonStructure(json)
             && IndexOf(json, "\"mappings\"", 0).None?) ==> r == Success([])
  {
    var trimmed := Trim(json);
    if !(StartsWith(trimmed, "{") && |trimmed| > 0 && trimmed[|trimmed| - 1] == '}') then
      Failure(InvalidFormat)
    else if !IsValidJsonStructure(json) then
      Failure(InvalidStructure)
    else
      match IndexOf(json, "\"mappings\"", 0)
      case None => Success([])
      case Some(mappingsStart) => ReadMappingsArray(json, mappingsStart)
  }

  /**
   * The part of `parseJsonToMappings` after `"mappings"` was found at `mappingsStart`: the
   * array text lies between the first `[` after the name and the last `]` of the document.
   */
  function ReadMappingsArray(json: string, mappingsStart: nat): Result<seq<SmartChrMapping>, JsonError> {
    var arrayStart := IndexOfChar(json, '[', mappingsStart);
    var arrayEnd := LastIndexOfChar(json, ']');
    if arrayStart.None? || arrayEnd.None? then Success([])
    else if arrayStart.value + 1 > arrayEnd.value then Failure(BadRange)
    else
      var content := Trim(json[arrayStart.value + 1..arrayEnd.value]);
      if |content| == 0 then Success([])
      else SplitObjects(content, 0, 0, 0, ParseSingleMapping)
  }

  /** A trimmed document that starts with `{` passes the prefix test of `parseJsonToMappings`. */
  lemma FramedStartsWithBrace(json: string)
    requires var t := Trim(json); |t| > 0 && t[0] == '{'
    ensures StartsWith(Trim(json), "{")
  {
    var t := Trim(json);
    assert t[..1] == "{";
  }

  /** The document facts under which `parseJsonToMappings` goes on to read the array. */
  predicate ReadsArray(json: string, mappingsStart: nat)
  {
    && (var t := Trim(json); |t| > 0 && t[0] == '{' && t[|t| - 1] == '}')
    && IsValidJsonStructure(json)
    && IndexOf(json, "\"mappings\"", 0) == Some(mappingsStart)
  }

  /** Past its checks, `parseJsonToMappings` is the array reading. */
  lemma ParseJsonReadsArray(json: string, mappingsStart: nat)
    requires ReadsArray(json, mappingsStart)
    ensures ParseJson(json) == ReadMappingsArray(json, mappingsStart)
  {
    FramedStartsWithBrace(json);
  }

  /**
   * Once the document is framed, has a key and names `"mappings"`, the array is read between
   * the first `[` after that name and the last `]` of the document: with either bracket
   * missing there are no mappings, and brackets in the wrong order are an error.
   */
  lemma ParseJsonMissingBracket(json: string, mappingsStart: nat)
    requires ReadsArray(json, mappingsStart)
    ensures IndexOfChar(json, '[', mappingsStart).None? ==> ParseJson(json) == Success([])
    ensures LastIndexOfChar(json, ']').None? ==> ParseJson(json) == Success([])
    ensures var a := IndexOfChar(json, '[', mappingsStart);
            var b := LastIndexOfChar(json, ']');
            a.Some? && b.Some? && a.value + 1 > b.value ==> ParseJson(json) == Failure(BadRange)
  {
    ParseJsonReadsArray(json, mappingsStart);
  }

  /**
   * Between the two brackets, only whitespace means no mappings; anything else is split into
   * objects and each object is read by `parseSingleMapping`.
   */
  lemma ParseJsonArrayContent(json: string, mappingsStart: nat)
    requires ReadsArray(json, mappingsStart)
    ensures var a := IndexOfChar(json, '[', mappingsStart);
            var b := LastIndexOfChar(json, ']');
            a.Some? && b.Some? && a.value + 1 <= b.value && |Trim(json[a.value + 1..b.value])| == 0
            ==> ParseJson(json) == Success([])
    ensures var a := IndexOfChar(json, '[', mappingsStart);
            var b := LastIndexOfChar(json, ']');
            a.Some? && b.Some? && a.value + 1 <= b.value && |Trim(json[a.value + 1..b.value])| > 0
            ==> ParseJson(json) == SplitObjects(Trim(json[a.value + 1..b.value]), 0, 0, 0, ParseSingleMapping)
  {
    ParseJsonReadsArray(json, mappingsStart);
  }
}
