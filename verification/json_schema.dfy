/**
 The dict-driven half of the commented-JSON schema formatter: a JSON schema
 (as produced by `model_json_schema()`) is rendered as a JSON-like template
 whose lines carry `// type - description` comments.
 */
module JsonSchema {
  import opened Wrappers
  import opened Text

  /** A JSON value, as a schema's "default" entry may hold one. */
  datatype JsonValue =
    | JString(str: string)
    | JBool(b: bool)
    | JNull
    | JInt(i: int)
    | JArray(elements: seq<JsonValue>)
    | JObject(members: seq<Member>)

  datatype Member = Member(key: string, value: JsonValue)

  /** One entry of a schema's "properties" object. */
  datatype Property = Property(name: string, schema: Schema)

  /** The entries of a "properties" object, in their original order. */
  datatype Properties = Properties(entries: seq<Property>)

  /**
   The keys of a schema dict the formatter reads. An absent key is `None`;
   an absent "required" reads as the empty list, as `schema.get("required", [])` does.
   */
  datatype Schema = Schema(
    schemaType: Option<string>,
    properties: Option<Properties>,
    required: seq<string>,
    items: Option<Schema>,
    anyOf: Option<seq<Schema>>,
    defaultValue: Option<JsonValue>,
    description: Option<string>)

  /** The `{}` used when "items" is absent. */
  const EmptySchema: Schema := Schema(None, None, [], None, None, None, None)

  /** `schema.get("type") == t`. */
  predicate HasType(s: Schema, t: string) {
    s.schemaType == Some(t)
  }

  /** `schema.get("type")` is truthy: present and not the empty string. */
  predicate HasTruthyType(s: Schema) {
    s.schemaType.Some? && s.schemaType.value != ""
  }

  /** `type == "object" or "properties" in schema`. */
  predicate IsObjectLike(s: Schema) {
    HasType(s, "object") || s.properties.Some?
  }

  /** `field_schema.get("items", {})`. */
  function ArrayItems(s: Schema): (r: Schema)
    ensures s.items.Some? ==> r == s.items.value
    ensures s.items.None? ==> r == EmptySchema
  {
    if s.items.Some? then s.items.value else EmptySchema
  }

  function Quote(s: string): string {
    "\"" + s + "\""
  }

  // ---------------------------------------------------------------------
  // `_get_field_type`

  /** The truthy "type" values of the anyOf options, in order. */
  function OptionTypes(options: seq<Schema>): (r: seq<string>)
    ensures |r| <= |options|
    ensures forall k :: 0 <= k < |r| ==> r[k] != ""
    ensures |options| == 1 ==> r == if HasTruthyType(options[0]) then [options[0].schemaType.value] else []
    decreases |options|
  {
    if |options| == 0 then []
    else
      var rest := OptionTypes(options[1..]);
      assert forall k :: 1 <= k < |options| ==> options[k] == options[1..][k - 1];
      if HasTruthyType(options[0]) then [options[0].schemaType.value] + rest else rest
  }

  /** Every typed option contributes its type, and the list is empty exactly
      when no option is typed. */
  lemma {:induction false} OptionTypesCollects(options: seq<Schema>)
    ensures forall k :: 0 <= k < |options| && HasTruthyType(options[k]) ==> options[k].schemaType.value in OptionTypes(options)
    ensures (forall k :: 0 <= k < |options| ==> !HasTruthyType(options[k])) <==> OptionTypes(options) == []
    decreases |options|
  {
    if |options| > 0 {
      var rest := options[1..];
      OptionTypesCollects(rest);
      assert forall k :: 1 <= k < |options| ==> options[k] == rest[k - 1];
    }
  }

  /** Collecting over two runs of options is collecting over each in turn:
      with the one-option case this pins down every label and its position. */
  lemma {:induction false} OptionTypesAppend(a: seq<Schema>, b: seq<Schema>)
    ensures OptionTypes(a + b) == OptionTypes(a) + OptionTypes(b)
    decreases |a|
  {
    if |a| == 0 {
      assert a + b == b;
    } else {
      var head := if HasTruthyType(a[0]) then [a[0].schemaType.value] else [];
      OptionTypesAppend(a[1..], b);
      assert (a + b)[1..] == a[1..] + b;
      assert OptionTypes(a + b) == head + OptionTypes(a[1..] + b);
      assert OptionTypes(a) == head + OptionTypes(a[1..]);
    }
  }

  lemma {:induction false} JoinNonEmpty(parts: seq<string>, sep: string)
    requires |parts| > 0 && parts[0] != ""
    ensures Join(parts, sep) != ""
  {
    if |parts| >= 2 {
      JoinFirst(parts, sep);
    }
  }

  /** The type label written in a field's comment; never empty. */
  function FieldType(fs: Schema): (r: string)
    ensures r != ""
  {
    if HasType(fs, "array") then
      var items := ArrayItems(fs);
      if HasType(items, "object") then "object[]"
      else if HasTruthyType(items) then items.schemaType.value + "[]"
      else "array"
    else if IsObjectLike(fs) then "object"
    else if HasTruthyType(fs) then fs.schemaType.value
    else if fs.anyOf.Some? then
      var types := OptionTypes(fs.anyOf.value);
      if |types| > 0 then
        JoinNonEmpty(types, " | ");
        Join(types, " | ")
      else "any"
    else "any"
  }

  /** The label of every kind of field: an array is labelled by its items' type
      (`object[]`, `<type>[]`, or `array` when the items are untyped); any other
      object-like field is `object`; any other typed field is its type; an
      untyped `anyOf` joins its typed options with ` | ` (`any` when none is
      typed); everything else is `any`. */
  lemma FieldTypeLabels(fs: Schema)
    ensures HasType(fs, "array") && fs.items.Some? && HasType(fs.items.value, "object") ==> FieldType(fs) == "object[]"
    ensures && HasType(fs, "array") && fs.items.Some? && HasTruthyType(fs.items.value)
            && !HasType(fs.items.value, "object")
            ==> FieldType(fs) == fs.items.value.schemaType.value + "[]"
    ensures HasType(fs, "array") && (fs.items.None? || !HasTruthyType(fs.items.value)) ==> FieldType(fs) == "array"
    ensures !HasType(fs, "array") && IsObjectLike(fs) ==> FieldType(fs) == "object"
    ensures !HasType(fs, "array") && !IsObjectLike(fs) && HasTruthyType(fs) ==> FieldType(fs) == fs.schemaType.value
    ensures !HasTruthyType(fs) && fs.properties.None? && fs.anyOf.Some? ==>
      FieldType(fs) == if OptionTypes(fs.anyOf.value) == [] then "any" else Join(OptionTypes(fs.anyOf.value), " | ")
    ensures !HasTruthyType(fs) && fs.properties.None? && fs.anyOf.None? ==> FieldType(fs) == "any"
  {
  }

  // ---------------------------------------------------------------------
  // `_get_default_value`

  /** The text for an explicit "default", by the kind of its value. It reads
      back as that value, with arrays and objects emptied, unless it is a string
      holding a double quote (the source does no escaping). */
  function LiteralText(v: JsonValue): (r: string)
    ensures (v.JString? ==> '"' !in v.str) ==> ParseLiteral(r) == Some(Emptied(v))
  {
    match v
    case JString(s) => QuotedReadsBack(s); Quote(s)
    case JBool(b) => if b then "true" else "false"
    case JNull => "null"
    case JInt(i) => DecimalReadsBack(i); IntToDecimal(i)
    case JArray(_) => "[]"
    case JObject(_) => "{}"
  }

  /** The placeholder value written for a field: the explicit default when there
      is one, otherwise the placeholder of the field's type. `isRequired` is
      accepted and ignored, as in the source. */
  function DefaultText(fs: Schema, isRequired: bool): (r: string)
    ensures fs.defaultValue.Some? && (fs.defaultValue.value.JString? ==> '"' !in fs.defaultValue.value.str)
            ==> ParseLiteral(r) == Some(Emptied(fs.defaultValue.value))
    ensures fs.defaultValue.None? ==> ParseLiteral(r) == Some(TypePlaceholder(fs))
  {
    if fs.defaultValue.Some? then LiteralText(fs.defaultValue.value)
    else if HasType(fs, "string") then QuotedReadsBack(""); Quote("")
    else if HasType(fs, "number") || HasType(fs, "integer") then DecimalReadsBack(0); "0"
    else if HasType(fs, "boolean") then "false"
    else if HasType(fs, "array") then "[]"
    else if IsObjectLike(fs) then "{}"
    else QuotedReadsBack(""); Quote("")
  }

  /** A reader for the scalar JSON texts the formatter writes. */
  function ParseLiteral(t: string): Option<JsonValue> {
    if t == "null" then Some(JNull)
    else if t == "true" then Some(JBool(true))
    else if t == "false" then Some(JBool(false))
    else if t == "[]" then Some(JArray([]))
    else if t == "{}" then Some(JObject([]))
    else if |t| >= 2 && t[0] == '"' && t[|t| - 1] == '"' && '"' !in t[1..|t| - 1] then Some(JString(t[1..|t| - 1]))
    else if IsDigits(t) && (|t| > 1 ==> t[0] != '0') then Some(JInt(DecimalValue(t)))
    else if |t| >= 2 && t[0] == '-' && IsDigits(t[1..]) && t[1] != '0' then Some(JInt(-(DecimalValue(t[1..]) as int)))
    else None
  }

  /** What a rendered default denotes: the value itself, with arrays and objects emptied. */
  function Emptied(v: JsonValue): JsonValue {
    match v
    case JArray(_) => JArray([])
    case JObject(_) => JObject([])
    case _ => v
  }

  /** The value a field without an explicit default is shown with, by its type. */
  function TypePlaceholder(fs: Schema): JsonValue {
    if HasType(fs, "string") then JString("")
    else if HasType(fs, "number") || HasType(fs, "integer") then JInt(0)
    else if HasType(fs, "boolean") then JBool(false)
    else if HasType(fs, "array") then JArray([])
    else if IsObjectLike(fs) then JObject([])
    else JString("")
  }

  lemma QuotedReadsBack(str: string)
    ensures '"' !in str ==> ParseLiteral(Quote(str)) == Some(JString(str))
  {
    var t := Quote(str);
    assert t[0] == '"' && t[1..|t| - 1] == str;
    assert !IsDigits(t);
    assert t != "null" && t != "true" && t != "false" && t != "[]" && t != "{}";
  }

  lemma DecimalReadsBack(i: int)
    ensures ParseLiteral(IntToDecimal(i)) == Some(JInt(i))
  {
    var t := IntToDecimal(i);
    assert t != "null" && t != "true" && t != "false" && t != "[]" && t != "{}" by {
      assert t[0] == '-' || '0' <= t[0] <= '9';
    }
    if i < 0 {
      assert !IsDigits(t) by { assert t[0] == '-'; }
      assert t[0] != '"';
    }
  }

  /** The default text never depends on whether the field is required. */
  lemma DefaultTextIgnoresRequired(fs: Schema, isRequired: bool)
    ensures DefaultText(fs, isRequired) == DefaultText(fs, !isRequired)
  {
  }

  // ---------------------------------------------------------------------
  // `_format_field` and `_convert_schema_to_commented_json`

  /** `f" - {description}" if description else ""`. */
  function DescriptionPart(fs: Schema): (r: string)
    ensures r == "" <==> fs.description.None? || fs.description.value == ""
    ensures r != "" ==> r == " - " + fs.description.value
  {
    if fs.description.Some? && fs.description.value != "" then " - " + fs.description.value else ""
  }

  /** The names listed under "required". */
  function RequiredSet(s: Schema): set<string> {
    set name | name in s.required
  }

  /** The nested lines with the first one shifted right by `indent` columns. */
  function IndentFirstLine(lines: seq<string>, indent: int): seq<string> {
    if |lines| == 0 then [] else [Spaces(indent) + lines[0]] + lines[1..]
  }

  /** The line(s) of one field at nesting `level`. */
  function FormatField(name: string, fs: Schema, required: set<string>, indent: int, level: int): (r: string)
    ensures |r| >= |Spaces(level * indent)| + |name| + 4
    ensures r[..|Spaces(level * indent)| + |name| + 4] == Spaces(level * indent) + Quote(name) + ": "
    decreases fs, 3
  {
    var base := Spaces(level * indent);
    var fieldType := FieldType(fs);
    var defaultValue := DefaultText(fs, name in required);
    var descriptionPart := DescriptionPart(fs);
    var head := base + Quote(name) + ": ";
    assert |head| == |base| + |name| + 4;
    if HasType(fs, "array") then
      var arrayItems := ArrayItems(fs);
      if HasType(arrayItems, "object") then
        assert arrayItems == fs.items.value;
        var nested := ConvertSchema(arrayItems, indent, level + 1);
        var nestedContent := Join(IndentFirstLine(Split(nested, '\n'), indent), "\n");
        var body := "[ // " + fieldType + descriptionPart + "\n" + base + nestedContent + "\n" + base + "]";
        var r := head + body;
        assert r[..|head|] == head;
        r
      else
        var r := head + defaultValue + (" // " + fieldType + descriptionPart);
        assert r[..|head|] == head;
        r
    else if IsObjectLike(fs) then
      var nested := ConvertSchema(fs, indent, level);
      var r := head + nested + (" // object" + descriptionPart);
      assert r[..|head|] == head;
      r
    else
      var r := head + defaultValue + (" // " + fieldType + descriptionPart);
      assert r[..|head|] == head;
      r
  }

  /** The rendering of a schema at nesting `level`: `{}` without "properties",
      otherwise an opening line, one entry per property and a closing line. */
  function ConvertSchema(s: Schema, indent: int, level: int): (r: string)
    ensures s.properties.None? ==> r == "{}"
    ensures s.properties.Some? ==>
      var close := Spaces(level * indent) + "}";
      && |r| >= 2 + |close|
      && r[..2] == "{\n"
      && r[|r| - |close| - 1..] == "\n" + close
    decreases s, 2
  {
    if s.properties.None? then "{}"
    else
      var lines := ObjectLines(s, indent, level);
      var close := Spaces(level * indent) + "}";
      JoinFirst(lines, "\n");
      JoinLast(lines, "\n");
      var r := Join(lines, "\n");
      assert r == "{" + "\n" + Join(lines[1..], "\n");
      assert r == Join(lines[..|lines| - 1], "\n") + "\n" + close;
      r
  }

  /** The `lines` list before it is joined: an opening brace, one entry per
      property and a closing brace at the schema's own indentation. */
  function ObjectLines(s: Schema, indent: int, level: int): (lines: seq<string>)
    requires s.properties.Some?
    ensures |lines| == |s.properties.value.entries| + 2
    ensures lines[0] == "{"
    ensures lines[|lines| - 1] == Spaces(level * indent) + "}"
    decreases s, 1
  {
    ["{"] + Separated(Entries(s, indent, level)) + [Spaces(level * indent) + "}"]
  }

  /** The rendering of every property at nesting `level + 1`, in property order. */
  function Entries(s: Schema, indent: int, level: int): (entries: seq<string>)
    requires s.properties.Some?
    ensures |entries| == |s.properties.value.entries|
    decreases s, 0
  {
    var props := s.properties.value.entries;
    var required := RequiredSet(s);
    seq(|props|, k requires 0 <= k < |props| => FormatField(props[k].name, props[k].schema, required, indent, level + 1))
  }

  /** The property loop's separators: a comma after every entry but the last. */
  function Separated(entries: seq<string>): (lines: seq<string>)
    ensures |lines| == |entries|
  {
    if |entries| == 0 then []
    else [if |entries| == 1 then entries[0] else entries[0] + ","] + Separated(entries[1..])
  }

  /** Entry `k` keeps its position and gets a comma exactly when it is not the last. */
  lemma {:induction false} SeparatedLayout(entries: seq<string>, k: nat)
    requires k < |entries|
    ensures Separated(entries)[k] == if k == |entries| - 1 then entries[k] else entries[k] + ","
    decreases k
  {
    if k > 0 {
      SeparatedLayout(entries[1..], k - 1);
      assert Separated(entries)[k] == Separated(entries[1..])[k - 1];
    }
  }

  /** The layout of a rendered object: the first line is `{`, the last is the
      closing brace indented to `level`, and between them the properties in
      order, every one but the last followed by a comma. */
  lemma ObjectLayout(s: Schema, indent: int, level: int)
    requires s.properties.Some?
    ensures var lines := ObjectLines(s, indent, level);
            var props := s.properties.value.entries;
            var n := |props|;
            && lines[0] == "{"
            && lines[n + 1] == Spaces(level * indent) + "}"
            && forall k :: 0 <= k < n ==>
                 var entry := FormatField(props[k].name, props[k].schema, RequiredSet(s), indent, level + 1);
                 lines[k + 1] == if k == n - 1 then entry else entry + ","
  {
    var lines := ObjectLines(s, indent, level);
    var props := s.properties.value.entries;
    var entries := Entries(s, indent, level);
    forall k | 0 <= k < |props|
      ensures var entry := FormatField(props[k].name, props[k].schema, RequiredSet(s), indent, level + 1);
              lines[k + 1] == if k == |props| - 1 then entry else entry + ","
    {
      SeparatedLayout(entries, k);
      assert lines[k + 1] == Separated(entries)[k];
      assert entries[k] == FormatField(props[k].name, props[k].schema, RequiredSet(s), indent, level + 1);
    }
  }

  /** Every field except an array of objects is the indented name, then the
      value (the default text for a primitive or an array of primitives, the
      nested rendering at the same level for an object, which spans that
      rendering's lines), then the comment ` // <type label>` followed by the
      description part. */
  lemma FieldLine(name: string, fs: Schema, required: set<string>, indent: int, level: int)
    requires !(HasType(fs, "array") && HasType(ArrayItems(fs), "object"))
    ensures var head := Spaces(level * indent) + Quote(name) + ": ";
            var value := if HasType(fs, "array") || !IsObjectLike(fs) then DefaultText(fs, name in required)
                         else ConvertSchema(fs, indent, level);
            FormatField(name, fs, required, indent, level) == head + value + (" // " + FieldType(fs) + DescriptionPart(fs))
  {
    if !HasType(fs, "array") && IsObjectLike(fs) {
      assert FieldType(fs) == "object";
    }
  }

  /** So every such field ends its line with the comment. */
  lemma FieldCommentSuffix(name: string, fs: Schema, required: set<string>, indent: int, level: int)
    requires !(HasType(fs, "array") && HasType(ArrayItems(fs), "object"))
    ensures var r := FormatField(name, fs, required, indent, level);
            var comment := " // " + FieldType(fs) + DescriptionPart(fs);
            |r| >= |comment| && r[|r| - |comment|..] == comment
  {
    var r := FormatField(name, fs, required, indent, level);
    var comment := " // " + FieldType(fs) + DescriptionPart(fs);
    FieldLine(name, fs, required, indent, level);
    var prefix := r[..|r| - |comment|];
    assert r == prefix + comment;
  }

  /** Splitting the nested rendering into lines, indenting the first and joining
      them again only shifts the whole text right by `indent` columns. */
  lemma IndentFirstLineShifts(nested: string, indent: int)
    ensures Join(IndentFirstLine(Split(nested, '\n'), indent), "\n") == Spaces(indent) + nested
  {
    var lines := Split(nested, '\n');
    JoinSplit(nested, '\n');
    if |lines| >= 2 {
      var shifted := IndentFirstLine(lines, indent);
      JoinFirst(shifted, "\n");
      JoinFirst(lines, "\n");
      assert shifted[1..] == lines[1..];
    }
  }

  /** An array-of-objects field opens a bracket on its own line, holds the
      nested object indented one step further, and closes the bracket on a
      line of its own at the field's indentation. */
  lemma ArrayOfObjectsLayout(name: string, fs: Schema, required: set<string>, indent: int, level: int)
    requires HasType(fs, "array") && fs.items.Some? && HasType(fs.items.value, "object")
    ensures var base := Spaces(level * indent);
            var nested := ConvertSchema(fs.items.value, indent, level + 1);
            FormatField(name, fs, required, indent, level)
              == base + Quote(name) + ": "
                 + ("[ // " + "object[]" + DescriptionPart(fs) + "\n" + base + (Spaces(indent) + nested) + "\n" + base + "]")
  {
    var nested := ConvertSchema(fs.items.value, indent, level + 1);
    assert ArrayItems(fs) == fs.items.value;
    assert FieldType(fs) == "object[]";
    IndentFirstLineShifts(nested, indent);
  }
}
