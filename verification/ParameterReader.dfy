// How the vCard decoder reads parameters; what it leaves in names and values.
module ParameterReader {
  import opened Sequences
  import opened Vcard
  import opened FieldEquality

  // strings.Split(s, ",")
  function Split(s: string): (r: seq<string>)
    ensures r != []
  {
    if s == "" then [""]
    else
      var rest := Split(s[1..]);
      if s[0] == ',' then [""] + rest else [[s[0]] + rest[0]] + rest[1..]
  }

  // parseValue: the escapes for backslash, newline and comma.
  function Unescape(s: string): string {
    if s == "" then ""
    else if |s| >= 2 && s[0] == '\\' && s[1] == '\\' then "\\" + Unescape(s[2..])
    else if |s| >= 2 && s[0] == '\\' && s[1] == 'n' then "\n" + Unescape(s[2..])
    else if |s| >= 2 && s[0] == '\\' && s[1] == ',' then "," + Unescape(s[2..])
    else [s[0]] + Unescape(s[1..])
  }

  function UnescapeAll(parts: seq<string>): (r: seq<string>)
    ensures |r| == |parts| && forall i | 0 <= i < |parts| :: r[i] == Unescape(parts[i])
  {
    seq(|parts|, i requires 0 <= i < |parts| => Unescape(parts[i]))
  }

  // The values of one parameter, from its text with any quotes resolved: split first,
  // unescaped second.
  function ReadValues(text: Option<string>): seq<string> {
    match text
    case None => []
    case Some(t) => UnescapeAll(Split(t))
  }

  function UpperChar(c: char): char {
    if 'a' <= c <= 'z' then c - 'a' + 'A' else c
  }

  // The name ends at the first of "=;:" and is upper-cased (ASCII).
  function ReadName(s: string): string {
    if s == "" || s[0] == '=' || s[0] == ';' || s[0] == ':' then "" else [UpperChar(s[0])] + ReadName(s[1..])
  }

  // One parameter as it stands on a line: the text from its name on, and its value text,
  // which is missing when the line ends at the '='.
  datatype RawParam = RawParam(head: string, text: Option<string>)

  function AddParam(params: map<string, seq<string>>, raw: RawParam): map<string, seq<string>> {
    params[ReadName(raw.head) := ParamValues(params, ReadName(raw.head)) + ReadValues(raw.text)]
  }

  function ReadParams(raws: seq<RawParam>): map<string, seq<string>> {
    if raws == [] then map[] else AddParam(ReadParams(raws[..|raws| - 1]), raws[|raws| - 1])
  }

  lemma {:induction false} SplitHasNoComma(s: string)
    ensures forall v | v in Split(s) :: ',' !in v
  {
    if s != "" {
      SplitHasNoComma(s[1..]);
      var rest := Split(s[1..]);
      assert rest[0] in rest;
      assert forall v | v in rest[1..] :: v in rest;
    }
  }

  lemma {:induction false} UnescapeAddsNoComma(s: string)
    requires ',' !in s
    ensures ',' !in Unescape(s)
    decreases |s|
  {
    if |s| >= 2 && s[0] == '\\' && (s[1] == '\\' || s[1] == 'n') {
      UnescapeAddsNoComma(s[2..]);
    } else if s != "" {
      UnescapeAddsNoComma(s[1..]);
    }
  }

  // Quoting a comma does not protect it, and neither does a backslash: no value read from
  // a line holds one.
  lemma ValuesHaveNoComma(text: Option<string>)
    ensures forall v | v in ReadValues(text) :: ',' !in v
  {
    if text.Some? {
      var parts := Split(text.value);
      SplitHasNoComma(text.value);
      forall v | v in ReadValues(text) ensures ',' !in v {
        var i :| 0 <= i < |parts| && ReadValues(text)[i] == v;
        assert parts[i] in parts;
        UnescapeAddsNoComma(parts[i]);
      }
    }
  }

  lemma {:induction false} NameHasNoEquals(s: string)
    ensures '=' !in ReadName(s)
  {
    if s != "" {
      NameHasNoEquals(s[1..]);
    }
  }

  // Every field the decoder delivers is Decoded, whatever is on the line.
  lemma {:induction false} FieldsAreDecoded(value: string, group: string, raws: seq<RawParam>)
    ensures Decoded(Field(value, ReadParams(raws), group))
  {
    if raws != [] {
      var rest, raw := raws[..|raws| - 1], raws[|raws| - 1];
      FieldsAreDecoded(value, group, rest);
      assert forall p | p in Field(value, ReadParams(rest), group).params :: p in ReadParams(rest);
      NameHasNoEquals(raw.head);
      ValuesHaveNoComma(raw.text);
    }
  }

  // A name is read up to its separator, in upper case.
  lemma {:induction false} NameReads(name: string, separator: char, rest: string)
    requires separator == '=' || separator == ';' || separator == ':'
    requires '=' !in name && ';' !in name && ':' !in name
    ensures var r := ReadName(name + [separator] + rest);
            |r| == |name| && forall i | 0 <= i < |name| :: r[i] == UpperChar(name[i])
  {
    var line := name + [separator] + rest;
    if name == "" {
      assert line[0] == separator;
    } else {
      NameReads(name[1..], separator, rest);
      assert line[0] == name[0] && line[1..] == name[1..] + [separator] + rest;
    }
  }

  function ValuesFor(raw: RawParam, name: string): seq<string> {
    if name == ReadName(raw.head) then ReadValues(raw.text) else []
  }

  lemma ParamAdded(params: map<string, seq<string>>, raw: RawParam, name: string)
    ensures ParamValues(AddParam(params, raw), name) == ParamValues(params, name) + ValuesFor(raw, name)
  {
  }

  lemma ParamLast(raws: seq<RawParam>, raw: RawParam)
    ensures ReadParams(raws + [raw]) == AddParam(ReadParams(raws), raw)
  {
    assert (raws + [raw])[..|raws|] == raws;
  }

  // Parameters of the same name are collected in order.
  lemma {:induction false} ParamsCollect(a: seq<RawParam>, b: seq<RawParam>, name: string)
    ensures ParamValues(ReadParams(a + b), name) == ParamValues(ReadParams(a), name) + ParamValues(ReadParams(b), name)
    decreases |b|
  {
    if b == [] {
      assert a + b == a;
    } else {
      var rest, raw := b[..|b| - 1], b[|b| - 1];
      ParamsCollect(a, rest, name);
      FrontLast(b);
      Appended(a, rest, [raw]);
      ParamsCollectOne(a + rest, raw, name);
      ParamsCollectOne(rest, raw, name);
      Appended(ParamValues(ReadParams(a), name), ParamValues(ReadParams(rest), name), ValuesFor(raw, name));
    }
  }

  lemma ParamsCollectOne(raws: seq<RawParam>, raw: RawParam, name: string)
    ensures ParamValues(ReadParams(raws + [raw]), name) == ParamValues(ReadParams(raws), name) + ValuesFor(raw, name)
  {
    ParamLast(raws, raw);
    ParamAdded(ReadParams(raws), raw, name);
  }

  lemma ParamAlone(raw: RawParam, name: string)
    ensures ParamValues(ReadParams([raw]), name) == ValuesFor(raw, name)
  {
    assert [raw][..0] == [];
  }

  // ---- What was written is read back ------------------------------------------------

  // formatValue, the encoder's inverse of parseValue.
  function FormatValue(s: string): string {
    if s == "" then ""
    else (if s[0] == '\\' then "\\\\" else if s[0] == '\n' then "\\n" else if s[0] == ',' then "\\," else [s[0]]) + FormatValue(s[1..])
  }

  // No text is changed by being written and read as a property value.
  lemma {:induction false} ValueReadsBack(s: string)
    ensures Unescape(FormatValue(s)) == s
  {
    if s != "" {
      ValueReadsBack(s[1..]);
      var rest := FormatValue(s[1..]);
      var f := FormatValue(s);
      if s[0] == '\\' || s[0] == '\n' || s[0] == ',' {
        assert f[2..] == rest;
      } else {
        assert f == [s[0]] + rest && f[1..] == rest;
      }
      assert s == [s[0]] + s[1..];
    }
  }

  lemma {:induction false} FormatAddsNoComma(s: string)
    ensures ',' in FormatValue(s) <==> ',' in s
  {
    if s != "" {
      FormatAddsNoComma(s[1..]);
      assert s == [s[0]] + s[1..];
    }
  }

  lemma {:induction false} SplitWhole(s: string)
    ensures |Split(s)| == 1 <==> ',' !in s
    ensures ',' !in s ==> Split(s) == [s]
  {
    if s != "" {
      SplitWhole(s[1..]);
      assert s == [s[0]] + s[1..];
    }
  }

  // Splitting loses nothing but the commas.
  lemma {:induction false} SplitJoins(s: string)
    ensures Join(Split(s)) == s
  {
    if s != "" {
      SplitJoins(s[1..]);
      var rest := Split(s[1..]);
      assert s == [s[0]] + s[1..];
      if s[0] == ',' {
        assert ([""] + rest)[1..] == rest;
      } else {
        assert ([[s[0]] + rest[0]] + rest[1..])[1..] == rest[1..];
      }
    }
  }

  // As a parameter value, a text is read back as it was written exactly when it has no
  // comma: escaping protects a comma in a property value only.
  lemma ParameterReadsBackExactly(v: string)
    ensures ReadValues(Some(FormatValue(v))) == [v] <==> ',' !in v
  {
    var text := FormatValue(v);
    FormatAddsNoComma(v);
    SplitWhole(text);
    ValueReadsBack(v);
    assert |ReadValues(Some(text))| == |Split(text)|;
    if ',' !in v {
      assert ReadValues(Some(text)) == [Unescape(text)];
    }
  }
}
