/**
 The default dialect of Python's csv module: a writer that quotes only where it must
 (section 2 of RFC 4180, records end in CR LF) and the reader's character machine.
 */
module CsvFormat {
  import opened Prelude

  // csv.field_size_limit(): the reader refuses longer fields.
  const FIELD_LIMIT: nat := 131072

  // ---------------------------------------------------------------- writing

  predicate IsNewline(c: char) {
    c == '\r' || c == '\n'
  }

  predicate IsSpecial(c: char) {
    c == ',' || c == '"' || IsNewline(c)
  }

  predicate IsBare(f: string) {
    forall i :: 0 <= i < |f| ==> !IsSpecial(f[i])
  }

  function Doubled(f: string): string {
    if f == [] then [] else (if f[0] == '"' then "\"\"" else [f[0]]) + Doubled(f[1..])
  }

  function Quoted(f: string): string {
    "\"" + Doubled(f) + "\""
  }

  function FieldText(f: string): string {
    if IsBare(f) then f else Quoted(f)
  }

  function FieldsText(fields: seq<string>): string {
    if fields == [] then ""
    else if |fields| == 1 then FieldText(fields[0])
    else FieldText(fields[0]) + "," + FieldsText(fields[1..])
  }

  /** One record; a lone empty field is quoted so that its line is not blank. */
  function RowText(fields: seq<string>): string {
    (if fields == [""] then Quoted("") else FieldsText(fields)) + "\r\n"
  }

  lemma {:induction false} DoubledLength(f: string)
    ensures |f| <= |Doubled(f)|
  {
    if f != [] { DoubledLength(f[1..]); }
  }

  /** A field is quoted exactly when it contains a comma, a quote, a CR or an LF, and a record only
      adds commas between its fields and CR LF after them. */
  lemma QuotedOnlyWhereNeeded(f: string, more: seq<string>)
    ensures FieldText(f) == f <==> ',' !in f && '"' !in f && '\r' !in f && '\n' !in f
    ensures FieldText(f) != f ==> 2 <= |FieldText(f)| && FieldText(f)[0] == '"' && Last(FieldText(f)) == '"'
    ensures f != "" ==> RowText([f]) == FieldText(f) + "\r\n"
    ensures RowText([""]) == "\"\"\r\n"
    ensures more != [] ==> RowText([f] + more) == FieldText(f) + "," + FieldsText(more) + "\r\n"
  {
    DoubledLength(f);
    assert IsBare(f) <==> ',' !in f && '"' !in f && '\r' !in f && '\n' !in f;
    assert ([f] + more)[1..] == more;
    assert Quoted("") == "\"\"";
  }

  // ---------------------------------------------------------------- reading

  datatype Mode = StartRecord | StartField | InField | InQuoted | QuoteInQuoted | EatNewline

  /** The reader in mid-text, or stopped by a csv.Error. */
  datatype Reader =
    | Reading(mode: Mode, field: string, fields: seq<string>, records: seq<seq<string>>)
    | Failed

  function Fresh(records: seq<seq<string>>): Reader {
    Reading(StartRecord, "", [], records)
  }

  function AddChar(r: Reader, c: char, mode: Mode): Reader
    requires r.Reading?
  {
    if |r.field| >= FIELD_LIMIT then Failed else r.(field := r.field + [c], mode := mode)
  }

  function SaveField(r: Reader, mode: Mode): Reader
    requires r.Reading?
  {
    r.(fields := r.fields + [r.field], field := "", mode := mode)
  }

  function FirstOfField(r: Reader, c: char): Reader
    requires r.Reading?
  {
    if IsNewline(c) then SaveField(r, EatNewline)
    else if c == '"' then r.(mode := InQuoted)
    else if c == ',' then SaveField(r, StartField)
    else AddChar(r, c, InField)
  }

  function OnChar(r: Reader, c: char): Reader {
    if r.Failed? then r else
    match r.mode
    case StartRecord => if IsNewline(c) then r.(mode := EatNewline) else FirstOfField(r, c)
    case StartField => FirstOfField(r, c)
    case InField =>
      if IsNewline(c) then SaveField(r, EatNewline)
      else if c == ',' then SaveField(r, StartField)
      else AddChar(r, c, InField)
    case InQuoted => if c == '"' then r.(mode := QuoteInQuoted) else AddChar(r, c, InQuoted)
    case QuoteInQuoted =>
      if c == '"' then AddChar(r, c, InQuoted)
      else if c == ',' then SaveField(r, StartField)
      else if IsNewline(c) then SaveField(r, EatNewline)
      else AddChar(r, c, InField)
    case EatNewline => if IsNewline(c) then r else Failed
  }

  /** The end of a line of input: it ends the record unless a quoted field is open. */
  function OnLineEnd(r: Reader): Reader {
    if r.Failed? then r else
    match r.mode
    case StartRecord => Fresh(r.records + [r.fields])
    case EatNewline => Fresh(r.records + [r.fields])
    case InQuoted => r
    case _ => Fresh(r.records + [r.fields + [r.field]])
  }

  function Step(r: Reader, c: char): Reader {
    if c == '\n' then OnLineEnd(OnChar(r, c)) else OnChar(r, c)
  }

  function Feed(r: Reader, text: string): Reader
    decreases |text|
  {
    if text == [] then r else Feed(Step(r, text[0]), text[1..])
  }

  /** All records of a text; None for a csv.Error.  An open quoted field ends with the text. */
  function ReadAll(text: string): Option<seq<seq<string>>> {
    var r := Feed(Fresh([]), text);
    var r' := if text != "" && text[|text| - 1] != '\n' then OnLineEnd(r) else r;
    if r'.Failed? then None
    else if r'.mode.StartRecord? then Some(r'.records)
    else Some(r'.records + [r'.fields + [r'.field]])
  }

  // ---------------------------------------------------------------- reading what was written

  lemma {:induction false} FeedConcat(r: Reader, a: string, b: string)
    ensures Feed(r, a + b) == Feed(Feed(r, a), b)
    decreases |a|
  {
    if a == [] {
      assert a + b == b;
    } else {
      assert (a + b)[1..] == a[1..] + b;
      FeedConcat(Step(r, a[0]), a[1..], b);
    }
  }

  lemma {:induction false} FeedFailed(text: string)
    ensures Feed(Failed, text) == Failed
    decreases |text|
  {
    if text != [] { FeedFailed(text[1..]); }
  }

  lemma FeedOne(r: Reader, c: char)
    ensures Feed(r, [c]) == Step(r, c)
  {
    assert [c][1..] == [];
  }

  /** What adding the whole of `f` to the current field leads to. */
  function Added(r: Reader, f: string): Reader
    requires r.Reading?
  {
    if |r.field| + |f| <= FIELD_LIMIT then r.(field := r.field + f) else Failed
  }

  lemma AddedStep(r: Reader, f: string)
    requires r.Reading? && f != [] && |r.field| <= FIELD_LIMIT
    ensures var r' := AddChar(r, f[0], r.mode);
      if r'.Failed? then Added(r, f) == Failed else |r'.field| <= FIELD_LIMIT && Added(r', f[1..]) == Added(r, f)
  {
    assert r.field + [f[0]] + f[1..] == r.field + f;
  }

  lemma {:induction false} ReadDoubled(r: Reader, f: string)
    requires r.Reading? && r.mode == InQuoted && |r.field| <= FIELD_LIMIT
    ensures Feed(r, Doubled(f)) == Added(r, f)
    decreases |f|
  {
    if f == [] {
      assert r.field + f == r.field;
    } else {
      var c := if f[0] == '"' then "\"\"" else [f[0]];
      var r' := AddChar(r, f[0], InQuoted);
      FeedConcat(r, c, Doubled(f[1..]));
      FeedDoubledChar(r, f[0]);
      AddedStep(r, f);
      if r'.Failed? { FeedFailed(Doubled(f[1..])); } else { ReadDoubled(r', f[1..]); }
    }
  }

  lemma FeedDoubledChar(r: Reader, c: char)
    requires r.Reading? && r.mode == InQuoted
    ensures Feed(r, if c == '"' then "\"\"" else [c]) == AddChar(r, c, InQuoted)
  {
    if c == '"' {
      assert "\"\"" == ['"'] + ['"'];
      FeedConcat(r, ['"'], ['"']);
      FeedOne(r, '"');
      FeedOne(Step(r, '"'), '"');
    } else {
      FeedOne(r, c);
    }
  }

  lemma {:induction false} ReadBare(r: Reader, f: string)
    requires r.Reading? && r.mode == InField && |r.field| <= FIELD_LIMIT && IsBare(f)
    ensures Feed(r, f) == Added(r, f)
    decreases |f|
  {
    if f == [] {
      assert r.field + f == r.field;
    } else {
      var r' := AddChar(r, f[0], InField);
      assert !IsSpecial(f[0]);
      AddedStep(r, f);
      assert Step(r, f[0]) == r';
      if r'.Failed? { FeedFailed(f[1..]); } else { ReadBare(r', f[1..]); }
    }
  }

  predicate Fits(f: string) {
    |f| <= FIELD_LIMIT
  }

  /** At the start of a record or field, with nothing read of it yet. */
  predicate AtField(r: Reader) {
    r.Reading? && (r.mode == StartRecord || r.mode == StartField) && r.field == ""
  }

  lemma ReadQuoted(r: Reader, f: string)
    requires AtField(r)
    ensures Feed(r, Quoted(f)) == if Fits(f) then r.(mode := QuoteInQuoted, field := f) else Failed
  {
    var r1 := r.(mode := InQuoted);
    assert Quoted(f) == ['"'] + (Doubled(f) + ['"']);
    FeedConcat(r, ['"'], Doubled(f) + ['"']);
    FeedOne(r, '"');
    FeedConcat(r1, Doubled(f), ['"']);
    ReadDoubled(r1, f);
    assert "" + f == f;
    FeedOne(Added(r1, f), '"');
  }

  lemma ReadBareField(r: Reader, f: string)
    requires AtField(r) && IsBare(f) && f != ""
    ensures Feed(r, f) == if Fits(f) then r.(mode := InField, field := f) else Failed
  {
    var r1 := r.(mode := InField, field := [f[0]]);
    assert !IsSpecial(f[0]);
    assert Step(r, f[0]) == r1;
    ReadBare(r1, f[1..]);
    assert [f[0]] + f[1..] == f;
  }

  /** A field and the comma after it. */
  lemma ReadFieldComma(r: Reader, f: string)
    requires AtField(r)
    ensures Feed(r, FieldText(f) + ",") ==
      if Fits(f) then r.(mode := StartField, fields := r.fields + [f]) else Failed
  {
    FeedConcat(r, FieldText(f), ",");
    FeedOne(Feed(r, FieldText(f)), ',');
    if !IsBare(f) { ReadQuoted(r, f); } else if f != "" { ReadBareField(r, f); }
  }

  lemma ReadLineEnd(r: Reader)
    requires r.Reading? && (r.mode == StartField || r.mode == InField || r.mode == QuoteInQuoted)
    ensures Feed(r, "\r\n") == Fresh(r.records + [r.fields + [r.field]])
  {
    assert "\r\n" == ['\r'] + ['\n'];
    FeedConcat(r, ['\r'], ['\n']);
    FeedOne(r, '\r');
    FeedOne(Step(r, '\r'), '\n');
  }

  /** A last field and the record's end; a blank line would not be one field. */
  lemma ReadFieldEnd(r: Reader, text: string, f: string)
    requires AtField(r) && (text == Quoted(f) || (text == f && IsBare(f) && (f != "" || r.mode == StartField)))
    ensures Feed(r, text + "\r\n") == if Fits(f) then Fresh(r.records + [r.fields + [f]]) else Failed
  {
    FeedConcat(r, text, "\r\n");
    if text == Quoted(f) { ReadQuoted(r, f); } else if f != "" { ReadBareField(r, f); }
    if Fits(f) { ReadLineEnd(Feed(r, text)); } else { FeedFailed("\r\n"); }
  }

  /** Beyond what the writer produces: a lone LF ends a record too, text after a closing quote goes on
      with the field, and after a CR nothing but a line end may follow. */
  lemma ReaderIsLenient(records: seq<seq<string>>, f: string, g: string, c: char)
    requires IsBare(f) && f != "" && Fits(f) && IsBare(g) && g != "" && |f| + |g| <= FIELD_LIMIT
    ensures Feed(Fresh(records), f + "\n") == Fresh(records + [[f]])
    ensures Feed(Fresh(records), Quoted(f) + g) == Fresh(records).(mode := InField, field := f + g)
    ensures !IsNewline(c) ==> Feed(Fresh(records), f + "\r" + [c]) == Failed
  {
    var r := Fresh(records);
    ReadBareField(r, f);
    FeedConcat(r, f, "\n");
    FeedOne(Feed(r, f), '\n');
    assert [] + [f] == [f];
    FeedConcat(r, f, "\r");
    FeedOne(Feed(r, f), '\r');
    FeedConcat(r, f + "\r", [c]);
    FeedOne(Feed(r, f + "\r"), c);
    ReadQuoted(r, f);
    FeedConcat(r, Quoted(f), g);
    ReadAfterQuote(Feed(r, Quoted(f)), g);
  }

  /** The text's last record needs no line end, and its last field no closing quote. */
  lemma TextMayEndAnywhere(f: string)
    requires IsBare(f) && f != "" && Fits(f)
    ensures ReadAll(f) == Some([[f]])
    ensures ReadAll("\"" + f) == Some([[f]])
  {
    var r := Fresh([]);
    ReadBareField(r, f);
    assert !IsSpecial(Last(f));
    assert [] + [f] == [f] && [] + [[f]] == [[f]];
    FeedConcat(r, "\"", f);
    FeedOne(r, '"');
    BareIsDoubled(f);
    ReadDoubled(r.(mode := InQuoted), f);
    assert "" + f == f;
    assert Last("\"" + f) == Last(f);
  }

  lemma {:induction false} BareIsDoubled(f: string)
    requires IsBare(f)
    ensures Doubled(f) == f
  {
    if f != [] {
      assert !IsSpecial(f[0]);
      BareIsDoubled(f[1..]);
    }
  }

  lemma ReadAfterQuote(r: Reader, g: string)
    requires r.Reading? && r.mode == QuoteInQuoted && IsBare(g) && g != "" && |r.field| + |g| <= FIELD_LIMIT
    ensures Feed(r, g) == r.(mode := InField, field := r.field + g)
  {
    var r1 := AddChar(r, g[0], InField);
    assert !IsSpecial(g[0]);
    ReadBare(r1, g[1..]);
    assert r.field + [g[0]] + g[1..] == r.field + g;
  }

  predicate AllFit(fields: seq<string>) {
    forall i :: 0 <= i < |fields| ==> Fits(fields[i])
  }

  lemma {:induction false} ReadFields(r: Reader, fields: seq<string>)
    requires AtField(r) && fields != [] && (r.mode == StartRecord ==> fields != [""])
    ensures Feed(r, FieldsText(fields) + "\r\n") ==
      if AllFit(fields) then Fresh(r.records + [r.fields + fields]) else Failed
    decreases |fields|
  {
    var f := fields[0];
    if |fields| == 1 {
      assert fields == [f];
      ReadFieldEnd(r, FieldText(f), f);
    } else {
      var r' := r.(mode := StartField, fields := r.fields + [f]);
      FirstOfMany(r, fields);
      AllFitCons(fields);
      if Fits(f) {
        ReadFields(r', fields[1..]);
        HeadAndTail(r.fields, fields);
      }
    }
  }

  lemma AllFitCons(fields: seq<string>)
    requires fields != []
    ensures AllFit(fields) <==> Fits(fields[0]) && AllFit(fields[1..])
  {
    assert forall i :: 1 <= i < |fields| ==> fields[i] == fields[1..][i - 1];
  }

  lemma FirstOfMany(r: Reader, fields: seq<string>)
    requires AtField(r) && |fields| > 1
    ensures Feed(r, FieldsText(fields) + "\r\n") ==
      if Fits(fields[0])
      then Feed(r.(mode := StartField, fields := r.fields + [fields[0]]), FieldsText(fields[1..]) + "\r\n")
      else Failed
  {
    var first := FieldText(fields[0]) + ",";
    Associate(first, FieldsText(fields[1..]), "\r\n");
    FeedConcat(r, first, FieldsText(fields[1..]) + "\r\n");
    ReadFieldComma(r, fields[0]);
    FeedFailed(FieldsText(fields[1..]) + "\r\n");
  }

  /** Reading a written record yields exactly its fields, or fails when one is too long. */
  lemma ReadRow(records: seq<seq<string>>, fields: seq<string>)
    ensures Feed(Fresh(records), RowText(fields)) ==
      if AllFit(fields) then Fresh(records + [fields]) else Failed
  {
    var r := Fresh(records);
    if fields == [""] {
      ReadFieldEnd(r, Quoted(""), "");
      assert [] + [""] == fields;
    } else if fields == [] {
      BlankLine(r);
    } else {
      ReadFields(r, fields);
      assert [] + fields == fields;
    }
  }

  lemma BlankLine(r: Reader)
    requires r.Reading? && r.mode == StartRecord && r.fields == []
    ensures Feed(r, "" + "\r\n") == Fresh(r.records + [[]])
  {
    assert "" + "\r\n" == ['\r'] + ['\n'];
    FeedConcat(r, ['\r'], ['\n']);
    FeedOne(r, '\r');
    FeedOne(Step(r, '\r'), '\n');
  }
}
