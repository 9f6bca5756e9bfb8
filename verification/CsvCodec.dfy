/** The CSV encoder, decoder and file appender. */
module CsvCodec {
  import opened Prelude
  import opened CsvFormat

  // ---------------------------------------------------------------- encoding

  /** A dict of strings in insertion order. */
  type Record = r: seq<(string, string)> | DistinctKeys(r) witness []

  predicate DistinctKeys(r: seq<(string, string)>) {
    forall i, j :: 0 <= i < j < |r| ==> r[i].0 != r[j].0
  }

  function Keys(r: seq<(string, string)>): seq<string> {
    seq(|r|, i requires 0 <= i < |r| => r[i].0)
  }

  function Values(r: seq<(string, string)>): seq<string> {
    seq(|r|, i requires 0 <= i < |r| => r[i].1)
  }

  /** A header record and one data record. */
  function Encoded(data: Record): string {
    RowText(Keys(data)) + RowText(Values(data))
  }

  /** io.StringIO with the row writing of csv.DictWriter. */
  class Buffer {
    var text: string

    constructor ()
      ensures text == ""
    {
      text := "";
    }

    method Write(more: string)
      modifies this
      ensures text == old(text) + more
    {
      text := text + more;
    }

    method WriteFields(fields: seq<string>)
      modifies this
      ensures text == old(text) + FieldsText(fields)
    {
      ghost var start := text;
      for i := 0 to |fields|
        invariant text == start + FieldsText(fields[..i])
      {
        var more := (if i > 0 then "," else "") + FieldText(fields[i]);
        FieldsTextSnoc(fields[..i], fields[i]);
        assert fields[..i + 1] == fields[..i] + [fields[i]];
        Associate(start, FieldsText(fields[..i]), more);
        Write(more);
      }
      assert fields[..|fields|] == fields;
    }

    method WriteRow(fields: seq<string>)
      modifies this
      ensures text == old(text) + RowText(fields)
    {
      ghost var start := text;
      if fields == [""] {
        Write(Quoted(""));
      } else {
        WriteFields(fields);
      }
      Associate(start, if fields == [""] then Quoted("") else FieldsText(fields), "\r\n");
      Write("\r\n");
    }
  }

  lemma {:induction false} FieldsTextSnoc(fields: seq<string>, f: string)
    ensures FieldsText(fields + [f]) == FieldsText(fields) + ((if |fields| > 0 then "," else "") + FieldText(f))
  {
    if |fields| > 0 {
      FieldsTextSnoc(fields[1..], f);
      assert (fields + [f])[1..] == fields[1..] + [f];
    }
  }

  method Encode(data: Record) returns (csv: string)
    ensures csv == Encoded(data)
  {
    var buf := new Buffer();
    buf.WriteRow(Keys(data));
    assert buf.text == RowText(Keys(data));
    buf.WriteRow(Values(data));
    csv := buf.text;
  }

  // ---------------------------------------------------------------- decoding

  /** Keys and cells of csv.DictReader's dicts: surplus values are kept under the key None,
      missing ones are None. */
  datatype Key = Named(name: string) | Rest
  datatype Cell = Text(text: string) | Missing | Surplus(texts: seq<string>)

  /** A dict in insertion order. */
  type Row = seq<(Key, Cell)>

  /** d[key] = cell */
  function Put(row: Row, key: Key, cell: Cell): Row {
    if row == [] then [(key, cell)]
    else if row[0].0 == key then [(key, cell)] + row[1..]
    else [row[0]] + Put(row[1..], key, cell)
  }

  function Fill(row: Row, names: seq<string>, cells: seq<Cell>): Row
    requires |names| == |cells|
    decreases |names|
  {
    if names == [] then row else Fill(Put(row, Named(names[0]), cells[0]), names[1..], cells[1..])
  }

  function Texts(values: seq<string>): seq<Cell> {
    seq(|values|, i requires 0 <= i < |values| => Text(values[i]))
  }

  function DictRow(header: seq<string>, values: seq<string>): Row {
    var n := if |header| < |values| then |header| else |values|;
    var row := Fill([], header[..n], Texts(values[..n]));
    if n < |values| then Put(row, Rest, Surplus(values[n..]))
    else Fill(row, header[n..], seq(|header| - n, i requires 0 <= i < |header| - n => Missing))
  }

  /** DictReader's rows: the first record names the columns, blank records are skipped. */
  function DictRows(header: seq<string>, records: seq<seq<string>>): seq<Row> {
    if records == [] then []
    else (if records[0] == [] then [] else [DictRow(header, records[0])]) + DictRows(header, records[1..])
  }

  datatype Decoded = Decoded(rows: seq<Row>, count: nat, columns: seq<Key>)

  datatype DecodeError = CsvError | EmptyCsv

  function RowKeys(row: Row): seq<Key> {
    seq(|row|, i requires 0 <= i < |row| => row[i].0)
  }

  function Decode(text: string): Result<Decoded, DecodeError> {
    match ReadAll(text)
    case None => Err(CsvError)
    case Some(records) =>
      var rows := if records == [] then [] else DictRows(records[0], records[1..]);
      if rows == [] then Err(EmptyCsv) else Ok(Decoded(rows, |rows|, RowKeys(rows[0])))
  }

  // ---------------------------------------------------------------- round trip

  /** The dict that holds exactly these entries in this order. */
  function AsRow(r: seq<(string, string)>): Row {
    seq(|r|, i requires 0 <= i < |r| => (Named(r[i].0), Text(r[i].1)))
  }

  lemma {:induction false} PutNew(row: Row, key: Key, cell: Cell)
    requires forall i :: 0 <= i < |row| ==> row[i].0 != key
    ensures Put(row, key, cell) == row + [(key, cell)]
  {
    if row != [] {
      PutNew(row[1..], key, cell);
      assert [row[0]] + (row[1..] + [(key, cell)]) == row + [(key, cell)];
    }
  }

  /** The entries of a header and as many cells, in order. */
  function Entries(names: seq<string>, cells: seq<Cell>): Row
    requires |names| == |cells|
  {
    seq(|names|, i requires 0 <= i < |names| => (Named(names[i]), cells[i]))
  }

  predicate Distinct(names: seq<string>) {
    forall i, j :: 0 <= i < j < |names| ==> names[i] != names[j]
  }

  lemma {:induction false} FillNew(row: Row, names: seq<string>, cells: seq<Cell>)
    requires |names| == |cells| && Distinct(names)
    requires forall i, j :: 0 <= i < |row| && 0 <= j < |names| ==> row[i].0 != Named(names[j])
    ensures Fill(row, names, cells) == row + Entries(names, cells)
    decreases |names|
  {
    if names != [] {
      var first := [(Named(names[0]), cells[0])];
      PutNew(row, Named(names[0]), cells[0]);
      FillNew(row + first, names[1..], cells[1..]);
      assert first + Entries(names[1..], cells[1..]) == Entries(names, cells);
      Associate(row, first, Entries(names[1..], cells[1..]));
    } else {
      assert row + [] == row;
    }
  }

  /** A record of the header's length gives the dict of its columns. */
  lemma DictRowOfRecord(data: Record)
    ensures DictRow(Keys(data), Values(data)) == AsRow(data)
  {
    var (names, cells) := (Keys(data), Texts(Values(data)));
    FillNew([], names, cells);
    assert [] + Entries(names, cells) == AsRow(data);
    assert names[..|data|] == names && Values(data)[..|data|] == Values(data);
    assert names[|data|..] == [];
  }

  /** A shorter record leaves the columns at the end without a value ... */
  lemma DictRowOfShort(header: seq<string>, values: seq<string>)
    requires Distinct(header) && |values| < |header|
    ensures |DictRow(header, values)| == |header|
    ensures forall i :: 0 <= i < |header| ==>
      DictRow(header, values)[i] == (Named(header[i]), if i < |values| then Text(values[i]) else Missing)
  {
    var n := |values|;
    var rest := seq(|header| - n, i requires 0 <= i < |header| - n => Missing);
    assert values[..n] == values;
    FillNew([], header[..n], Texts(values));
    FillNew([] + Entries(header[..n], Texts(values)), header[n..], rest);
  }

  /** ... and of a longer one the surplus values are kept together after the columns. */
  lemma DictRowOfLong(header: seq<string>, values: seq<string>)
    requires Distinct(header) && |header| < |values|
    ensures |DictRow(header, values)| == |header| + 1
    ensures forall i :: 0 <= i < |header| ==> DictRow(header, values)[i] == (Named(header[i]), Text(values[i]))
    ensures DictRow(header, values)[|header|] == (Rest, Surplus(values[|header|..]))
  {
    var n := |header|;
    assert header[..n] == header;
    FillNew([], header, Texts(values[..n]));
    PutNew([] + Entries(header, Texts(values[..n])), Rest, Surplus(values[n..]));
  }

  predicate FitsReader(data: Record) {
    AllFit(Keys(data)) && AllFit(Values(data))
  }

  /** Reading the texts of records one after the other. */
  lemma FeedEncoded(records: seq<seq<string>>, data: Record)
    ensures Feed(Fresh(records), Encoded(data)) ==
      if FitsReader(data) then Fresh(records + [Keys(data), Values(data)]) else Failed
  {
    FeedConcat(Fresh(records), RowText(Keys(data)), RowText(Values(data)));
    ReadRow(records, Keys(data));
    if AllFit(Keys(data)) {
      ReadRow(records + [Keys(data)], Values(data));
      assert records + [Keys(data)] + [Values(data)] == records + [Keys(data), Values(data)];
    } else {
      FeedFailed(RowText(Values(data)));
    }
  }

  lemma EndsInNewline(data: Record)
    ensures Encoded(data) != "" && Encoded(data)[|Encoded(data)| - 1] == '\n'
  {
  }

  lemma ReadEncoded(data: Record)
    ensures ReadAll(Encoded(data)) == if FitsReader(data) then Some([Keys(data), Values(data)]) else None
  {
    FeedEncoded([], data);
    EndsInNewline(data);
    assert [] + [Keys(data), Values(data)] == [Keys(data), Values(data)];
  }

  lemma DecodeEncoded(data: Record)
    requires FitsReader(data)
    ensures Decode(Encoded(data)) ==
      if data == [] then Err(EmptyCsv) else Ok(Decoded([AsRow(data)], 1, RowKeys(AsRow(data))))
  {
    var (header, values) := (Keys(data), Values(data));
    ReadEncoded(data);
    assert [header, values][1..] == [values] && [values][1..] == [];
    DictRowOfRecord(data);
    assert DictRows(header, []) == [];
    assert DictRows(header, [values]) == (if values == [] then [] else [DictRow(header, values)]) + [];
    assert |values| == |data|;
    if data != [] {
      assert DictRows(header, [values]) == [AsRow(data)];
    } else {
      assert DictRows(header, [values]) == [];
    }
  }

  lemma FitsPlainly(data: Record)
    ensures FitsReader(data) <==> forall i :: 0 <= i < |data| ==> |data[i].0| <= 131072 && |data[i].1| <= 131072
  {
    assert forall i :: 0 <= i < |data| ==> Keys(data)[i] == data[i].0 && Values(data)[i] == data[i].1;
    if FitsReader(data) {
      forall i | 0 <= i < |data| ensures |data[i].0| <= 131072 && |data[i].1| <= 131072 {
        assert Fits(Keys(data)[i]) && Fits(Values(data)[i]);
      }
    }
  }

  /** Decoding an encoding gives back the dict, its columns in order, for every dict that is not
      empty and whose strings the reader accepts; and for no other. */
  lemma RoundTrip(data: Record)
    ensures Decode(Encoded(data)) == Ok(Decoded([AsRow(data)], 1, RowKeys(AsRow(data))))
       <==> data != [] && forall i :: 0 <= i < |data| ==> |data[i].0| <= 131072 && |data[i].1| <= 131072
  {
    FitsPlainly(data);
    if FitsReader(data) { DecodeEncoded(data); } else { ReadEncoded(data); }
  }

  // ---------------------------------------------------------------- the appender

  datatype Mode = Append | Overwrite

  /** The writer ends what it writes with a newline. */
  function Terminated(data: string): string {
    if data != "" && data[|data| - 1] == '\n' then data else data + "\n"
  }

  /** sink_config["mode"]: append unless something else is given. */
  function ModeOf(mode: Option<string>): Mode {
    if mode.None? || mode.value == "append" then Append else Overwrite
  }

  /** The file at a sink's path after one write; an absent file is None. */
  function FileAfter(content: Option<string>, data: string, mode: Option<string>): string {
    (if ModeOf(mode) == Append && content.Some? then content.value else "") + Terminated(data)
  }

  class CsvFile {
    var content: Option<string>

    constructor (content: Option<string>)
      ensures this.content == content
    {
      this.content := content;
    }

    method Write(data: string, mode: Option<string>)
      modifies this
      ensures content == Some(FileAfter(old(content), data, mode))
      ensures content.Some?
      ensures var kept := if old(content).Some? && (mode.None? || mode.value == "append") then old(content).value else "";
        content.value == if data != "" && Last(data) == '\n' then kept + data else kept + data + "\n"
      ensures content.value != "" && Last(content.value) == '\n'
    {
      var text := if ModeOf(mode) == Append && content.Some? then content.value else "";
      Associate(text, data, "\n");
      text := text + data;
      if data == "" || data[|data| - 1] != '\n' {
        text := text + "\n";
      }
      content := Some(text);
    }
  }

  /** A fresh file after the default-mode writes of the encodings of `datas`, in order. */
  function Appended(datas: seq<Record>): Option<string> {
    if datas == [] then None else Some(FileAfter(Appended(Front(datas)), Encoded(Last(datas)), None))
  }

  function TextOf(content: Option<string>): string {
    if content.Some? then content.value else ""
  }

  predicate SameColumns(header: seq<string>, datas: seq<Record>) {
    forall i :: 0 <= i < |datas| ==> Keys(datas[i]) == header
  }

  predicate AllFitReader(datas: seq<Record>) {
    datas == [] || (AllFitReader(Front(datas)) && FitsReader(Last(datas)))
  }

  function AllRecords(datas: seq<Record>): seq<seq<string>> {
    if datas == [] then []
    else AllRecords(Front(datas)) + [Keys(Last(datas)), Values(Last(datas))]
  }

  lemma {:induction false} FeedAppended(datas: seq<Record>)
    ensures Feed(Fresh([]), TextOf(Appended(datas))) ==
      if AllFitReader(datas) then Fresh(AllRecords(datas)) else Failed
    ensures datas != [] ==> var text := TextOf(Appended(datas)); text != "" && text[|text| - 1] == '\n'
  {
    if datas != [] {
      FeedAppended(Front(datas));
      EndsInNewline(Last(datas));
      FeedConcat(Fresh([]), TextOf(Appended(Front(datas))), Encoded(Last(datas)));
      FeedEncoded(AllRecords(Front(datas)), Last(datas));
      FeedFailed(Encoded(Last(datas)));
    }
  }

  /** A row in which every column holds its own name. */
  function SelfRow(header: seq<string>): Row {
    seq(|header|, i requires 0 <= i < |header| => (Named(header[i]), Text(header[i])))
  }

  /** The data rows with a row of column names between each two. */
  function Interleaved(header: seq<string>, datas: seq<Record>): (rows: seq<Row>)
    ensures |rows| == if datas == [] then 0 else 2 * |datas| - 1
    ensures forall i :: 0 <= i < |datas| ==> rows[2 * i] == AsRow(datas[i])
    ensures forall i :: 0 <= i < |datas| - 1 ==> rows[2 * i + 1] == SelfRow(header)
  {
    if datas == [] then []
    else Interleaved(header, Front(datas)) + (if |datas| > 1 then [SelfRow(header)] else []) + [AsRow(Last(datas))]
  }

  lemma {:induction false} DictRowsConcat(header: seq<string>, a: seq<seq<string>>, b: seq<seq<string>>)
    ensures DictRows(header, a + b) == DictRows(header, a) + DictRows(header, b)
  {
    if a == [] {
      assert a + b == b;
      assert [] + DictRows(header, b) == DictRows(header, b);
    } else {
      var first := if a[0] == [] then [] else [DictRow(header, a[0])];
      DictRowsConcat(header, a[1..], b);
      assert (a + b)[1..] == a[1..] + b && (a + b)[0] == a[0];
      Associate(first, DictRows(header, a[1..]), DictRows(header, b));
    }
  }

  /** A blank line among the records is skipped. */
  lemma BlankIsSkipped(header: seq<string>, a: seq<seq<string>>, b: seq<seq<string>>)
    ensures DictRows(header, a + [[]] + b) == DictRows(header, a + b)
  {
    Associate(a, [[]], b);
    DictRowsConcat(header, a, [[]] + b);
    DictRowsConcat(header, a, b);
    assert ([[]] + b)[1..] == b;
  }

  lemma OneDictRow(header: seq<string>, values: seq<string>)
    requires values != []
    ensures DictRows(header, [values]) == [DictRow(header, values)]
  {
    assert [values][1..] == [];
  }

  lemma HeaderAsRow(data: Record)
    ensures DictRow(Keys(data), Keys(data)) == SelfRow(Keys(data))
  {
    var own: seq<(string, string)> := seq(|data|, i requires 0 <= i < |data| => (data[i].0, data[i].0));
    assert Keys(own) == Keys(data) && Values(own) == Keys(data);
    DictRowOfRecord(own);
    assert AsRow(own) == SelfRow(Keys(data));
  }

  lemma {:induction false} RowsOfAppended(header: seq<string>, datas: seq<Record>)
    requires header != [] && datas != [] && SameColumns(header, datas)
    ensures AllRecords(datas) != [] && AllRecords(datas)[0] == header
    ensures DictRows(header, AllRecords(datas)[1..]) == Interleaved(header, datas)
    decreases |datas|
  {
    var d := Last(datas);
    assert Keys(d) == header && |Values(d)| == |d| == |header|;
    OneDictRow(header, Values(d));
    DictRowOfRecord(d);
    if |datas| == 1 {
      assert AllRecords(Front(datas)) == [];
      assert AllRecords(datas) == [header, Values(d)];
      assert AllRecords(datas)[1..] == [Values(d)];
    } else {
      var before := AllRecords(Front(datas));
      RowsOfAppended(header, Front(datas));
      assert AllRecords(datas)[1..] == before[1..] + ([header] + [Values(d)]);
      DictRowsConcat(header, before[1..], [header] + [Values(d)]);
      DictRowsConcat(header, [header], [Values(d)]);
      OneDictRow(header, header);
      HeaderAsRow(d);
    }
  }

  /** Appending k encodings with the same columns to a fresh file and decoding it yields 2k - 1
      rows, the k dicts in order with a row of column names between each two; unless a string is
      too long for the reader, which then refuses the whole file. */
  lemma AppendRoundTrip(header: seq<string>, datas: seq<Record>)
    requires header != [] && datas != [] && SameColumns(header, datas)
    ensures Decode(TextOf(Appended(datas))) ==
      if AllFitReader(datas)
      then Ok(Decoded(Interleaved(header, datas), 2 * |datas| - 1, RowKeys(AsRow(datas[0]))))
      else Err(CsvError)
  {
    FeedAppended(datas);
    if AllFitReader(datas) {
      RowsOfAppended(header, datas);
      assert Interleaved(header, datas)[2 * 0] == AsRow(datas[0]);
    }
  }
}
