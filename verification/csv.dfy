/** The CSV text the two dashboards build before handing it to the browser:
    `exportToCSV` of the analysis dashboard and `downloadCSV` of the upload page.
    A record is a sequence of (key, value) pairs in the record's own key iteration
    order; values are the already-stringified field text. Neither builder quotes or
    escapes anything. */
module Csv {
  import opened Strings
  import opened JsonValue

  type Record = seq<(string, string)>

  /** `Object.keys(record)` */
  function Keys(r: Record): seq<string>
  {
    seq(|r|, i requires 0 <= i < |r| => r[i].0)
  }

  /** `Object.values(record)` */
  function Values(r: Record): seq<string>
  {
    seq(|r|, i requires 0 <= i < |r| => r[i].1)
  }

  /** A JavaScript object never has the same key twice. */
  predicate UniqueKeys(r: Record)
  {
    forall i, j :: 0 <= i < j < |r| ==> r[i].0 != r[j].0
  }

  /** `row[key]` as `join` renders it: the value stored under `key`, or "" when the
      row has no such key (`undefined` joins as the empty string). */
  function Field(row: Record, key: string): (v: string)
    ensures key !in Keys(row) ==> v == ""
    ensures key in Keys(row) ==> (key, v) in row
  {
    if |row| == 0 then ""
    else if row[0].0 == key then assert Keys(row)[0] == key; row[0].1
    else
      assert Keys(row[1..]) == Keys(row)[1..];
      Field(row[1..], key)
  }

  /** In a record with unique keys, looking up a record's own key gives that key's value. */
  lemma {:induction false} FieldAt(row: Record, i: nat)
    requires UniqueKeys(row)
    requires i < |row|
    ensures Field(row, row[i].0) == row[i].1
  {
    if i > 0 {
      assert row[0].0 != row[i].0;
      assert row[1..][i - 1] == row[i];
      FieldAt(row[1..], i - 1);
    }
  }

  /** `headers.map(header => row[header])` */
  function Cells(row: Record, headers: seq<string>): seq<string>
  {
    seq(|headers|, j requires 0 <= j < |headers| => Field(row, headers[j]))
  }

  /** The data lines of `exportToCSV`: each row looked up by the given headers. */
  function ExportRows(rows: seq<Record>, headers: seq<string>): seq<string>
  {
    seq(|rows|, i requires 0 <= i < |rows| => Join(Cells(rows[i], headers), ","))
  }

  /** `exportToCSV(data)` up to the download: no text at all for a missing (`null`,
      `undefined`) or empty `data`; otherwise the first record's keys as the header
      line followed by one line per record, lines joined by a newline. */
  function ExportToCsv(data: Option<seq<Record>>): (text: Option<string>)
    ensures text.None? <==> data.None? || |data.value| == 0
    ensures text.Some? ==> Join(Keys(data.value[0]), ",") <= text.value
  {
    if data.None? || |data.value| == 0 then None
    else
      var rows := data.value;
      var headers := Keys(rows[0]);
      var lines := [Join(headers, ",")] + ExportRows(rows, headers);
      JoinStartsWithFirst(lines, "\n");
      Some(Join(lines, "\n"))
  }

  /** The prefix `downloadCSV` puts in front of the text to make a data URI. */
  const DataUriPrefix: string := "data:text/csv;charset=utf-8,"

  /** The data lines of `downloadCSV`: each row's own values in its own key order. */
  function DownloadRows(rows: seq<Record>): seq<string>
  {
    seq(|rows|, i requires 0 <= i < |rows| => Join(Values(rows[i]), ","))
  }

  /** The string `downloadCSV(data)` builds before `encodeURI`. `downloadCSV([])`
      throws at `Object.keys(undefined)`; the model takes at least one row. */
  function DownloadCsv(data: seq<Record>): (uri: string)
    requires |data| > 0
    ensures DataUriPrefix <= uri
  {
    DataUriPrefix + Join(Keys(data[0]), ",") + "\n" + Join(DownloadRows(data), "\n")
  }

  /** Neither a comma nor a newline: text that survives the unescaped format intact. */
  predicate Plain(s: string)
  {
    ',' !in s && '\n' !in s
  }

  /** A line built by joining plain fields with commas has no newline and splits back
      into exactly those fields, provided there is at least one field. */
  lemma PlainLine(fields: seq<string>)
    requires forall j :: 0 <= j < |fields| ==> Plain(fields[j])
    ensures '\n' !in Join(fields, ",")
    ensures |fields| >= 1 ==> Split(Join(fields, ","), ',') == fields
  {
    JoinAvoids(fields, ",", '\n');
    if |fields| >= 1 {
      SplitJoin(fields, ',');
    }
  }

  /** Plain where `exportToCSV` writes: the first record's keys, and every field looked
      up by them. Keys seen only in later records, and the values under them, may hold
      anything, since they never reach the text. */
  predicate PlainExport(data: seq<Record>)
    requires |data| > 0
  {
    && (forall j :: 0 <= j < |data[0]| ==> Plain(data[0][j].0))
    && (forall i, j :: 0 <= i < |data| && 0 <= j < |data[0]| ==> Plain(Field(data[i], data[0][j].0)))
  }

  lemma PlainHeaders(data: seq<Record>)
    requires |data| > 0 && PlainExport(data)
    ensures forall j :: 0 <= j < |Keys(data[0])| ==> Plain(Keys(data[0])[j])
  {
  }

  lemma PlainRow(data: seq<Record>, i: int)
    requires |data| > 0 && PlainExport(data) && 0 <= i < |data|
    ensures forall j :: 0 <= j < |Keys(data[0])| ==> Plain(Cells(data[i], Keys(data[0]))[j])
  {
    forall j | 0 <= j < |Keys(data[0])|
      ensures Plain(Cells(data[i], Keys(data[0]))[j])
    {
      assert Cells(data[i], Keys(data[0]))[j] == Field(data[i], data[0][j].0);
    }
  }

  /** The layout `exportToCSV` promises a reader of its text, when neither the headers
      nor the fields looked up by them hold a comma or newline: exactly `|data| + 1` lines; the first is the first
      record's keys in that record's order; line `i + 1` is record `i` looked up by
      those headers, so it has exactly one field per header, keys seen only in later
      records are dropped and a missing key gives an empty field. */
  lemma ExportLayout(data: seq<Record>)
    requires |data| > 0
    requires PlainExport(data)
    ensures ExportToCsv(Some(data)).Some?
    ensures var lines := Split(ExportToCsv(Some(data)).value, '\n');
      && |lines| == |data| + 1
      && lines[0] == Join(Keys(data[0]), ",")
      && (forall i :: 0 <= i < |data| ==> lines[i + 1] == Join(Cells(data[i], Keys(data[0])), ","))
      && (|data[0]| > 0 ==>
            && Split(lines[0], ',') == Keys(data[0])
            && forall i :: 0 <= i < |data| ==> Split(lines[i + 1], ',') == Cells(data[i], Keys(data[0])))
  {
    var headers := Keys(data[0]);
    var body := [Join(headers, ",")] + ExportRows(data, headers);
    PlainHeaders(data);
    PlainLine(headers);
    forall i | 0 <= i < |data|
      ensures '\n' !in Join(Cells(data[i], headers), ",")
      ensures |headers| >= 1 ==> Split(Join(Cells(data[i], headers), ","), ',') == Cells(data[i], headers)
    {
      PlainRow(data, i);
      PlainLine(Cells(data[i], headers));
    }
    assert forall k :: 0 <= k < |body| ==> '\n' !in body[k] by {
      forall k | 0 <= k < |body| ensures '\n' !in body[k] {
        if k > 0 {
          assert body[k] == Join(Cells(data[k - 1], headers), ",");
        }
      }
    }
    SplitJoin(body, '\n');
    assert |data[0]| == |headers|;
  }

  /** Plain where `downloadCSV` writes: the first record's keys, and every value of
      every record. Keys of later records never reach the text. */
  predicate PlainDownload(data: seq<Record>)
    requires |data| > 0
  {
    && (forall j :: 0 <= j < |data[0]| ==> Plain(data[0][j].0))
    && (forall i, j :: 0 <= i < |data| && 0 <= j < |data[i]| ==> Plain(data[i][j].1))
  }

  lemma PlainDownloadRow(data: seq<Record>, i: int)
    requires |data| > 0 && PlainDownload(data) && 0 <= i < |data|
    ensures forall j :: 0 <= j < |Values(data[i])| ==> Plain(Values(data[i])[j])
  {
  }

  /** The layout of `downloadCSV`'s text, when neither the first record's keys nor any
      value holds a comma or newline:
      the data-URI prefix, then `|data| + 1` lines; the first is the first record's keys;
      line `i + 1` is record `i`'s own values in its own key order. */
  lemma DownloadLayout(data: seq<Record>)
    requires |data| > 0
    requires PlainDownload(data)
    ensures DataUriPrefix <= DownloadCsv(data)
    ensures var lines := Split(DownloadCsv(data)[|DataUriPrefix|..], '\n');
      && |lines| == |data| + 1
      && lines[0] == Join(Keys(data[0]), ",")
      && (forall i :: 0 <= i < |data| ==> lines[i + 1] == Join(Values(data[i]), ","))
      && (|data[0]| > 0 ==> Split(lines[0], ',') == Keys(data[0]))
      && (forall i :: 0 <= i < |data| && |data[i]| > 0 ==> Split(lines[i + 1], ',') == Values(data[i]))
  {
    var header := Join(Keys(data[0]), ",");
    var rows := DownloadRows(data);
    var body := [header] + rows;
    JoinCons(header, rows, "\n");
    assert DownloadCsv(data) == DataUriPrefix + Join(body, "\n");
    assert DownloadCsv(data)[|DataUriPrefix|..] == Join(body, "\n");
    assert forall j :: 0 <= j < |Keys(data[0])| ==> Plain(Keys(data[0])[j]);
    PlainLine(Keys(data[0]));
    forall i | 0 <= i < |data|
      ensures '\n' !in Join(Values(data[i]), ",")
      ensures |data[i]| > 0 ==> Split(Join(Values(data[i]), ","), ',') == Values(data[i])
    {
      PlainDownloadRow(data, i);
      PlainLine(Values(data[i]));
    }
    assert forall k :: 0 <= k < |body| ==> '\n' !in body[k] by {
      forall k | 0 <= k < |body| ensures '\n' !in body[k] {
        if k > 0 {
          assert body[k] == Join(Values(data[k - 1]), ",");
        }
      }
    }
    SplitJoin(body, '\n');
  }

  /** When every record has the first record's keys in the first record's order, the
      two builders agree: `downloadCSV` is the data-URI prefix followed by exactly the
      text of `exportToCSV`. */
  lemma DownloadAgreesWithExport(data: seq<Record>)
    requires |data| > 0
    requires UniqueKeys(data[0])
    requires forall i :: 0 <= i < |data| ==> Keys(data[i]) == Keys(data[0])
    ensures ExportToCsv(Some(data)).Some?
    ensures DownloadCsv(data) == DataUriPrefix + ExportToCsv(Some(data)).value
  {
    var headers := Keys(data[0]);
    forall i | 0 <= i < |data|
      ensures Cells(data[i], headers) == Values(data[i])
    {
      assert UniqueKeys(data[i]) by {
        forall a, b | 0 <= a < b < |data[i]| ensures data[i][a].0 != data[i][b].0 {
          assert Keys(data[i])[a] == headers[a] && Keys(data[i])[b] == headers[b];
        }
      }
      forall j | 0 <= j < |headers|
        ensures Cells(data[i], headers)[j] == Values(data[i])[j]
      {
        assert headers[j] == Keys(data[i])[j] == data[i][j].0;
        FieldAt(data[i], j);
      }
    }
    assert ExportRows(data, headers) == DownloadRows(data);
    JoinCons(Join(headers, ","), DownloadRows(data), "\n");
  }

  /** `downloadCSV` writes each row in its own key order, so a row whose keys come in
      another order than the first row's puts its values under the wrong headers, where
      `exportToCSV` looks every field up by header. */
  lemma DownloadFollowsRowOrder()
    ensures var data := [[("a", "1"), ("b", "2")], [("b", "3"), ("a", "4")]];
      && ExportToCsv(Some(data)) == Some("a,b\n1,2\n4,3")
      && DownloadCsv(data) == DataUriPrefix + "a,b\n1,2\n3,4"
  {
    var data := [[("a", "1"), ("b", "2")], [("b", "3"), ("a", "4")]];
    assert Keys(data[0]) == ["a", "b"];
    assert Cells(data[0], ["a", "b"]) == ["1", "2"];
    assert Cells(data[1], ["a", "b"]) == ["4", "3"];
    JoinPair("1", "2", ",");
    JoinPair("4", "3", ",");
    JoinPair("3", "4", ",");
    JoinPair("a", "b", ",");
    var rows := ExportRows(data, ["a", "b"]);
    assert rows[0] == Join(["1", "2"], ",") && rows[1] == Join(["4", "3"], ",");
    assert "1" + "," + "2" == "1,2" && "4" + "," + "3" == "4,3" && "3" + "," + "4" == "3,4";
    assert |rows| == 2;
    assert rows == ["1,2", "4,3"];
    assert Values(data[0]) == ["1", "2"] && Values(data[1]) == ["3", "4"];
    var uriRows := DownloadRows(data);
    assert uriRows[0] == Join(["1", "2"], ",") && uriRows[1] == Join(["3", "4"], ",");
    assert |uriRows| == 2;
    assert uriRows == ["1,2", "3,4"];
    assert Join(Keys(data[0]), ",") == "a,b";
    JoinCons("a,b", ["1,2", "4,3"], "\n");
    JoinPair("1,2", "4,3", "\n");
    JoinPair("1,2", "3,4", "\n");
    assert [Join(Keys(data[0]), ",")] + rows == ["a,b"] + ["1,2", "4,3"];
    assert "a,b" + "\n" + ("1,2" + "\n" + "4,3") == "a,b\n1,2\n4,3";
    assert DataUriPrefix + "a,b" + "\n" + ("1,2" + "\n" + "3,4") == DataUriPrefix + "a,b\n1,2\n3,4";
  }

  lemma JoinPair(a: string, b: string, sep: string)
    ensures Join([a, b], sep) == a + sep + b
  {
    assert [a, b][1..] == [b];
  }

  /** Values are written as they are: a value holding a comma becomes two fields on its
      line although the header names one column. */
  lemma ValuesAreNotEscaped()
    ensures var data := [[("note", "high,low")]];
      && ExportToCsv(Some(data)) == Some("note\nhigh,low")
      && |Split(Split(ExportToCsv(Some(data)).value, '\n')[1], ',')| == 2
  {
    var data := [[("note", "high,low")]];
    assert Keys(data[0]) == ["note"];
    assert Cells(data[0], ["note"]) == ["high,low"];
    assert ExportRows(data, ["note"]) == ["high,low"];
    SplitJoin(["note", "high,low"], '\n');
    assert "note\nhigh,low" == Join(["note", "high,low"], "\n");
    SplitJoin(["high", "low"], ',');
    assert "high,low" == Join(["high", "low"], ",");
  }
}
