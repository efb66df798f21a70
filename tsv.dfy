/** Tab-separated exchange of the subscription list: the text `exportToTSV` produces,
    the result `importFromTSV` computes from a text, and the round trip between them.

    Number printing (`price.toString()`) and number parsing (`parseFloat` followed by
    `isNaN`) are parameters: `show` prints a price and `parse` reads one, `None` standing
    for `NaN`. */
module Tsv {
  import opened Wrappers
  import opened Text
  import opened Types

  const TAB: char := '\t'
  const NEWLINE: char := '\n'

  /** The five column titles of the first line. */
  const HEADERS: seq<string> := ["App Name", "Plan Name", "Price (INR)", "Comments", "Expiry Date"]

  /** The first line of an export. */
  function HeaderLine(): string {
    Join(HEADERS, TAB)
  }

  /** The cells of one record, in column order. */
  function RowFields(s: Subscription, show: real -> string): seq<string> {
    [s.appName, s.planName, show(s.price), s.comments, s.expiryDate]
  }

  /** One exported data line. */
  function RowText(s: Subscription, show: real -> string): string {
    Join(RowFields(s, show), TAB)
  }

  /** The data lines of an export, one per record in list order. */
  function DataLines(subs: seq<Subscription>, show: real -> string): (r: seq<string>)
    ensures |r| == |subs|
    ensures forall k :: 0 <= k < |subs| ==> r[k] == RowText(subs[k], show)
  {
    seq(|subs|, k requires 0 <= k < |subs| => RowText(subs[k], show))
  }

  /** `exportToTSV` on the stored list: empty for an empty list, otherwise the header
      line followed by the data lines, joined by newlines. */
  function Export(subs: seq<Subscription>, show: real -> string): (r: string)
    ensures r == [] <==> subs == []
    ensures subs != [] ==> r == Join([HeaderLine()] + DataLines(subs, show), NEWLINE)
  {
    if |subs| == 0 then []
    else
      var lines := [HeaderLine()] + DataLines(subs, show);
      assert HeaderLine()[0] == 'A';
      JoinEnds(lines, NEWLINE);
      Join(lines, NEWLINE)
  }

  /** The ways an import can fail, each with the message `importFromTSV` reports. */
  datatype ImportError = InvalidFormat | MissingFields | InvalidPrice

  function ErrorMessage(e: ImportError): string {
    match e
    case InvalidFormat => "Invalid TSV format or empty file"
    case MissingFields => "Missing required fields in TSV"
    case InvalidPrice => "Invalid price format in TSV"
  }

  /** What `importFromTSV` reports: a success flag, a count and, on failure, a reason. */
  datatype ImportResult = ImportResult(success: bool, count: nat, error: Option<string>)

  /** A line that is not blank after trimming (`line.trim()` is truthy). */
  predicate NonBlank(line: string) {
    Trim(line) != []
  }

  /** The non-blank lines, in order (`filter(line => line.trim())`). */
  function NonBlankLines(lines: seq<string>): (r: seq<string>)
    ensures |r| <= |lines|
    ensures (forall k :: 0 <= k < |lines| ==> NonBlank(lines[k])) ==> r == lines
    ensures |lines| == 1 ==> r == (if NonBlank(lines[0]) then lines else [])
  {
    if lines == [] then []
    else
      assert lines == [lines[0]] + lines[1..];
      (if NonBlank(lines[0]) then [lines[0]] else []) + NonBlankLines(lines[1..])
  }

  /** The kept lines are exactly the non-blank ones. */
  lemma {:induction false} NonBlankLinesMembers(lines: seq<string>, x: string)
    ensures x in NonBlankLines(lines) <==> x in lines && NonBlank(x)
    decreases |lines|
  {
    if lines != [] {
      NonBlankLinesMembers(lines[1..], x);
      assert lines == [lines[0]] + lines[1..];
    }
  }

  /** The filter keeps the order and the number of the kept lines: filtering a
      concatenation is the concatenation of the filtered parts. */
  lemma {:induction false} NonBlankLinesAppend(a: seq<string>, b: seq<string>)
    ensures NonBlankLines(a + b) == NonBlankLines(a) + NonBlankLines(b)
    decreases |a|
  {
    if a == [] {
      assert a + b == b;
    } else {
      var ab := a + b;
      assert ab[0] == a[0] && ab[1..] == a[1..] + b;
      var head := if NonBlank(a[0]) then [a[0]] else [];
      assert NonBlankLines(ab) == head + NonBlankLines(a[1..] + b);
      assert NonBlankLines(a) == head + NonBlankLines(a[1..]);
      NonBlankLinesAppend(a[1..], b);
      assert head + (NonBlankLines(a[1..]) + NonBlankLines(b))
          == (head + NonBlankLines(a[1..])) + NonBlankLines(b);
    }
  }

  /** The lines `importFromTSV` works on: the trimmed text split on newlines, blank
      lines dropped. The first of them is the header. */
  function ImportLines(text: string): (r: seq<string>)
    ensures |r| <= |Split(Trim(text), NEWLINE)|
    ensures forall k :: 0 <= k < |r| ==> NonBlank(r[k]) && NEWLINE !in r[k]
  {
    var lines := Split(Trim(text), NEWLINE);
    ImportLinesKept(lines);
    NonBlankLines(lines)
  }

  /** Every kept line is non-blank and one of the input lines. */
  lemma ImportLinesKept(lines: seq<string>)
    ensures forall k :: 0 <= k < |NonBlankLines(lines)| ==>
              NonBlank(NonBlankLines(lines)[k]) && NonBlankLines(lines)[k] in lines
  {
    forall k | 0 <= k < |NonBlankLines(lines)|
      ensures NonBlank(NonBlankLines(lines)[k]) && NonBlankLines(lines)[k] in lines
    {
      NonBlankLinesMembers(lines, NonBlankLines(lines)[k]);
    }
  }

  /** A destructured cell is truthy: it exists and is not the empty string. */
  predicate Present(parts: seq<string>, i: nat) {
    i < |parts| && parts[i] != []
  }

  /** One data line read as a record with the given id and timestamps. The cells are
      appName, planName, price, comments and expiryDate; further cells are ignored.
      When the fifth cell exists the third and fourth exist too, so the `comments || ''`
      fallback of `importFromTSV` and `parseFloat(undefined)` never come into play. */
  function ParseRow(line: string, id: string, now: string, parse: string -> Option<real>)
    : (r: Result<Subscription, ImportError>)
    ensures r.Ok? ==>
      && r.value.id == id && r.value.createdAt == now && r.value.updatedAt == now
      && r.value.appName != [] && r.value.planName != [] && r.value.expiryDate != []
      && |Split(line, TAB)| >= 5
      && r.value.appName == Split(line, TAB)[0] && r.value.planName == Split(line, TAB)[1]
      && parse(Split(line, TAB)[2]) == Some(r.value.price)
      && r.value.comments == Split(line, TAB)[3] && r.value.expiryDate == Split(line, TAB)[4]
    ensures r == Err(MissingFields) <==>
      !(Present(Split(line, TAB), 0) && Present(Split(line, TAB), 1) && Present(Split(line, TAB), 4))
    ensures r == Err(InvalidPrice) <==>
      && Present(Split(line, TAB), 0) && Present(Split(line, TAB), 1) && Present(Split(line, TAB), 4)
      && parse(Split(line, TAB)[2]).None?
    ensures r.Ok? || r == Err(MissingFields) || r == Err(InvalidPrice)
  {
    var parts := Split(line, TAB);
    if !(Present(parts, 0) && Present(parts, 1) && Present(parts, 4)) then Err(MissingFields)
    else
      match parse(parts[2])
      case None => Err(InvalidPrice)
      case Some(price) => Ok(Subscription(id, parts[0], parts[1], price, parts[3], parts[4], now, now))
  }

  /** The data lines read in order; row `k` gets id `newId(k)`. The first line that
      fails decides the error, and nothing is kept from the lines before it. */
  function ParseRows(rows: seq<string>, newId: nat -> string, now: string,
                     parse: string -> Option<real>): (r: Result<seq<Subscription>, ImportError>)
    ensures r.Ok? ==> |r.value| == |rows|
    ensures r != Err(InvalidFormat)
    decreases |rows|
  {
    if rows == [] then Ok([])
    else
      var n := |rows| - 1;
      match ParseRows(rows[..n], newId, now, parse)
      case Err(e) => Err(e)
      case Ok(done) =>
        match ParseRow(rows[n], newId(n), now, parse)
        case Err(e) => Err(e)
        case Ok(s) => Ok(done + [s])
  }

  /** `importFromTSV` as a value: the list that replaces the stored one, or the reason
      the whole import is refused. */
  function ParseImport(text: string, newId: nat -> string, now: string,
                       parse: string -> Option<real>): (r: Result<seq<Subscription>, ImportError>)
    ensures r == Err(InvalidFormat) <==> |ImportLines(text)| < 2
    ensures r.Ok? ==> |r.value| == |ImportLines(text)| - 1
  {
    var lines := ImportLines(text);
    if |lines| < 2 then Err(InvalidFormat) else ParseRows(lines[1..], newId, now, parse)
  }

  /** Once a prefix of the rows fails, every longer prefix fails with the same error. */
  lemma {:induction false} ParseRowsErrorSticks(rows: seq<string>, n: nat, newId: nat -> string,
                                                now: string, parse: string -> Option<real>)
    requires n <= |rows|
    requires ParseRows(rows[..n], newId, now, parse).Err?
    ensures ParseRows(rows, newId, now, parse) == ParseRows(rows[..n], newId, now, parse)
    decreases |rows| - n
  {
    if n < |rows| {
      var m := |rows| - 1;
      assert rows[..m][..n] == rows[..n];
      ParseRowsErrorSticks(rows[..m], n, newId, now, parse);
    } else {
      assert rows[..n] == rows;
    }
  }

  /** Reading one more row: a row that reads extends the records, a row that fails
      fails the whole list of rows. */
  lemma ParseRowsStep(rows: seq<string>, i: nat, done: seq<Subscription>, newId: nat -> string,
                      now: string, parse: string -> Option<real>)
    requires i < |rows| && ParseRows(rows[..i], newId, now, parse) == Ok(done)
    ensures var row := ParseRow(rows[i], newId(i), now, parse);
      && (row.Ok? ==> ParseRows(rows[..i + 1], newId, now, parse) == Ok(done + [row.value]))
      && (row.Err? ==> ParseRows(rows, newId, now, parse) == Err(row.error))
  {
    assert rows[..i + 1][..i] == rows[..i];
    if ParseRow(rows[i], newId(i), now, parse).Err? {
      ParseRowsErrorSticks(rows, i + 1, newId, now, parse);
    }
  }

  /** Reading the rows succeeds exactly when every row reads, and then the records are
      the rows' records in order. */
  lemma {:induction false} ParseRowsAll(rows: seq<string>, newId: nat -> string, now: string,
                                        parse: string -> Option<real>)
    ensures ParseRows(rows, newId, now, parse).Ok? <==>
              forall k :: 0 <= k < |rows| ==> ParseRow(rows[k], newId(k), now, parse).Ok?
    ensures ParseRows(rows, newId, now, parse).Ok? ==>
              forall k :: 0 <= k < |rows| ==>
                ParseRows(rows, newId, now, parse).value[k] == ParseRow(rows[k], newId(k), now, parse).value
    decreases |rows|
  {
    if rows != [] {
      var n := |rows| - 1;
      var pre := rows[..n];
      ParseRowsAll(pre, newId, now, parse);
      assert forall k :: 0 <= k < n ==> pre[k] == rows[k];
      var last := ParseRow(rows[n], newId(n), now, parse);
      if ParseRows(pre, newId, now, parse).Ok? && last.Ok? {
        var done := ParseRows(pre, newId, now, parse).value;
        assert ParseRows(rows, newId, now, parse) == Ok(done + [last.value]);
      }
    }
  }

  /** When reading fails, some row fails with that error and every row before it reads. */
  lemma {:induction false} ParseRowsFirstError(rows: seq<string>, newId: nat -> string, now: string,
                                               parse: string -> Option<real>)
    requires ParseRows(rows, newId, now, parse).Err?
    ensures exists i :: 0 <= i < |rows| &&
              ParseRow(rows[i], newId(i), now, parse) == Err(ParseRows(rows, newId, now, parse).error) &&
              forall k :: 0 <= k < i ==> ParseRow(rows[k], newId(k), now, parse).Ok?
    decreases |rows|
  {
    var n := |rows| - 1;
    assert forall k :: 0 <= k < n ==> rows[..n][k] == rows[k];
    if ParseRows(rows[..n], newId, now, parse).Err? {
      ParseRowsFirstError(rows[..n], newId, now, parse);
    } else {
      ParseRowsAll(rows[..n], newId, now, parse);
    }
  }

  /** The import is refused when the text has fewer than two non-blank lines, or when
      any data line lacks appName, planName or expiryDate or has a price that does not
      parse; otherwise it succeeds. */
  lemma ImportSucceedsIff(text: string, newId: nat -> string, now: string,
                          parse: string -> Option<real>)
    ensures var lines := ImportLines(text);
      ParseImport(text, newId, now, parse).Ok? <==>
        |lines| >= 2 &&
        forall k :: 1 <= k < |lines| ==>
          var parts := Split(lines[k], TAB);
          Present(parts, 0) && Present(parts, 1) && Present(parts, 4) && parse(parts[2]).Some?
    ensures |ImportLines(text)| < 2 ==> ParseImport(text, newId, now, parse) == Err(InvalidFormat)
  {
    var lines := ImportLines(text);
    if |lines| >= 2 {
      var rows := lines[1..];
      ParseRowsAll(rows, newId, now, parse);
      assert forall k :: 1 <= k < |lines| ==> lines[k] == rows[k - 1];
      if ParseImport(text, newId, now, parse).Ok? {
        forall k | 1 <= k < |lines|
          ensures var parts := Split(lines[k], TAB);
                  Present(parts, 0) && Present(parts, 1) && Present(parts, 4) && parse(parts[2]).Some?
        {
          assert ParseRow(rows[k - 1], newId(k - 1), now, parse).Ok?;
        }
      }
    }
  }

  /** A successful import yields one record per data line, in order: row `k` has id
      `newId(k)`, both timestamps `now`, and its first five cells as its fields. */
  lemma ImportSuccessShape(text: string, newId: nat -> string, now: string,
                           parse: string -> Option<real>)
    requires ParseImport(text, newId, now, parse).Ok?
    ensures var lines := ImportLines(text);
            var list := ParseImport(text, newId, now, parse).value;
      && |lines| >= 2 && |list| == |lines| - 1
      && forall k :: 0 <= k < |list| ==>
           var parts := Split(lines[k + 1], TAB);
           && list[k].id == newId(k) && list[k].createdAt == now && list[k].updatedAt == now
           && |parts| >= 5
           && list[k].appName == parts[0] && list[k].planName == parts[1]
           && parse(parts[2]) == Some(list[k].price)
           && list[k].comments == parts[3] && list[k].expiryDate == parts[4]
  {
    var lines := ImportLines(text);
    var rows := lines[1..];
    ParseRowsAll(rows, newId, now, parse);
    assert forall k :: 0 <= k < |rows| ==> rows[k] == lines[k + 1];
  }

  /** With distinct fresh ids for the rows, an imported list has no duplicate ids. */
  lemma ImportIdsUnique(text: string, newId: nat -> string, now: string,
                        parse: string -> Option<real>)
    requires ParseImport(text, newId, now, parse).Ok?
    requires forall i, j :: 0 <= i < j < |ImportLines(text)| ==> newId(i) != newId(j)
    ensures UniqueIds(ParseImport(text, newId, now, parse).value)
  {
    ImportSuccessShape(text, newId, now, parse);
  }

  /** A record survives export and import when its texts hold no tab or newline, the
      required fields are non-empty, appName does not start and expiryDate does not end
      with whitespace, and its price reads back from its printed form. */
  predicate Exportable(s: Subscription, show: real -> string, parse: string -> Option<real>) {
    && (forall k :: 0 <= k < 5 ==> TAB !in RowFields(s, show)[k] && NEWLINE !in RowFields(s, show)[k])
    && s.appName != [] && !IsWhitespace(s.appName[0])
    && s.planName != []
    && s.expiryDate != [] && !IsWhitespace(s.expiryDate[|s.expiryDate| - 1])
    && parse(show(s.price)) == Some(s.price)
  }

  /** The records an import of an export produces: the same caller fields in the same
      order, with new ids and both timestamps set to the import time. */
  function Reimported(subs: seq<Subscription>, newId: nat -> string, now: string): (r: seq<Subscription>)
    ensures |r| == |subs|
    ensures forall k :: 0 <= k < |subs| ==> r[k] == NewRecord(InputOf(subs[k]), newId(k), now)
  {
    seq(|subs|, k requires 0 <= k < |subs| => NewRecord(InputOf(subs[k]), newId(k), now))
  }

  /** An exported data line reads back as its record's fields. */
  lemma RowRoundTrip(s: Subscription, show: real -> string, parse: string -> Option<real>,
                     id: string, now: string)
    requires Exportable(s, show, parse)
    ensures ParseRow(RowText(s, show), id, now, parse) == Ok(NewRecord(InputOf(s), id, now))
  {
    var f := RowFields(s, show);
    SplitJoin(f, TAB);
  }

  /** An exported line holds no newline and starts with a non-whitespace character. */
  predicate GoodLine(line: string) {
    NEWLINE !in line && line != [] && !IsWhitespace(line[0])
  }

  lemma HeaderLineGood()
    ensures GoodLine(HeaderLine())
  {
    JoinFree(HEADERS, TAB, NEWLINE);
    JoinEnds(HEADERS, TAB);
  }

  /** The data line of an exportable record is a good line and ends as its expiryDate. */
  lemma RowTextGood(s: Subscription, show: real -> string, parse: string -> Option<real>)
    requires Exportable(s, show, parse)
    ensures GoodLine(RowText(s, show))
    ensures var t := RowText(s, show); !IsWhitespace(t[|t| - 1])
  {
    var f := RowFields(s, show);
    JoinFree(f, TAB, NEWLINE);
    JoinEnds(f, TAB);
  }

  /** Good lines joined by newlines, the last one not ending in whitespace, are seen
      by the import as exactly those lines. */
  lemma ImportLinesOfJoin(lines: seq<string>)
    requires |lines| >= 1
    requires forall k :: 0 <= k < |lines| ==> GoodLine(lines[k])
    requires var l := lines[|lines| - 1]; l != [] && !IsWhitespace(l[|l| - 1])
    ensures ImportLines(Join(lines, NEWLINE)) == lines
  {
    var text := Join(lines, NEWLINE);
    JoinEnds(lines, NEWLINE);
    TrimProperties(text);
    SplitJoin(lines, NEWLINE);
    forall k | 0 <= k < |lines| ensures NonBlank(lines[k]) {
      TrimProperties(lines[k]);
    }
  }

  /** The lines of an export, as the import sees them: the header, then one line per
      record. */
  lemma ExportLines(subs: seq<Subscription>, show: real -> string, parse: string -> Option<real>)
    requires subs != []
    requires forall k :: 0 <= k < |subs| ==> Exportable(subs[k], show, parse)
    ensures ImportLines(Export(subs, show)) == [HeaderLine()] + DataLines(subs, show)
  {
    var rows := DataLines(subs, show);
    var lines := [HeaderLine()] + rows;
    HeaderLineGood();
    forall k | 0 <= k < |rows| ensures GoodLine(rows[k]) {
      RowTextGood(subs[k], show, parse);
    }
    forall k | 0 <= k < |lines| ensures GoodLine(lines[k]) {
      if k > 0 { assert lines[k] == rows[k - 1]; }
    }
    RowTextGood(subs[|subs| - 1], show, parse);
    assert lines[|lines| - 1] == RowText(subs[|subs| - 1], show);
    ImportLinesOfJoin(lines);
  }

  /** Importing the export of a non-empty list of exportable records succeeds and gives
      back the same caller fields in the same order; only ids and timestamps are new. */
  lemma ExportImportRoundTrip(subs: seq<Subscription>, show: real -> string,
                              parse: string -> Option<real>, newId: nat -> string, now: string)
    requires subs != []
    requires forall k :: 0 <= k < |subs| ==> Exportable(subs[k], show, parse)
    ensures ParseImport(Export(subs, show), newId, now, parse) == Ok(Reimported(subs, newId, now))
  {
    var rows := DataLines(subs, show);
    ExportLines(subs, show, parse);
    ImportOfLines(Export(subs, show), HeaderLine(), rows, newId, now, parse);
    forall k | 0 <= k < |rows|
      ensures ParseRow(rows[k], newId(k), now, parse) == Ok(NewRecord(InputOf(subs[k]), newId(k), now))
    {
      RowRoundTrip(subs[k], show, parse, newId(k), now);
    }
    ParseRowsExact(rows, Reimported(subs, newId, now), newId, now, parse);
  }

  /** Rows that each read as the matching record read as exactly those records. */
  lemma ParseRowsExact(rows: seq<string>, out: seq<Subscription>, newId: nat -> string,
                       now: string, parse: string -> Option<real>)
    requires |out| == |rows|
    requires forall k :: 0 <= k < |rows| ==> ParseRow(rows[k], newId(k), now, parse) == Ok(out[k])
    ensures ParseRows(rows, newId, now, parse) == Ok(out)
  {
    ParseRowsAll(rows, newId, now, parse);
    assert forall k :: 0 <= k < |rows| ==> ParseRow(rows[k], newId(k), now, parse).Ok?;
    var got := ParseRows(rows, newId, now, parse).value;
    assert |got| == |out|;
    assert forall k :: 0 <= k < |out| ==> got[k] == out[k];
    assert got == out;
  }

  /** An import whose lines are a header and some rows reads exactly those rows. */
  lemma ImportOfLines(text: string, header: string, rows: seq<string>, newId: nat -> string,
                      now: string, parse: string -> Option<real>)
    requires rows != []
    requires ImportLines(text) == [header] + rows
    ensures ParseImport(text, newId, now, parse) == ParseRows(rows, newId, now, parse)
  {
    assert ([header] + rows)[1..] == rows;
  }

}
