/** The detailed-data report: questionnaires and their questions flattened
    into one record per (questionnaire, question) pair, then written as
    comma-separated text with minimal quoting. */
module CsvReport {
  import opened Wrappers
  import opened Sequences
  import QuestionSchema

  // =====================================================================
  // Records and the serialiser

  /** One property of a record: its key and its value, already converted to
      a string; `None` is a null or undefined value. */
  datatype Field = Field(key: string, value: Option<string>)

  /** A record: its properties in `Object.keys` order. */
  type Record = seq<Field>

  function Keys(rec: Record): (keys: seq<string>)
    ensures |keys| == |rec|
    ensures forall i :: 0 <= i < |rec| ==> keys[i] == rec[i].key
  {
    seq(|rec|, i requires 0 <= i < |rec| => rec[i].key)
  }

  /** `row[key]`: the value of the field with that key (the first one, should
      the key repeat), `None` when no field has the key. */
  function Lookup(rec: Record, key: string): (v: Option<string>)
    ensures (forall i :: 0 <= i < |rec| ==> rec[i].key != key) ==> v == None
    ensures forall i :: (0 <= i < |rec| && rec[i].key == key
                          && forall j :: 0 <= j < i ==> rec[j].key != key) ==> v == rec[i].value
    ensures v.Some? ==> exists i :: 0 <= i < |rec| && rec[i].value == v
  {
    if |rec| == 0 then None
    else if rec[0].key == key then rec[0].value
    else
      var v := Lookup(rec[1..], key);
      assert forall i :: 1 <= i < |rec| ==> rec[i] == rec[1..][i - 1];
      v
  }

  /** The text written for one value: empty for null or undefined; wrapped in
      double quotes when it contains a comma; verbatim otherwise. Double quotes
      inside the value are written as they are, never doubled. */
  function Cell(v: Option<string>): (cell: string) {
    match v
    case None => ""
    case Some(s) => if ',' in s then "\"" + s + "\"" else s
  }

  /** The cells of one data line, one per header key, in header order. */
  function Cells(keys: seq<string>, rec: Record): (cells: seq<string>) {
    seq(|keys|, j requires 0 <= j < |keys| => Cell(Lookup(rec, keys[j])))
  }

  /** The header line: the first record's keys joined by commas. */
  function HeaderLine(first: Record): (line: string) {
    Join(Keys(first), ",")
  }

  /** The data line of one record under the given header keys. */
  function DataLine(keys: seq<string>, rec: Record): (line: string) {
    Join(Cells(keys, rec), ",")
  }

  /** The header line followed by one data line per record, in input order. */
  function Lines(data: seq<Record>): (lines: seq<string>)
    requires |data| > 0
    ensures |lines| == |data| + 1
  {
    [HeaderLine(data[0])]
    + seq(|data|, i requires 0 <= i < |data| => DataLine(Keys(data[0]), data[i]))
  }

  /** `jsonToCsv`: the empty string for a null or empty list; otherwise the
      header and data lines joined by newlines. */
  function JsonToCsv(data: Option<seq<Record>>): (csv: string)
    ensures csv == "" <==> data.None? || |data.value| == 0
    ensures data.Some? && |data.value| > 0 ==> HeaderLine(data.value[0]) + "\n" <= csv
  {
    if data.None? || |data.value| == 0 then ""
    else Join(Lines(data.value), "\n")
  }

  // =====================================================================
  // Reading the text back

  /** The value as a reader of the report sees it: null and undefined as empty. */
  function Shown(v: Option<string>): (s: string) {
    v.GetOr("")
  }

  /** The values of a record under the given keys, in key order. */
  function Values(rec: Record, keys: seq<string>): (values: seq<string>) {
    seq(|keys|, j requires 0 <= j < |keys| => Shown(Lookup(rec, keys[j])))
  }

  /** Reads one cell: strips the surrounding quotes of a quoted cell that holds a comma. */
  function ReadCell(cell: string): (value: string) {
    if |cell| >= 2 && cell[0] == '"' && cell[|cell| - 1] == '"' && ',' in cell
    then cell[1..|cell| - 1]
    else cell
  }

  /** Reads the text back naively: lines split on newlines, cells on commas. */
  function SplitCsv(csv: string): (table: seq<seq<string>>)
    ensures |table| == |Split(csv, '\n')|
  {
    var lines := Split(csv, '\n');
    seq(|lines|, i requires 0 <= i < |lines| => Split(lines[i], ','))
  }

  /** No header key, and no value written under a header key, holds the
      character `c`; fields whose key is not in the header never reach the text. */
  predicate Avoids(data: seq<Record>, c: char)
    requires |data| > 0
  {
    var keys := Keys(data[0]);
    && (forall j :: 0 <= j < |keys| ==> c !in keys[j])
    && (forall i, j :: 0 <= i < |data| && 0 <= j < |keys| ==> c !in Shown(Lookup(data[i], keys[j])))
  }

  /** A character other than the double quote that is not in the value is not in its cell. */
  lemma CellAvoids(v: Option<string>, c: char)
    requires c != '"' && c !in Shown(v)
    ensures c !in Cell(v)
  {
  }

  // =====================================================================
  // Properties of the serialiser

  /** A cell is quoted exactly when its value holds a comma, and is otherwise the value itself. */
  lemma CellQuotedIffComma(s: string)
    ensures Cell(Some(s)) == "\"" + s + "\"" <==> ',' in s
    ensures Cell(Some(s)) == s <==> ',' !in s
  {
    if ',' in s {
      assert |Cell(Some(s))| == |s| + 2;
    }
  }

  /** Null, undefined and a key the record lacks all give an empty cell. */
  lemma MissingOrNullGivesEmptyCell(rec: Record, key: string)
    requires (forall i :: 0 <= i < |rec| ==> rec[i].key != key)
             || (exists i :: 0 <= i < |rec| && rec[i].key == key && rec[i].value == None
                              && forall j :: 0 <= j < i ==> rec[j].key != key)
    ensures Cell(Lookup(rec, key)) == ""
  {
  }

  /** Quotes inside a value are not escaped: quoting adds exactly the two
      surrounding quote characters and no others. */
  lemma {:induction false} QuotesNotEscaped(s: string)
    ensures Count(Cell(Some(s)), '"') == Count(s, '"') + (if ',' in s then 2 else 0)
  {
    if ',' in s {
      CountConcat("\"" + s, "\"", '"');
      CountConcat("\"", s, '"');
    }
  }

  /** Reading a cell gives back the value it was written from, null shown as empty. */
  lemma ReadCellInverse(v: Option<string>)
    ensures ReadCell(Cell(v)) == Shown(v)
  {
    match v
    case None =>
    case Some(s) =>
      if ',' in s {
        var c := Cell(v);
        assert c[1..|c| - 1] == s;
        assert ',' in c by {
          var k :| 0 <= k < |s| && s[k] == ',';
          assert c[k + 1] == ',';
        }
      }
  }

  /** A data line under `n` header keys has `n - 1` separating commas besides
      those inside its (quoted) cells, so exactly `n - 1` commas when no value
      written holds one. */
  lemma CellsPerLine(keys: seq<string>, rec: Record)
    requires |keys| > 0
    ensures Count(DataLine(keys, rec), ',') == |keys| - 1 + CountIn(Cells(keys, rec), ',')
    ensures (forall j :: 0 <= j < |keys| ==> ',' !in Shown(Lookup(rec, keys[j]))) ==>
              Count(DataLine(keys, rec), ',') == |keys| - 1
  {
    var cells := Cells(keys, rec);
    CountJoin(cells, ',');
    if forall j :: 0 <= j < |keys| ==> ',' !in Shown(Lookup(rec, keys[j])) {
      forall j | 0 <= j < |keys| ensures ',' !in cells[j] {
        CellAvoids(Lookup(rec, keys[j]), ',');
      }
    }
  }

  /** The text is the header line, then one line per record in input order:
      splitting on newlines gives the lines back when no key or value holds one. */
  lemma CsvLines(data: seq<Record>)
    requires |data| > 0
    requires Avoids(data, '\n')
    ensures Split(JsonToCsv(Some(data)), '\n') == Lines(data)
  {
    var lines := Lines(data);
    forall i | 0 <= i < |lines| ensures '\n' !in lines[i] {
      LineAvoidsNewline(data, i);
    }
    SplitJoin(lines, '\n');
  }

  /** No line holds a newline when no header key or written value does. */
  lemma LineAvoidsNewline(data: seq<Record>, i: nat)
    requires |data| > 0 && i <= |data|
    requires Avoids(data, '\n')
    ensures '\n' !in Lines(data)[i]
  {
    var keys := Keys(data[0]);
    if i == 0 {
      JoinAvoids(keys, ",", '\n');
    } else {
      var cells := Cells(keys, data[i - 1]);
      forall j | 0 <= j < |cells| ensures '\n' !in cells[j] {
        CellAvoids(Lookup(data[i - 1], keys[j]), '\n');
      }
      JoinAvoids(cells, ",", '\n');
      assert Lines(data)[i] == DataLine(keys, data[i - 1]);
    }
  }

  /** Reading one data line back: with no comma in the record's values and at
      least one key, splitting the line on commas gives the values in key order. */
  lemma DataLineRoundTrip(keys: seq<string>, rec: Record)
    requires |keys| > 0
    requires forall j :: 0 <= j < |keys| ==> ',' !in Shown(Lookup(rec, keys[j]))
    ensures Split(DataLine(keys, rec), ',') == Values(rec, keys)
  {
    var cells := Cells(keys, rec);
    forall j | 0 <= j < |keys|
      ensures cells[j] == Values(rec, keys)[j] && ',' !in cells[j]
    {
      CellAvoids(Lookup(rec, keys[j]), ',');
    }
    SplitJoin(cells, ',');
  }

  /** Round trip: when no key or value holds a comma or a newline, reading the
      text back gives the first record's keys, then each record's values in
      key order, with null and missing values as empty strings. */
  lemma {:induction false} CsvRoundTrip(data: seq<Record>)
    requires |data| > 0 && |data[0]| > 0
    requires Avoids(data, ',') && Avoids(data, '\n')
    ensures SplitCsv(JsonToCsv(Some(data)))
            == [Keys(data[0])] + seq(|data|, i requires 0 <= i < |data| => Values(data[i], Keys(data[0])))
  {
    var keys := Keys(data[0]);
    CsvLines(data);
    var lines := Lines(data);
    var table := SplitCsv(JsonToCsv(Some(data)));
    var expected := [keys] + seq(|data|, i requires 0 <= i < |data| => Values(data[i], keys));
    SplitJoin(keys, ',');
    forall i | 1 <= i < |table|
      ensures table[i] == expected[i]
    {
      assert table[i] == Split(lines[i], ',');
      RecordLineRoundTrip(data, i - 1);
    }
  }

  /** One record's line of the text, read back on commas. */
  lemma RecordLineRoundTrip(data: seq<Record>, i: nat)
    requires i < |data| && |data[0]| > 0
    requires Avoids(data, ',')
    ensures Lines(data)[i + 1] == DataLine(Keys(data[0]), data[i])
    ensures Split(Lines(data)[i + 1], ',') == Values(data[i], Keys(data[0]))
  {
    DataLineRoundTrip(Keys(data[0]), data[i]);
  }

  /** The lines written for one record whose first value holds a comma and whose second is null. */
  lemma WorkedExampleLines()
    ensures Lines([[Field("a", Some("x,y")), Field("b", None)]]) == ["a,b", "\"x,y\","]
  {
    var rec := [Field("a", Some("x,y")), Field("b", None)];
    assert Keys(rec) == ["a", "b"];
    assert "x,y"[1] == ',';
    assert Cell(Lookup(rec, "a")) == "\"x,y\"";
    assert Cell(Lookup(rec, "b")) == "";
    assert Cells(["a", "b"], rec) == ["\"x,y\"", ""];
    assert "a" + "," + "b" == "a,b";
    assert "\"x,y\"" + "," + "" == "\"x,y\",";
  }

  /** The whole text for that record: the comma-holding value is quoted and the null is empty. */
  lemma WorkedExample()
    ensures JsonToCsv(Some([[Field("a", Some("x,y")), Field("b", None)]])) == "a,b\n\"x,y\","
  {
    WorkedExampleLines();
    assert "a,b" + "\n" + "\"x,y\"," == "a,b\n\"x,y\",";
  }

  // =====================================================================
  // Flattening questionnaires into report records

  /** A question as populated into its questionnaire, with its identifier. */
  datatype StoredQuestion = StoredQuestion(id: string, question: QuestionSchema.Question)

  /** A questionnaire with its questions populated, in their stored order. */
  datatype Questionnaire = Questionnaire(id: string, title: string, questions: seq<StoredQuestion>)

  /** The six keys of every flattened record, in the order they are written. */
  const ReportColumns: seq<string> := [
    "questionnaire_id", "questionnaire_title", "question_id",
    "question_text", "question_type", "question_options"
  ]

  /** The record for one (questionnaire, question) pair; options are joined by "; ". */
  function ReportRow(q: Questionnaire, sq: StoredQuestion): (rec: Record) {
    [ Field("questionnaire_id", Some(q.id)),
      Field("questionnaire_title", Some(q.title)),
      Field("question_id", Some(sq.id)),
      Field("question_text", Some(sq.question.text)),
      Field("question_type", Some(sq.question.questionType)),
      Field("question_options", Some(Join(sq.question.options, "; "))) ]
  }

  /** A report record has the six columns in order, no null value, and the
      question's options joined by "; " as its last value. */
  lemma ReportRowShape(q: Questionnaire, sq: StoredQuestion)
    ensures Keys(ReportRow(q, sq)) == ReportColumns
    ensures forall j :: 0 <= j < 6 ==> ReportRow(q, sq)[j].value.Some?
    ensures ReportRow(q, sq)[5] == Field("question_options", Some(Join(sq.question.options, "; ")))
  {
  }

  /** The records of one questionnaire, one per question, in question order. */
  function QuestionRows(q: Questionnaire): (rows: seq<Record>) {
    seq(|q.questions|, j requires 0 <= j < |q.questions| => ReportRow(q, q.questions[j]))
  }

  /** The flattened records of the questionnaires, in questionnaire order. */
  function Flattened(qs: seq<Questionnaire>): (rows: seq<Record>) {
    FlatMap(qs, QuestionRows)
  }

  /** The number of (questionnaire, question) pairs. */
  function TotalQuestions(qs: seq<Questionnaire>): (n: nat) {
    if |qs| == 0 then 0
    else TotalQuestions(qs[..|qs| - 1]) + |qs[|qs| - 1].questions|
  }

  /** The nested loops of the report handler, pushing one record per question. */
  method Flatten(qs: seq<Questionnaire>) returns (rows: seq<Record>)
    ensures rows == Flattened(qs)
  {
    rows := [];
    var i := 0;
    while i < |qs|
      invariant 0 <= i <= |qs|
      invariant rows == Flattened(qs[..i])
    {
      var q := qs[i];
      var j := 0;
      while j < |q.questions|
        invariant 0 <= j <= |q.questions|
        invariant rows == Flattened(qs[..i]) + QuestionRows(q)[..j]
      {
        rows := rows + [ReportRow(q, q.questions[j])];
        j := j + 1;
      }
      assert QuestionRows(q)[..j] == QuestionRows(q);
      assert qs[..i + 1][..i] == qs[..i];
      i := i + 1;
    }
    assert qs[..i] == qs;
  }

  /** One record per pair, nothing else: row `TotalQuestions(qs[..i]) + j`
      is the record of question `j` of questionnaire `i`. */
  lemma {:induction false} FlattenedAt(qs: seq<Questionnaire>, i: nat, j: nat)
    requires i < |qs| && j < |qs[i].questions|
    ensures |Flattened(qs)| == TotalQuestions(qs)
    ensures TotalQuestions(qs[..i]) + j < TotalQuestions(qs)
    ensures Flattened(qs)[TotalQuestions(qs[..i]) + j] == ReportRow(qs[i], qs[i].questions[j])
    decreases |qs|
  {
    var init := qs[..|qs| - 1];
    FlattenedLength(init);
    if i == |qs| - 1 {
      assert qs[..i] == init;
    } else {
      FlattenedAt(init, i, j);
      assert init[..i] == qs[..i];
      assert init[i] == qs[i];
    }
  }

  /** The number of records is the number of (questionnaire, question) pairs. */
  lemma {:induction false} FlattenedLength(qs: seq<Questionnaire>)
    ensures |Flattened(qs)| == TotalQuestions(qs)
    decreases |qs|
  {
    if |qs| > 0 {
      FlattenedLength(qs[..|qs| - 1]);
    }
  }

  /** Flattening distributes over concatenation of questionnaire lists. */
  lemma FlattenedConcat(a: seq<Questionnaire>, b: seq<Questionnaire>)
    ensures Flattened(a + b) == Flattened(a) + Flattened(b)
  {
    FlatMapConcat(a, b, QuestionRows);
  }

  /** A questionnaire without questions contributes no record. */
  lemma EmptyQuestionnaireAddsNothing(a: seq<Questionnaire>, q: Questionnaire, b: seq<Questionnaire>)
    requires |q.questions| == 0
    ensures Flattened(a + [q] + b) == Flattened(a + b)
  {
    FlattenedConcat(a + [q], b);
    FlattenedConcat(a, b);
    assert (a + [q])[..|a|] == a;
  }

  /** Every flattened record carries the six report columns, in order. */
  lemma {:induction false} FlattenedKeys(qs: seq<Questionnaire>, k: nat)
    requires k < |Flattened(qs)|
    ensures Keys(Flattened(qs)[k]) == ReportColumns
    decreases |qs|
  {
    var init := qs[..|qs| - 1];
    if k >= |Flattened(init)| {
      var last := qs[|qs| - 1];
      var j := k - |Flattened(init)|;
      assert Flattened(qs)[k] == QuestionRows(last)[j];
      ReportRowShape(last, last.questions[j]);
    } else {
      FlattenedKeys(init, k);
    }
  }

  /** The report text is empty exactly when there is no question at all;
      otherwise its first line is the six column names. */
  lemma ReportStartsWithHeader(qs: seq<Questionnaire>)
    ensures JsonToCsv(Some(Flattened(qs))) == "" <==> TotalQuestions(qs) == 0
    ensures TotalQuestions(qs) > 0 ==>
              Join(ReportColumns, ",") + "\n" <= JsonToCsv(Some(Flattened(qs)))
  {
    FlattenedLength(qs);
    if TotalQuestions(qs) > 0 {
      FlattenedKeys(qs, 0);
    }
  }

  /** `GET /detailed-data`: the flattened records written as CSV text. */
  method DetailedData(qs: seq<Questionnaire>) returns (csv: string)
    ensures csv == JsonToCsv(Some(Flattened(qs)))
    ensures csv == "" <==> TotalQuestions(qs) == 0
    ensures TotalQuestions(qs) > 0 ==> Join(ReportColumns, ",") + "\n" <= csv
  {
    var rows := Flatten(qs);
    csv := JsonToCsv(Some(rows));
    ReportStartsWithHeader(qs);
  }
}
