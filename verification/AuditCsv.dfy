/**
 The CSV audit export (internal/api_security.go) and a reader of CSV texts after section 2 of
 RFC 4180.
 */
module AuditCsv {
  import opened Wrappers
  import opened GoStrings

  // ---------- the reader ----------

  datatype Mode = FieldStart | Plain | Quoted | QuoteInQuoted | AfterCr

  // Finished records, the finished fields of the current record, and the field being read.
  datatype State = Malformed | Reading(mode: Mode, records: seq<seq<string>>, record: seq<string>, field: string)

  // A comma or a carriage return ends the field in every mode that may end one.
  function EndField(st: State, c: char): State
    requires st.Reading?
  {
    var record := st.record + [st.field];
    if c == ',' then Reading(FieldStart, st.records, record, "")
    else if c == '\r' then Reading(AfterCr, st.records, record, "")
    else Malformed
  }

  function Step(st: State, c: char): State {
    if st.Malformed? then Malformed
    else
      match st.mode
      case FieldStart =>
        if c == '"' then st.(mode := Quoted)
        else if c == ',' || c == '\r' || c == '\n' then EndField(st, c)
        else st.(mode := Plain, field := [c])
      case Plain =>
        if c == '"' || c == ',' || c == '\r' || c == '\n' then EndField(st, c)
        else st.(field := st.field + [c])
      case Quoted =>
        if c == '"' then st.(mode := QuoteInQuoted) else st.(field := st.field + [c])
      case QuoteInQuoted =>
        if c == '"' then st.(mode := Quoted, field := st.field + ['"']) else EndField(st, c)
      case AfterCr =>
        if c == '\n' then Reading(FieldStart, st.records + [st.record], [], "") else Malformed
  }

  function Run(st: State, s: string): State
    decreases |s|
  {
    if s == "" then st else Run(Step(st, s[0]), s[1..])
  }

  const START := Reading(FieldStart, [], [], "")

  // The records of a text; the last one may lack its line break.
  function Parse(s: string): Option<seq<seq<string>>> {
    match Run(START, s)
    case Malformed => None
    case Reading(mode, records, record, field) =>
      if mode == Quoted || mode == AfterCr then None
      else if mode == FieldStart && record == [] then Some(records)
      else Some(records + [record + [field]])
  }

  lemma {:induction false} RunAppend(st: State, a: string, b: string)
    ensures Run(st, a + b) == Run(Run(st, a), b)
    decreases |a|
  {
    if a == "" {
      assert a + b == b;
    } else {
      RunAppend(Step(st, a[0]), a[1..], b);
      assert (a + b)[1..] == a[1..] + b;
    }
  }

  // ---------- the printer ----------

  datatype Row = Row(
    ts: string, user: string, ip: string, action: string, verb: string, path: string, status: int, detail: string)
  {
    function Fields(): seq<string> {
      [ts, user, ip, action, verb, path, Itoa(status), detail]
    }
  }

  predicate Special(c: char) { c == ',' || c == '"' || c == '\n' || c == '\r' }

  function Escape(s: string): string {
    if forall c :: c in s ==> !Special(c) then s
    else "\"" + ReplaceChar(s, '"', "\"\"") + "\""
  }

  function Line(r: Row): string {
    Escape(r.ts) + "," + Escape(r.user) + "," + Escape(r.ip) + "," +
    Escape(r.action) + "," + Escape(r.verb) + "," + Escape(r.path) + "," +
    Itoa(r.status) + "," + Escape(r.detail) + "\r\n"
  }

  const HEADER := "ts" + "," + "user" + "," + "ip" + "," + "action" + "," + "method" + "," + "path" + "," +
                  "status" + "," + "detail" + "\r\n"

  const HEADER_FIELDS := ["ts", "user", "ip", "action", "method", "path", "status", "detail"]

  function Text(rows: seq<Row>): string {
    if rows == [] then HEADER else Text(rows[..|rows| - 1]) + Line(rows[|rows| - 1])
  }

  method AuditToCSV(rows: seq<Row>) returns (sb: string)
    ensures sb == Text(rows)
  {
    sb := HEADER;
    for i := 0 to |rows|
      invariant sb == Text(rows[..i])
    {
      assert rows[..i + 1][..i] == rows[..i];
      sb := sb + Line(rows[i]);
    }
    assert rows[..|rows|] == rows;
  }

  // ---------- reading back one field ----------

  // Ready to read the next field of a record.
  function Ready(records: seq<seq<string>>, record: seq<string>): State {
    Reading(FieldStart, records, record, "")
  }

  // The whole field has been read and can be ended.
  predicate Holds(st: State, records: seq<seq<string>>, record: seq<string>, field: string) {
    st.Reading? && st.records == records && st.record == record && st.field == field &&
    (st.mode == Plain || st.mode == QuoteInQuoted || (st.mode == FieldStart && field == ""))
  }

  lemma {:induction false} RunPlain(st: State, s: string)
    requires st.Reading? && st.mode == Plain
    requires forall c :: c in s ==> !Special(c)
    ensures Run(st, s) == st.(field := st.field + s)
    decreases |s|
  {
    if s == "" {
      assert st.field + s == st.field;
    } else {
      assert !Special(s[0]);
      RunPlain(st.(field := st.field + [s[0]]), s[1..]);
      assert st.field + [s[0]] + s[1..] == st.field + s;
    }
  }

  lemma {:induction false} RunQuoted(st: State, s: string)
    requires st.Reading? && st.mode == Quoted
    ensures Run(st, ReplaceChar(s, '"', "\"\"")) == st.(field := st.field + s)
    decreases |s|
  {
    if s == "" {
      assert st.field + s == st.field;
    } else {
      var head := if s[0] == '"' then "\"\"" else [s[0]];
      var next := st.(field := st.field + [s[0]]);
      RunAppend(st, head, ReplaceChar(s[1..], '"', "\"\""));
      assert Run(st, head) == next;
      RunQuoted(next, s[1..]);
      assert st.field + [s[0]] + s[1..] == st.field + s;
    }
  }

  lemma RunEscaped(records: seq<seq<string>>, record: seq<string>, field: string)
    ensures Holds(Run(Ready(records, record), Escape(field)), records, record, field)
  {
    var st := Ready(records, record);
    if forall c :: c in field ==> !Special(c) {
      if field != "" {
        assert !Special(field[0]);
        RunPlain(st.(mode := Plain, field := [field[0]]), field[1..]);
        assert [field[0]] + field[1..] == field;
      }
    } else {
      hide ReplaceChar;
      var body := ReplaceChar(field, '"', "\"\"");
      RunAppend(st, "\"" + body, "\"");
      RunAppend(st, "\"", body);
      RunQuoted(st.(mode := Quoted), field);
      assert "" + field == field;
    }
  }

  lemma NumberNeedsNoQuotes(n: int)
    ensures Escape(Itoa(n)) == Itoa(n)
  {
  }

  // A text that leaves the reader ready, a printed field and a comma.
  lemma AddField(st: State, text: string, records: seq<seq<string>>, record: seq<string>, field: string)
    requires Run(st, text) == Ready(records, record)
    ensures Run(st, text + Escape(field) + ",") == Ready(records, record + [field])
  {
    hide Escape;
    RunAppend(st, text + Escape(field), ",");
    RunAppend(st, text, Escape(field));
    RunEscaped(records, record, field);
  }

  lemma AddLastField(st: State, text: string, records: seq<seq<string>>, record: seq<string>, field: string)
    requires Run(st, text) == Ready(records, record)
    ensures Run(st, text + Escape(field) + "\r\n") == Ready(records + [record + [field]], [])
  {
    hide Escape;
    RunAppend(st, text + Escape(field), "\r\n");
    RunAppend(st, text, Escape(field));
    RunEscaped(records, record, field);
    var done := Run(st, text + Escape(field));
    assert Step(Step(done, '\r'), '\n') == Ready(records + [record + [field]], []);
    assert "\r\n"[1..] == "\n" && "\n"[1..] == "";
  }

  // Eight printed fields read back as one record.
  lemma RunEight(st: State, text: string, records: seq<seq<string>>,
                 a: string, b: string, c: string, d: string, e: string, f: string, g: string, h: string)
    requires Run(st, text) == Ready(records, [])
    ensures Run(st, text + (Escape(a) + "," + Escape(b) + "," + Escape(c) + "," + Escape(d) + "," + Escape(e) + "," +
                            Escape(f) + "," + Escape(g) + "," + Escape(h) + "\r\n"))
         == Ready(records + [[a, b, c, d, e, f, g, h]], [])
  {
    hide Run, Escape, Ready;
    var t, r := "", [];
    RunAppend(st, text, "");
    var st1 := Run(st, text);
    RunEmpty(st1);
    AddField(st1, t, records, r, a);
    t, r := t + Escape(a) + ",", r + [a];
    AddField(st1, t, records, r, b);
    t, r := t + Escape(b) + ",", r + [b];
    AddField(st1, t, records, r, c);
    t, r := t + Escape(c) + ",", r + [c];
    AddField(st1, t, records, r, d);
    t, r := t + Escape(d) + ",", r + [d];
    AddField(st1, t, records, r, e);
    t, r := t + Escape(e) + ",", r + [e];
    AddField(st1, t, records, r, f);
    t, r := t + Escape(f) + ",", r + [f];
    AddField(st1, t, records, r, g);
    t, r := t + Escape(g) + ",", r + [g];
    AddLastField(st1, t, records, r, h);
    assert r + [h] == [a, b, c, d, e, f, g, h];
    assert "" + Escape(a) == Escape(a);
    RunAppend(st, text, t + Escape(h) + "\r\n");
  }

  lemma RunEmpty(st: State)
    ensures Run(st, "") == st
  {
  }

  lemma NamesNeedNoQuotes()
    ensures Escape("ts") == "ts" && Escape("user") == "user" && Escape("ip") == "ip"
    ensures Escape("action") == "action" && Escape("method") == "method" && Escape("path") == "path"
    ensures Escape("status") == "status" && Escape("detail") == "detail"
  {
    hide ReplaceChar;
  }

  lemma {:induction false} RunText(rows: seq<Row>)
    ensures Run(START, Text(rows)) == Ready([HEADER_FIELDS] + seq(|rows|, i requires 0 <= i < |rows| => rows[i].Fields()), [])
  {
    hide Run, Escape, Row.Fields;
    if rows == [] {
      NamesNeedNoQuotes();
      RunEmpty(START);
      RunEight(START, "", [], "ts", "user", "ip", "action", "method", "path", "status", "detail");
      assert "" + HEADER == HEADER;
    } else {
      var init, r := rows[..|rows| - 1], rows[|rows| - 1];
      RunText(init);
      LineText(Text(init), [HEADER_FIELDS] + seq(|init|, i requires 0 <= i < |init| => init[i].Fields()), r);
    }
  }

  lemma LineText(text: string, records: seq<seq<string>>, r: Row)
    requires Run(START, text) == Ready(records, [])
    ensures Run(START, text + Line(r)) == Ready(records + [r.Fields()], [])
  {
    hide Run, Escape, Itoa;
    NumberNeedsNoQuotes(r.status);
    RunEight(START, text, records, r.ts, r.user, r.ip, r.action, r.verb, r.path, Itoa(r.status), r.detail);
  }

  lemma ParseOfText(rows: seq<Row>)
    ensures Parse(Text(rows))
         == Some([HEADER_FIELDS] + seq(|rows|, i requires 0 <= i < |rows| => rows[i].Fields()))
  {
    hide Run, Text, Row.Fields;
    RunText(rows);
  }

  // Whatever the rows contain, the export reads back as the header and exactly those rows.
  lemma CsvRoundTrip(rows: seq<Row>)
    ensures Parse(Text(rows)) ==
      Some([["ts", "user", "ip", "action", "method", "path", "status", "detail"]] +
           seq(|rows|, i requires 0 <= i < |rows| =>
             [rows[i].ts, rows[i].user, rows[i].ip, rows[i].action, rows[i].verb, rows[i].path, Itoa(rows[i].status), rows[i].detail]))
  {
    hide Text, Parse, Itoa;
    ParseOfText(rows);
    var fields := seq(|rows|, i requires 0 <= i < |rows| => rows[i].Fields());
    assert fields == seq(|rows|, i requires 0 <= i < |rows| =>
      [rows[i].ts, rows[i].user, rows[i].ip, rows[i].action, rows[i].verb, rows[i].path, Itoa(rows[i].status), rows[i].detail]);
    assert HEADER_FIELDS == ["ts", "user", "ip", "action", "method", "path", "status", "detail"];
  }

  // A field is quoted exactly when it has to be: with a comma, a quote or a line break in it.
  lemma QuotedIfNeeded(s: string)
    ensures Escape(s) == s <==> ',' !in s && '"' !in s && '\n' !in s && '\r' !in s
    ensures Escape(s) != s ==> |Escape(s)| >= |s| + 2 && Escape(s)[0] == '"' && Escape(s)[|Escape(s)| - 1] == '"'
  {
    QuotesGrow(s);
  }

  lemma {:induction false} QuotesGrow(s: string)
    ensures |ReplaceChar(s, '"', "\"\"")| >= |s|
  {
    if s != "" { QuotesGrow(s[1..]); }
  }
}
