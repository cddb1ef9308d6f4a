/**
 * CSV shaping as both scrape paths do it: a cell is empty for an empty value
 * and otherwise the value in double quotes with every quote doubled; a line is
 * the eight cells of a record joined by commas; the document is the header
 * line followed by one line per record, joined by line feeds.
 *
 * Beside it stands a reader for that format (quoted cells may hold commas,
 * quotes and line feeds); the round-trip lemmas say that reading the produced
 * document gives back the header and every record's eight values.
 */
module Csv {
  import opened Records

  /** The value with every `"` replaced by `""`. */
  function DoubleQuotes(s: string): (r: string)
    ensures |r| >= |s|
  {
    if s == [] then []
    else (if s[0] == '"' then "\"\"" else [s[0]]) + DoubleQuotes(s[1..])
  }

  /** Text with no quote is left as it is. */
  lemma {:induction false} NoQuoteUnchanged(s: string)
    requires '"' !in s
    ensures DoubleQuotes(s) == s
  {
    if s != [] {
      assert '"' !in s[1..] by {
        forall i | 0 <= i < |s[1..]| ensures s[1..][i] != '"' { assert s[1..][i] == s[i + 1]; }
      }
      NoQuoteUnchanged(s[1..]);
      assert [s[0]] + s[1..] == s;
    }
  }

  /** `escapeCSV`: an empty (falsy) value gives an empty cell, anything else is quoted. */
  function Escape(v: string): (c: string)
    ensures c == "" <==> v == ""
    ensures v != "" ==> |c| >= 2 && c[0] == '"' && c[|c| - 1] == '"'
  {
    if v == "" then "" else "\"" + DoubleQuotes(v) + "\""
  }

  /** `xs.join(sep)`. */
  function Join(xs: seq<string>, sep: string): string
  {
    if xs == [] then ""
    else if |xs| == 1 then xs[0]
    else xs[0] + sep + Join(xs[1..], sep)
  }

  const Header: seq<string> := ["ID", "Name", "Date", "Rating", "Title", "Body", "Product", "Image"]

  /** The column order of a data row. */
  function Fields(r: Review): (fs: seq<string>)
    ensures |fs| == |Header|
  {
    [r.id, r.name, r.date, r.rating, r.title, r.body, r.product, r.image]
  }

  function EscapeAll(fs: seq<string>): (cs: seq<string>)
    ensures |cs| == |fs|
    ensures forall i :: 0 <= i < |fs| ==> cs[i] == Escape(fs[i])
  {
    seq(|fs|, i requires 0 <= i < |fs| => Escape(fs[i]))
  }

  /** One data row: the escaped fields joined by commas. */
  function Line(r: Review): string
  {
    Join(EscapeAll(Fields(r)), ",")
  }

  function Lines(rs: seq<Review>): (ls: seq<string>)
    ensures |ls| == |rs|
    ensures forall i :: 0 <= i < |rs| ==> ls[i] == Line(rs[i])
  {
    seq(|rs|, i requires 0 <= i < |rs| => Line(rs[i]))
  }

  /** The whole document: the header line, then one line per record. */
  function ToCsv(rs: seq<Review>): string
  {
    Join([Join(Header, ",")] + Lines(rs), "\n")
  }

  // ---------------------------------------------------------------------
  // A reader for the format, the partner of the functions above.
  // ---------------------------------------------------------------------

  /** An unquoted cell runs up to the next comma or line feed: its length. */
  function PlainLen(s: string): (k: nat)
    ensures k <= |s|
    ensures forall i :: 0 <= i < k ==> s[i] != ',' && s[i] != '\n'
    ensures k == |s| || s[k] == ',' || s[k] == '\n'
  {
    if s == [] || s[0] == ',' || s[0] == '\n' then 0 else 1 + PlainLen(s[1..])
  }

  /** The inside of a quoted cell, after its opening quote: `""` stands for `"`, a lone `"` closes. */
  function ParseQuoted(s: string): (r: Option<(string, string)>)
    ensures r.Some? ==> |r.value.1| < |s|
  {
    if s == [] then None
    else if s[0] == '"' then
      if |s| > 1 && s[1] == '"' then
        match ParseQuoted(s[2..])
        case None => None
        case Some(p) => Some(("\"" + p.0, p.1))
      else Some(("", s[1..]))
    else
      match ParseQuoted(s[1..])
      case None => None
      case Some(p) => Some(([s[0]] + p.0, p.1))
  }

  /** One cell, quoted or not, and what follows it. */
  function ParseField(s: string): (r: Option<(string, string)>)
    ensures r.Some? ==> |r.value.1| <= |s|
  {
    if |s| > 0 && s[0] == '"' then ParseQuoted(s[1..])
    else var k := PlainLen(s); Some((s[..k], s[k..]))
  }

  /** The cells of one line, and what follows the line. */
  function ParseFields(s: string): (r: Option<(seq<string>, string)>)
    ensures r.Some? ==> |r.value.1| <= |s| && |r.value.0| > 0
    decreases |s|
  {
    match ParseField(s)
    case None => None
    case Some(p) =>
      if |p.1| > 0 && p.1[0] == ',' then
        match ParseFields(p.1[1..])
        case None => None
        case Some(q) => Some(([p.0] + q.0, q.1))
      else Some(([p.0], p.1))
  }

  /** All lines of a document. */
  function ParseCsv(s: string): (r: Option<seq<seq<string>>>)
    ensures r.Some? ==> |r.value| > 0
    decreases |s|
  {
    match ParseFields(s)
    case None => None
    case Some(p) =>
      if p.1 == [] then Some([p.0])
      else if p.1[0] == '\n' then
        match ParseCsv(p.1[1..])
        case None => None
        case Some(more) => Some([p.0] + more)
      else None
  }

  /** A single cell read on its own: the inverse of Escape. */
  function Unescape(c: string): (r: Option<string>)
  {
    match ParseField(c)
    case Some(p) => if p.1 == [] then Some(p.0) else None
    case None => None
  }

  // ---------------------------------------------------------------------
  // Round trips.
  // ---------------------------------------------------------------------

  /** What may follow a cell: nothing, a comma or a line feed. */
  predicate EndsCell(rest: string)
  {
    rest == [] || rest[0] == ',' || rest[0] == '\n'
  }

  /** What may follow a line: nothing or a line feed. */
  predicate EndsLine(rest: string)
  {
    rest == [] || rest[0] == '\n'
  }

  /** Text written without quoting that still reads back as itself (the header words). */
  predicate Bare(w: string)
  {
    '"' !in w && ',' !in w && '\n' !in w
  }

  /** The cell `c` is written for the value `v`: escaped, or bare text written as is. */
  predicate Encodes(c: string, v: string)
  {
    c == Escape(v) || (c == v && Bare(v))
  }

  predicate EncodesRow(cells: seq<string>, vs: seq<string>)
  {
    |cells| == |vs| > 0 && forall i :: 0 <= i < |cells| ==> Encodes(cells[i], vs[i])
  }

  /** A doubled quote inside a quoted cell reads as one quote. */
  lemma ParseQuotedPair(t: string)
    ensures ParseQuoted("\"\"" + t) == match ParseQuoted(t)
                                       case None => None
                                       case Some(p) => Some(("\"" + p.0, p.1))
  {
    assert ("\"\"" + t)[2..] == t;
  }

  /** Any other character inside a quoted cell reads as itself. */
  lemma ParseQuotedChar(c: char, t: string)
    requires c != '"'
    ensures ParseQuoted([c] + t) == match ParseQuoted(t)
                                    case None => None
                                    case Some(p) => Some(([c] + p.0, p.1))
  {
    assert ([c] + t)[1..] == t;
  }

  lemma {:induction false} QuotedRoundTrip(v: string, rest: string)
    requires rest == [] || rest[0] != '"'
    ensures ParseQuoted(DoubleQuotes(v) + "\"" + rest) == Some((v, rest))
    decreases |v|
  {
    var s := DoubleQuotes(v) + "\"" + rest;
    if v == [] {
      assert s == "\"" + rest by { assert DoubleQuotes(v) == []; }
      assert s[1..] == rest;
    } else {
      var tail := DoubleQuotes(v[1..]) + "\"" + rest;
      QuotedRoundTrip(v[1..], rest);
      if v[0] == '"' {
        assert ParseQuoted(s) == ParseQuoted("\"\"" + tail) by {
          assert s == "\"\"" + tail;
        }
        ParseQuotedPair(tail);
        assert "\"" + v[1..] == v;
      } else {
        assert ParseQuoted(s) == ParseQuoted([v[0]] + tail) by {
          assert s == [v[0]] + tail;
        }
        ParseQuotedChar(v[0], tail);
        assert [v[0]] + v[1..] == v;
      }
    }
  }

  lemma PlainRoundTrip(w: string, rest: string)
    requires ',' !in w && '\n' !in w
    requires EndsCell(rest)
    ensures PlainLen(w + rest) == |w|
  {
    var s := w + rest;
    assert forall i :: 0 <= i < |w| ==> s[i] == w[i];
    assert rest != [] ==> s[|w|] == rest[0];
  }

  /** Reading an encoded cell gives back its value and stops where the cell ends. */
  lemma CellRoundTrip(c: string, v: string, rest: string)
    requires Encodes(c, v)
    requires EndsCell(rest)
    ensures ParseField(c + rest) == Some((v, rest))
  {
    var s := c + rest;
    if c == Escape(v) && v != "" {
      assert s[1..] == DoubleQuotes(v) + "\"" + rest;
      QuotedRoundTrip(v, rest);
    } else {
      assert v == c;
      PlainRoundTrip(c, rest);
      assert s[..|c|] == c && s[|c|..] == rest;
    }
  }

  /** The inverse of Escape: reading an escaped cell gives back the value. */
  lemma UnescapeEscape(v: string)
    ensures Unescape(Escape(v)) == Some(v)
  {
    CellRoundTrip(Escape(v), v, "");
    assert Escape(v) + "" == Escape(v);
  }

  /** A join of several items is the first item, the separator, and the join of the rest. */
  lemma JoinSplit(xs: seq<string>, sep: string, rest: string)
    requires |xs| > 1
    ensures Join(xs, sep) + rest == xs[0] + (sep + (Join(xs[1..], sep) + rest))
  {
  }

  lemma EncodesRowTail(cells: seq<string>, vs: seq<string>)
    requires EncodesRow(cells, vs) && |cells| > 1
    ensures EncodesRow(cells[1..], vs[1..])
  {
    forall i | 0 <= i < |cells[1..]| ensures Encodes(cells[1..][i], vs[1..][i]) {
      assert cells[1..][i] == cells[i + 1] && vs[1..][i] == vs[i + 1];
    }
  }

  /** Reading a line of encoded cells gives back every value, in order. */
  lemma {:induction false} LineRoundTrip(cells: seq<string>, vs: seq<string>, rest: string)
    requires EncodesRow(cells, vs)
    requires EndsLine(rest)
    ensures ParseFields(Join(cells, ",") + rest) == Some((vs, rest))
    decreases |cells|
  {
    if |cells| == 1 {
      CellRoundTrip(cells[0], vs[0], rest);
      assert [vs[0]] == vs;
    } else {
      var tail := Join(cells[1..], ",") + rest;
      var after := "," + tail;
      JoinSplit(cells, ",", rest);
      CellRoundTrip(cells[0], vs[0], after);
      assert ParseFields(Join(cells, ",") + rest) == ParseFields(cells[0] + after);
      assert after[1..] == tail;
      EncodesRowTail(cells, vs);
      LineRoundTrip(cells[1..], vs[1..], rest);
      assert [vs[0]] + vs[1..] == vs;
    }
  }

  function JoinRows(rows: seq<seq<string>>): (ls: seq<string>)
    ensures |ls| == |rows|
    ensures forall i :: 0 <= i < |rows| ==> ls[i] == Join(rows[i], ",")
  {
    seq(|rows|, i requires 0 <= i < |rows| => Join(rows[i], ","))
  }

  lemma JoinRowsTail(rows: seq<seq<string>>)
    requires |rows| > 1
    ensures JoinRows(rows)[1..] == JoinRows(rows[1..])
  {
  }

  /** One more line in front of a document that reads back. */
  lemma DocumentStep(rows: seq<seq<string>>, vals: seq<seq<string>>)
    requires |rows| == |vals| > 1
    requires EncodesRow(rows[0], vals[0])
    requires ParseCsv(Join(JoinRows(rows[1..]), "\n")) == Some(vals[1..])
    ensures ParseCsv(Join(JoinRows(rows), "\n")) == Some(vals)
  {
    var ls := JoinRows(rows);
    var tail := Join(ls[1..], "\n");
    var after := "\n" + tail;
    JoinSplit(ls, "\n", "");
    assert Join(ls, "\n") == Join(rows[0], ",") + after by {
      assert Join(ls[1..], "\n") + "" == tail;
    }
    LineRoundTrip(rows[0], vals[0], after);
    assert after[1..] == tail;
    JoinRowsTail(rows);
    assert [vals[0]] + vals[1..] == vals;
  }

  /** Reading a document of encoded lines gives back every line's values, in order. */
  lemma {:induction false} DocumentRoundTrip(rows: seq<seq<string>>, vals: seq<seq<string>>)
    requires |rows| == |vals| > 0
    requires forall i :: 0 <= i < |rows| ==> EncodesRow(rows[i], vals[i])
    ensures ParseCsv(Join(JoinRows(rows), "\n")) == Some(vals)
    decreases |rows|
  {
    if |rows| == 1 {
      LineRoundTrip(rows[0], vals[0], "");
      assert Join(JoinRows(rows), "\n") == Join(rows[0], ",") + "";
      assert [vals[0]] == vals;
    } else {
      assert forall i :: 0 <= i < |rows[1..]| ==> rows[1..][i] == rows[i + 1] && vals[1..][i] == vals[i + 1];
      DocumentRoundTrip(rows[1..], vals[1..]);
      DocumentStep(rows, vals);
    }
  }

  function FieldsOf(rs: seq<Review>): (fss: seq<seq<string>>)
    ensures |fss| == |rs|
    ensures forall i :: 0 <= i < |rs| ==> fss[i] == Fields(rs[i])
  {
    seq(|rs|, i requires 0 <= i < |rs| => Fields(rs[i]))
  }

  /**
   * Reading the produced document gives the header, then exactly one line per
   * record holding that record's eight values in column order.
   */
  lemma CsvRoundTrip(rs: seq<Review>)
    ensures ParseCsv(ToCsv(rs)) == Some([Header] + FieldsOf(rs))
  {
    var rows := [Header] + seq(|rs|, i requires 0 <= i < |rs| => EscapeAll(Fields(rs[i])));
    var vals := [Header] + FieldsOf(rs);
    forall i | 0 <= i < |rows| ensures EncodesRow(rows[i], vals[i]) {
      if i == 0 { HeaderIsBare(); } else { RecordEncodes(rs[i - 1]); }
    }
    DocumentRoundTrip(rows, vals);
    DocumentLines(rs, rows);
  }

  lemma DocumentLines(rs: seq<Review>, rows: seq<seq<string>>)
    requires rows == [Header] + seq(|rs|, i requires 0 <= i < |rs| => EscapeAll(Fields(rs[i])))
    ensures Join(JoinRows(rows), "\n") == ToCsv(rs)
  {
    assert JoinRows(rows) == [Join(Header, ",")] + Lines(rs);
  }

  /** The header words are written unquoted and read back as themselves. */
  lemma HeaderIsBare()
    ensures EncodesRow(Header, Header)
  {
    forall j | 0 <= j < |Header| ensures Encodes(Header[j], Header[j]) {
      assert Bare(Header[j]);
    }
  }

  lemma RecordEncodes(r: Review)
    ensures EncodesRow(EscapeAll(Fields(r)), Fields(r))
  {
  }

  lemma {:induction false} JoinEmptyCells(cells: seq<string>)
    requires |cells| > 0
    requires forall i :: 0 <= i < |cells| ==> cells[i] == ""
    ensures Join(cells, ",") == seq(|cells| - 1, _ => ',')
    decreases |cells|
  {
    if |cells| > 1 {
      JoinEmptyCells(cells[1..]);
      assert Join(cells, ",") == "" + "," + Join(cells[1..], ",");
    }
  }

  /** A record whose fields are all empty is a line of eight empty cells: seven commas. */
  lemma EmptyRecordLine(r: Review)
    requires forall i :: 0 <= i < |Header| ==> Fields(r)[i] == ""
    ensures Line(r) == seq(|Header| - 1, _ => ',')
  {
    JoinEmptyCells(EscapeAll(Fields(r)));
  }
}
