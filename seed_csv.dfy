/** The hand-written CSV reader of the seed script: lines are split at
    line feeds, blank lines dropped, a byte-order mark removed from the first
    line, and each line cut at the commas that lie outside double quotes. */
module SeedCsv {
  import opened JsStrings
  import opened Wrappers

  const Bom: char := '\U{FEFF}'

  /** A carriage return that ends a piece belonged to a `\r\n` separator. */
  function DropCr(s: string): (r: string)
    ensures r == s || (s == r + ['\r'])
  {
    if |s| > 0 && s[|s| - 1] == '\r' then s[..|s| - 1] else s
  }

  /** `content.split(/\r?\n/)`: the pieces between line feeds, each but the
      last losing the carriage return that preceded its line feed. */
  function SplitLines(content: string): (pieces: seq<string>)
    ensures |pieces| == 1 + CountIn(content, {'\n'})
    ensures forall k :: 0 <= k < |pieces| ==> '\n' !in pieces[k]
  {
    var raw := Split(content, {'\n'});
    seq(|raw|, k requires 0 <= k < |raw| => if k < |raw| - 1 then DropCr(raw[k]) else raw[k])
  }

  /** A line of whitespace only; BlankIsTrimmedEmpty shows this is
      `l.trim().length === 0`. */
  predicate Blank(line: string) {
    forall i :: 0 <= i < |line| ==> IsJsWhitespace(line[i])
  }

  lemma BlankIsTrimmedEmpty(line: string)
    ensures Blank(line) <==> |Trim(line)| == 0
  {
  }

  /** `.filter((l) => l.trim().length > 0)` */
  function NonBlank(ls: seq<string>): (r: seq<string>)
    ensures |r| <= |ls|
  {
    if ls == [] then []
    else (if Blank(ls[0]) then [] else [ls[0]]) + NonBlank(ls[1..])
  }

  /** Filtering keeps exactly the non-blank lines. */
  lemma {:induction false} NonBlankKeeps(ls: seq<string>)
    ensures forall l :: l in NonBlank(ls) <==> l in ls && !Blank(l)
    ensures forall k :: 0 <= k < |NonBlank(ls)| ==> !Blank(NonBlank(ls)[k])
    ensures (forall k :: 0 <= k < |ls| ==> !Blank(ls[k])) ==> NonBlank(ls) == ls
    decreases |ls|
  {
    if ls != [] {
      NonBlankKeeps(ls[1..]);
      assert ls == [ls[0]] + ls[1..];
    }
  }

  /** The lines the reader works on. */
  function Lines(content: string): (r: seq<string>) {
    NonBlank(SplitLines(content))
  }

  /** The first line loses a leading U+FEFF. */
  function WithoutBom(lines: seq<string>): (r: seq<string>)
    ensures |r| == |lines|
    ensures forall k :: 1 <= k < |lines| ==> r[k] == lines[k]
    ensures |lines| > 0 ==> if |lines[0]| > 0 && lines[0][0] == Bom then r[0] == lines[0][1..] else r[0] == lines[0]
  {
    if |lines| > 0 && |lines[0]| > 0 && lines[0][0] == Bom then lines[0 := lines[0][1..]] else lines
  }

  /** `.replace(/^"|"$/g, "")`: one double quote is removed at each end. */
  function DropQuoteEnds(s: string): (r: string)
    ensures '"' !in s ==> r == s
    ensures forall c :: c in r ==> c in s
  {
    var a := if |s| > 0 && s[0] == '"' then s[1..] else s;
    if |a| > 0 && a[|a| - 1] == '"' then a[..|a| - 1] else a
  }

  /** What a finished field becomes. */
  function Clean(s: string): (r: string) {
    DropQuoteEnds(Trim(s))
  }

  /** The reader's state after some characters of a line: the text of the
      fields closed so far (before cleaning), the field being read, and
      whether a quote is open. */
  datatype ScanState = ScanState(row: seq<string>, current: string, inQuotes: bool)

  /** The state after reading `s`, one character at a time. */
  function Scan(s: string): (r: ScanState)
    decreases |s|
  {
    if s == [] then ScanState([], "", false)
    else
      var st := Scan(s[..|s| - 1]);
      var c := s[|s| - 1];
      if c == '"' then st.(inQuotes := !st.inQuotes)
      else if c == ',' && !st.inQuotes then ScanState(st.row + [st.current], "", st.inQuotes)
      else st.(current := st.current + [c])
  }

  function CleanAll(pieces: seq<string>): (r: seq<string>)
    ensures |r| == |pieces|
    ensures forall k :: 0 <= k < |r| ==> r[k] == Clean(pieces[k])
  {
    seq(|pieces|, k requires 0 <= k < |pieces| => Clean(pieces[k]))
  }

  lemma CleanAllSnoc(pieces: seq<string>, piece: string)
    ensures CleanAll(pieces + [piece]) == CleanAll(pieces) + [Clean(piece)]
  {
  }

  /** The fields of one line: those closed at commas and the last one. */
  function Fields(line: string): (r: seq<string>) {
    var st := Scan(line);
    CleanAll(st.row + [st.current])
  }

  /** What `parseCSV` returns: nothing when the input has no non-blank line,
      otherwise the fields of each line. */
  function CsvRows(content: string): (rows: Option<seq<seq<string>>>)
    ensures rows.None? <==> Lines(content) == []
    ensures rows.Some? ==> |rows.value| == |Lines(content)|
  {
    var lines := Lines(content);
    if lines == [] then None
    else
      var clean := WithoutBom(lines);
      Some(seq(|clean|, k requires 0 <= k < |clean| => Fields(clean[k])))
  }

  /** `parseCSV`: no row at all when the input has no non-blank line, where
      the script fails on reading the first line; otherwise one row of fields
      per non-blank line. */
  method ParseCsv(content: string) returns (rows: Option<seq<seq<string>>>)
    ensures rows == CsvRows(content)
  {
    var lines := Lines(content);
    if |lines| == 0 {
      return None;
    }
    if |lines[0]| > 0 && lines[0][0] == Bom {
      lines := lines[0 := lines[0][1..]];
    }
    var result := ReadRows(lines);
    assert result == seq(|lines|, k requires 0 <= k < |lines| => Fields(lines[k]));
    return Some(result);
  }

  /** The outer loop of `parseCSV`: one row per line. */
  method ReadRows(lines: seq<string>) returns (result: seq<seq<string>>)
    ensures |result| == |lines|
    ensures forall k :: 0 <= k < |result| ==> result[k] == Fields(lines[k])
  {
    result := [];
    for li := 0 to |lines|
      invariant |result| == li
      invariant forall k :: 0 <= k < li ==> result[k] == Fields(lines[k])
    {
      var row := ReadLine(lines[li]);
      result := result + [row];
    }
  }

  /** The inner loop of `parseCSV`: one line, character by character. */
  method ReadLine(line: string) returns (row: seq<string>)
    ensures row == Fields(line)
  {
    row := [];
    var current := "";
    var inQuotes := false;
    for i := 0 to |line|
      invariant row == CleanAll(Scan(line[..i]).row)
      invariant current == Scan(line[..i]).current && inQuotes == Scan(line[..i]).inQuotes
    {
      assert line[..i + 1][..i] == line[..i];
      var c := line[i];
      if c == '"' {
        inQuotes := !inQuotes;
      } else if c == ',' && !inQuotes {
        CleanAllSnoc(Scan(line[..i]).row, current);
        row := row + [Clean(current)];
        current := "";
      } else {
        current := current + [c];
      }
    }
    assert line[..|line|] == line;
    CleanAllSnoc(Scan(line).row, current);
    row := row + [Clean(current)];
  }

  /** A quote is open exactly when an odd number of quotes has been read. */
  lemma {:induction false} ScanParity(s: string)
    ensures Scan(s).inQuotes <==> CountIn(s, {'"'}) % 2 == 1
    decreases |s|
  {
    if s != [] {
      var p := s[..|s| - 1];
      ScanParity(p);
      assert s == p + [s[|s| - 1]];
      CountInSnoc(p, s[|s| - 1], {'"'});
    }
  }

  /** Commas preceded by an even number of quotes, counted independently of
      the reader. */
  function UnquotedCommas(s: string): (r: nat)
    decreases |s|
  {
    if s == [] then 0
    else
      var p := s[..|s| - 1];
      UnquotedCommas(p) + (if s[|s| - 1] == ',' && CountIn(p, {'"'}) % 2 == 0 then 1 else 0)
  }

  lemma {:induction false} RowLength(s: string)
    ensures |Scan(s).row| == UnquotedCommas(s)
    decreases |s|
  {
    if s != [] {
      RowLength(s[..|s| - 1]);
      ScanParity(s[..|s| - 1]);
    }
  }

  /** A line has one field more than it has commas outside quotes. */
  lemma FieldCount(line: string)
    ensures |Fields(line)| == 1 + UnquotedCommas(line)
  {
    RowLength(line);
  }

  /** What the reader accumulates never holds a double quote. */
  lemma {:induction false} ScanInvariant(s: string)
    ensures forall k :: 0 <= k < |Scan(s).row| ==> '"' !in Scan(s).row[k]
    ensures '"' !in Scan(s).current
    decreases |s|
  {
    if s != [] {
      ScanInvariant(s[..|s| - 1]);
    }
  }

  /** Cleaning quote-free text only trims it. */
  lemma CleanQuoteFree(s: string)
    requires '"' !in s
    ensures Clean(s) == Trim(s)
    ensures '"' !in Clean(s)
    ensures Clean(s) == Trim(Clean(s))
  {
    var t := Trim(s);
    assert '"' in t ==> '"' in s;
    assert DropQuoteEnds(t) == t;
    TrimIdempotent(s);
  }

  /** Quotes only group: no field holds a double quote, and every field is
      free of surrounding whitespace. */
  lemma FieldsAreClean(line: string)
    ensures forall k :: 0 <= k < |Fields(line)| ==> '"' !in Fields(line)[k]
    ensures forall k :: 0 <= k < |Fields(line)| ==> Fields(line)[k] == Trim(Fields(line)[k])
  {
    ScanInvariant(line);
    var pieces := Scan(line).row + [Scan(line).current];
    forall k | 0 <= k < |pieces|
      ensures '"' !in Fields(line)[k] && Fields(line)[k] == Trim(Fields(line)[k])
    {
      CleanQuoteFree(pieces[k]);
    }
  }

  /** Without quotes the reader cuts the line at every comma. */
  lemma {:induction false} ScanWithoutQuotes(s: string)
    requires '"' !in s
    ensures Scan(s).row + [Scan(s).current] == Split(s, {','})
    decreases |s|
  {
    if s != [] {
      var q := s[..|s| - 1];
      var c := s[|s| - 1];
      assert '"' !in q by {
        forall i | 0 <= i < |q| ensures q[i] != '"' {
          assert q[i] == s[i];
        }
      }
      ScanWithoutQuotes(q);
      ScanParity(q);
      assert s == q + [c];
      if c == ',' {
        SplitSnocSep(q, c, {','});
      } else {
        SplitSnocOther(q, c, {','});
      }
      assert !Scan(q).inQuotes by {
        CountInZero(q, '"');
      }
    }
  }

  lemma {:induction false} CountInZero(s: string, c: char)
    requires c !in s
    ensures CountIn(s, {c}) == 0
    decreases |s|
  {
    if s != [] {
      assert c !in s[1..] by {
        forall i | 0 <= i < |s[1..]| ensures s[1..][i] != c {
          assert s[1..][i] == s[i + 1];
        }
      }
      CountInZero(s[1..], c);
    }
  }

  /** On a line without quotes, the fields are the cleaned comma-separated
      pieces. */
  lemma FieldsWithoutQuotes(line: string)
    requires '"' !in line
    ensures Fields(line) == CleanAll(Split(line, {','}))
  {
    ScanWithoutQuotes(line);
  }

  /** Reading back trimmed fields free of commas and quotes that were joined
      with commas gives the same fields. */
  lemma FieldsOfJoin(fields: seq<string>)
    requires |fields| >= 1
    requires forall k :: 0 <= k < |fields| ==> ',' !in fields[k] && '"' !in fields[k]
    requires forall k :: 0 <= k < |fields| ==> fields[k] == Trim(fields[k])
    ensures Fields(Join(fields, ',')) == fields
  {
    var line := Join(fields, ',');
    assert '"' !in line by {
      if '"' in line {
        JoinChars(fields, ',', '"');
      }
    }
    FieldsWithoutQuotes(line);
    SplitOfJoin(fields, ',', {','});
  }

  /** Non-blank lines joined with line feeds are read back as the same lines. */
  lemma LinesOfJoin(lines: seq<string>)
    requires |lines| >= 1
    requires forall k :: 0 <= k < |lines| ==> '\n' !in lines[k] && !Blank(lines[k])
    requires forall k :: 0 <= k < |lines| ==> lines[k] == [] || lines[k][|lines[k]| - 1] != '\r'
    ensures Lines(Join(lines, '\n')) == lines
  {
    SplitOfJoin(lines, '\n', {'\n'});
    NonBlankKeeps(lines);
    assert SplitLines(Join(lines, '\n')) == lines;
  }
}
