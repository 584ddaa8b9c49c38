/** SQLQueryService.executeSqlQuery: the empty-command guard, the header of column labels and
    one text row per result row, appended to the inputs object. The database answer is an
    input: the column labels and the rows of values, a missing value being SQL NULL. */
module SqlQueryService {
  import opened Results
  import opened DatabaseInputs

  const EMPTY_COMMAND: string := "command input is empty."

  /** What the database gives back for the command: a failure of the connection, statement or
      query, or the labels of the columns and the rows, one value per column. */
  datatype QueryAnswer = Rejected(reason: string) | Answer(labels: seq<string>, rows: seq<seq<Option<string>>>)

  /** The rows of an answer hold one value per column: the result set is read by column
      index, from the first to the column count. */
  predicate RowsFitColumns(answer: QueryAnswer) {
    answer.Answer? ==> forall k :: 0 <= k < |answer.rows| ==> |answer.rows[k]| == |answer.labels|
  }

  /** Why executeSqlQuery threw. */
  datatype QueryFailure =
    | Raised(message: string)   // an exception the service throws with this message
    | Database(reason: string)  // the connection, statement or query failed
    | NullPointer               // trim() called on an SQL NULL

  // ---------------------------------------------------------------------------------------
  // Joining with a delimiter

  /** The texts, with the delimiter between each two neighbours. */
  function Join(parts: seq<string>, delimiter: string): string
  {
    if |parts| == 0 then ""
    else if |parts| == 1 then parts[0]
    else parts[0] + delimiter + Join(parts[1..], delimiter)
  }

  /** Appending a part appends the delimiter and the part, the delimiter only after a first part. */
  lemma {:induction false} JoinSnoc(parts: seq<string>, part: string, delimiter: string)
    ensures Join(parts + [part], delimiter) == if |parts| == 0 then part else Join(parts, delimiter) + delimiter + part
  {
    if |parts| == 0 {
      assert parts + [part] == [part];
    } else if |parts| == 1 {
      assert parts + [part] == [parts[0], part];
      assert [parts[0], part][1..] == [part];
    } else {
      assert (parts + [part])[1..] == parts[1..] + [part];
      JoinSnoc(parts[1..], part, delimiter);
    }
  }

  /** The sum of the lengths of the texts. */
  function TotalLength(parts: seq<string>): nat {
    if |parts| == 0 then 0 else |parts[0]| + TotalLength(parts[1..])
  }

  /** n parts carry n - 1 delimiters. */
  lemma {:induction false} JoinLength(parts: seq<string>, delimiter: string)
    requires |parts| > 0
    ensures |Join(parts, delimiter)| == TotalLength(parts) + (|parts| - 1) * |delimiter|
  {
    if |parts| > 1 {
      JoinLength(parts[1..], delimiter);
    }
  }

  /** The character test of a one-character delimiter. */
  function IsChar(d: char): char -> bool {
    (x: char) => x == d
  }

  /** The pieces between the occurrences of `d`. */
  function Split(s: string, d: char): (r: seq<string>)
    ensures |r| > 0
    decreases |s|
  {
    match FirstIndex(s, IsChar(d))
    case None => [s]
    case Some(k) => [s[..k]] + Split(s[k + 1..], d)
  }

  /** A text without the delimiter is one piece. */
  lemma SplitWithout(s: string, d: char)
    requires d !in s
    ensures Split(s, d) == [s]
  {
    assert forall j :: 0 <= j < |s| ==> !IsChar(d)(s[j]);
  }

  /** A text splits first at the delimiter that follows a delimiter-free head. */
  lemma SplitAfterHead(head: string, tail: string, d: char)
    requires d !in head
    ensures Split(head + [d] + tail, d) == [head] + Split(tail, d)
  {
    var s := head + [d] + tail;
    assert forall j :: 0 <= j < |head| ==> s[j] == head[j];
    assert s[|head|] == d;
    FirstIndexAt(s, IsChar(d), |head|);
    assert s[..|head|] == head;
    assert s[|head| + 1..] == tail;
  }

  /** Splitting at a one-character delimiter that occurs in no part gives back the parts. */
  lemma {:induction false} SplitJoin(parts: seq<string>, d: char)
    requires |parts| > 0
    requires forall i :: 0 <= i < |parts| ==> d !in parts[i]
    ensures Split(Join(parts, [d]), d) == parts
  {
    if |parts| == 1 {
      SplitWithout(parts[0], d);
    } else {
      SplitAfterHead(parts[0], Join(parts[1..], [d]), d);
      SplitJoin(parts[1..], d);
      assert parts == [parts[0]] + parts[1..];
    }
  }

  // ---------------------------------------------------------------------------------------
  // Trimming

  /** The characters String.trim removes from both ends. */
  predicate IsTrimmed(c: char) {
    c <= ' '
  }

  /** The index of the first character trim keeps, or |s|. */
  function TrimStart(s: string): (i: nat)
    ensures i <= |s| && (forall k :: 0 <= k < i ==> IsTrimmed(s[k])) && (i < |s| ==> !IsTrimmed(s[i]))
  {
    if |s| == 0 || !IsTrimmed(s[0]) then 0 else 1 + TrimStart(s[1..])
  }

  /** One past the index of the last character trim keeps, or 0. */
  function TrimEnd(s: string): (j: nat)
    ensures j <= |s| && (forall k :: j <= k < |s| ==> IsTrimmed(s[k])) && (j > 0 ==> !IsTrimmed(s[j - 1]))
  {
    if |s| == 0 || !IsTrimmed(s[|s| - 1]) then |s| else TrimEnd(s[..|s| - 1])
  }

  /** String.trim: the text without its leading and trailing characters up to U+0020. */
  function Trim(s: string): string {
    var i, j := TrimStart(s), TrimEnd(s);
    if i < j then s[i..j] else ""
  }

  /** What trim keeps is a middle part of the text, what it drops at both ends are characters
      up to U+0020, and what it keeps neither starts nor ends with one. */
  lemma TrimKeepsMiddle(s: string)
    ensures exists i, j :: 0 <= i <= j <= |s| && Trim(s) == s[i..j]
                           && (forall k :: 0 <= k < i ==> IsTrimmed(s[k]))
                           && (forall k :: j <= k < |s| ==> IsTrimmed(s[k]))
    ensures |Trim(s)| > 0 ==> !IsTrimmed(Trim(s)[0]) && !IsTrimmed(Trim(s)[|Trim(s)| - 1])
  {
    var i, j := TrimStart(s), TrimEnd(s);
    if i < j {
      assert Trim(s) == s[i..j];
    } else {
      assert Trim(s) == s[j..j];
    }
  }

  /** Trimming a trimmed text changes nothing. */
  lemma TrimIdempotent(s: string)
    ensures Trim(Trim(s)) == Trim(s)
  {
    var t := Trim(s);
    TrimKeepsMiddle(s);
    if |t| > 0 {
      assert TrimStart(t) == 0;
      assert TrimEnd(t) == |t|;
      assert t[0..|t|] == t;
    }
  }

  // ---------------------------------------------------------------------------------------
  // Row texts

  /** A value as it goes into a row: trimmed, then cut at its terminator for Netcool. */
  function Render(value: string, netcool: bool, nullTerminated: string -> string): string {
    if netcool then nullTerminated(Trim(value)) else Trim(value)
  }

  /** The rendered values of a row, or None when a value is SQL NULL. */
  function RenderCells(row: seq<Option<string>>, netcool: bool, nullTerminated: string -> string): (r: Option<seq<string>>)
    ensures r.Some? <==> forall j :: 0 <= j < |row| ==> row[j].Some?
    ensures r.Some? ==> |r.value| == |row| && forall j :: 0 <= j < |row| ==> r.value[j] == Render(row[j].value, netcool, nullTerminated)
  {
    if |row| == 0 then Some([])
    else
      match row[0]
      case None => None
      case Some(v) =>
        match RenderCells(row[1..], netcool, nullTerminated)
        case None => None
        case Some(rest) => Some([Render(v, netcool, nullTerminated)] + rest)
  }

  /** One SQL NULL makes the row fail. */
  lemma RenderCellsNull(row: seq<Option<string>>, i: nat, netcool: bool, nullTerminated: string -> string)
    requires i < |row| && row[i].None?
    ensures RenderCells(row, netcool, nullTerminated).None?
  {
  }

  /** Values rendered one by one are the rendered row. */
  lemma RenderCellsAll(row: seq<Option<string>>, cells: seq<string>, netcool: bool, nullTerminated: string -> string)
    requires |cells| == |row|
    requires forall j :: 0 <= j < |row| ==> row[j].Some? && cells[j] == Render(row[j].value, netcool, nullTerminated)
    ensures RenderCells(row, netcool, nullTerminated) == Some(cells)
  {
    var r := RenderCells(row, netcool, nullTerminated);
    assert forall j :: 0 <= j < |row| ==> row[j].Some?;
    assert r.Some? && |r.value| == |row|;
    assert forall j :: 0 <= j < |row| ==> r.value[j] == cells[j];
    assert r.value == cells;
  }

  /** The row texts appended, in result order, and whether the loop ended by the first row
      holding an SQL NULL. */
  function RowTexts(rows: seq<seq<Option<string>>>, delimiter: string, netcool: bool, nullTerminated: string -> string)
    : (seq<string>, Outcome<QueryFailure>)
  {
    if |rows| == 0 then ([], Pass)
    else
      match RenderCells(rows[0], netcool, nullTerminated)
      case None => ([], Fail(NullPointer))
      case Some(cells) =>
        var rest := RowTexts(rows[1..], delimiter, netcool, nullTerminated);
        ([Join(cells, delimiter)] + rest.0, rest.1)
  }

  /** One text per row, in result order, each the row's rendered values joined by the
      delimiter, up to the first row holding an SQL NULL, which ends the query with a failure. */
  lemma {:induction false} RowTextsOnePerRow(rows: seq<seq<Option<string>>>, delimiter: string, netcool: bool, nullTerminated: string -> string)
    ensures var (texts, outcome) := RowTexts(rows, delimiter, netcool, nullTerminated);
            && |texts| <= |rows|
            && (forall k :: 0 <= k < |texts| ==>
                  RenderCells(rows[k], netcool, nullTerminated).Some?
                  && texts[k] == Join(RenderCells(rows[k], netcool, nullTerminated).value, delimiter))
            && (outcome.Pass? <==> forall k :: 0 <= k < |rows| ==> RenderCells(rows[k], netcool, nullTerminated).Some?)
            && (outcome.Pass? ==> |texts| == |rows|)
            && (outcome.Fail? ==> outcome.error == NullPointer && |texts| < |rows|
                                  && RenderCells(rows[|texts|], netcool, nullTerminated).None?)
  {
    if |rows| > 0 {
      RowTextsOnePerRow(rows[1..], delimiter, netcool, nullTerminated);
      var (texts, outcome) := RowTexts(rows, delimiter, netcool, nullTerminated);
      if outcome.Pass? {
        forall k | 0 <= k < |rows|
          ensures RenderCells(rows[k], netcool, nullTerminated).Some?
        {
          if k > 0 {
            assert rows[k] == rows[1..][k - 1];
          }
        }
      }
      if RenderCells(rows[0], netcool, nullTerminated).Some? {
        forall k | 0 < k < |texts|
          ensures texts[k] == Join(RenderCells(rows[k], netcool, nullTerminated).value, delimiter)
        {
          assert rows[k] == rows[1..][k - 1];
        }
      }
    }
  }

  /** Every row text joins that row's rendered values, exactly one per column. */
  lemma RowTextsOneValuePerColumn(answer: QueryAnswer, delimiter: string, netcool: bool, nullTerminated: string -> string)
    requires answer.Answer? && RowsFitColumns(answer)
    ensures var texts := RowTexts(answer.rows, delimiter, netcool, nullTerminated).0;
            |texts| <= |answer.rows|
            && forall k :: 0 <= k < |texts| ==>
                 RenderCells(answer.rows[k], netcool, nullTerminated).Some?
                 && |RenderCells(answer.rows[k], netcool, nullTerminated).value| == |answer.labels|
                 && texts[k] == Join(RenderCells(answer.rows[k], netcool, nullTerminated).value, delimiter)
  {
    RowTextsOnePerRow(answer.rows, delimiter, netcool, nullTerminated);
  }

  /** Rows without values give empty row texts and no failure. */
  lemma {:induction false} EmptyRowsTexts(rows: seq<seq<Option<string>>>, delimiter: string, netcool: bool, nullTerminated: string -> string)
    requires forall k :: 0 <= k < |rows| ==> |rows[k]| == 0
    ensures RowTexts(rows, delimiter, netcool, nullTerminated).1 == Pass
    ensures RowTexts(rows, delimiter, netcool, nullTerminated).0 == seq(|rows|, _ => "")
  {
    if |rows| > 0 {
      EmptyRowsTexts(rows[1..], delimiter, netcool, nullTerminated);
    }
  }

  /** An answer with zero columns gives an empty header, an empty text for every row and no
      failure. */
  lemma ZeroColumnRows(answer: QueryAnswer, delimiter: string, netcool: bool, nullTerminated: string -> string)
    requires answer.Answer? && RowsFitColumns(answer) && |answer.labels| == 0
    ensures Join(answer.labels, delimiter) == ""
    ensures RowTexts(answer.rows, delimiter, netcool, nullTerminated).1 == Pass
    ensures RowTexts(answer.rows, delimiter, netcool, nullTerminated).0 == seq(|answer.rows|, _ => "")
  {
    EmptyRowsTexts(answer.rows, delimiter, netcool, nullTerminated);
  }

  /** A row plan with the texts `appended` already added in front of it. */
  function AfterAppended(appended: seq<string>, plan: (seq<string>, Outcome<QueryFailure>)): (seq<string>, Outcome<QueryFailure>) {
    (appended + plan.0, plan.1)
  }

  lemma RowTextsStep(rows: seq<seq<Option<string>>>, k: nat, delimiter: string, netcool: bool, nullTerminated: string -> string,
                     appended: seq<string>)
    requires k < |rows|
    ensures var rest := RowTexts(rows[k + 1..], delimiter, netcool, nullTerminated);
            AfterAppended(appended, RowTexts(rows[k..], delimiter, netcool, nullTerminated))
            == match RenderCells(rows[k], netcool, nullTerminated)
               case None => (appended, Fail(NullPointer))
               case Some(cells) => AfterAppended(appended + [Join(cells, delimiter)], rest)
  {
    assert rows[k..][0] == rows[k] && rows[k..][1..] == rows[k + 1..];
    assert appended + [] == appended;
    var rest := RowTexts(rows[k + 1..], delimiter, netcool, nullTerminated);
    if RenderCells(rows[k], netcool, nullTerminated).Some? {
      var cells := RenderCells(rows[k], netcool, nullTerminated).value;
      assert appended + ([Join(cells, delimiter)] + rest.0) == (appended + [Join(cells, delimiter)]) + rest.0;
    }
  }

  /** The header loop: the column labels appended to the header text, separated by the
      delimiter. */
  method ColumnHeader(strColumns: string, labels: seq<string>, delimiter: string) returns (header: string)
    ensures header == strColumns + Join(labels, delimiter)
  {
    header := strColumns;
    for i := 0 to |labels|
      invariant header == strColumns + Join(labels[..i], delimiter)
    {
      JoinSnoc(labels[..i], labels[i], delimiter);
      assert labels[..i + 1] == labels[..i] + [labels[i]];
      if i > 0 {
        header := header + delimiter;
      }
      header := header + labels[i];
    }
    assert labels[..|labels|] == labels;
  }

  /** The text of one result row: its values rendered and joined by the delimiter, or None
      when a value is SQL NULL, on which trim() throws. */
  method RowText(row: seq<Option<string>>, delimiter: string, netcool: bool, nullTerminated: string -> string)
    returns (r: Option<string>)
    ensures r.None? <==> RenderCells(row, netcool, nullTerminated).None?
    ensures r.Some? ==> r.value == Join(RenderCells(row, netcool, nullTerminated).value, delimiter)
  {
    var strRowHolder := "";
    ghost var cells: seq<string> := [];
    for i := 0 to |row|
      invariant |cells| == i
      invariant forall j :: 0 <= j < i ==> row[j].Some? && cells[j] == Render(row[j].value, netcool, nullTerminated)
      invariant strRowHolder == Join(cells, delimiter)
    {
      if i > 0 {
        strRowHolder := strRowHolder + delimiter;
      }
      if row[i].None? {
        RenderCellsNull(row, i, netcool, nullTerminated);
        return None;
      }
      var value := Trim(row[i].value);
      if netcool {
        value := nullTerminated(value);
      }
      JoinSnoc(cells, value, delimiter);
      strRowHolder := strRowHolder + value;
      cells := cells + [value];
    }
    RenderCellsAll(row, cells, netcool, nullTerminated);
    return Some(strRowHolder);
  }

  // ---------------------------------------------------------------------------------------
  // The query

  /** executeSqlQuery. `finallyRan` records that the `finally` block ran, which it does on every
      path past the empty-command guard. */
  method ExecuteSqlQuery(sqlInputs: SqlInputs, answer: QueryAnswer, nullTerminated: string -> string)
    returns (r: Outcome<QueryFailure>, finallyRan: bool)
    requires RowsFitColumns(answer)
    modifies sqlInputs
    ensures sqlInputs.sqlCommand == old(sqlInputs.sqlCommand) && sqlInputs.strDelim == old(sqlInputs.strDelim)
    ensures sqlInputs.netcool == old(sqlInputs.netcool) && sqlInputs.ignoreCase == old(sqlInputs.ignoreCase)
    ensures sqlInputs.trustAllRoots == old(sqlInputs.trustAllRoots)
    ensures sqlInputs.trustStore == old(sqlInputs.trustStore) && sqlInputs.trustStorePassword == old(sqlInputs.trustStorePassword)
    // the guard: nothing else happens for an empty command
    ensures |old(sqlInputs.sqlCommand)| == 0 ==>
              r == Fail(Raised(EMPTY_COMMAND)) && !finallyRan
              && sqlInputs.strColumns == old(sqlInputs.strColumns) && sqlInputs.lRows == old(sqlInputs.lRows)
    ensures |old(sqlInputs.sqlCommand)| > 0 ==> finallyRan
    // a failing query changes nothing
    ensures |old(sqlInputs.sqlCommand)| > 0 && answer.Rejected? ==>
              r == Fail(Database(answer.reason))
              && sqlInputs.strColumns == old(sqlInputs.strColumns) && sqlInputs.lRows == old(sqlInputs.lRows)
    // the header and the rows
    ensures |old(sqlInputs.sqlCommand)| > 0 && answer.Answer? ==>
              var (texts, outcome) := RowTexts(answer.rows, old(sqlInputs.strDelim), old(sqlInputs.netcool), nullTerminated);
              && sqlInputs.strColumns == old(sqlInputs.strColumns) + Join(answer.labels, old(sqlInputs.strDelim))
              && sqlInputs.lRows == old(sqlInputs.lRows) + texts
              && r == outcome
  {
    if |sqlInputs.sqlCommand| == 0 {
      return Fail(Raised(EMPTY_COMMAND)), false;
    }
    finallyRan := true;  // the finally block runs whatever happens below
    var strColumns := sqlInputs.strColumns;
    if answer.Rejected? {
      return Fail(Database(answer.reason)), finallyRan;
    }
    var labels, rows := answer.labels, answer.rows;
    var delimiter := sqlInputs.strDelim;
    strColumns := ColumnHeader(strColumns, labels, delimiter);
    sqlInputs.strColumns := strColumns;

    ghost var plan := RowTexts(rows, delimiter, sqlInputs.netcool, nullTerminated);
    ghost var appended: seq<string> := [];
    assert rows[0..] == rows;
    assert appended + plan.0 == plan.0;
    for k := 0 to |rows|
      invariant sqlInputs.strColumns == old(sqlInputs.strColumns) + Join(labels, delimiter)
      invariant sqlInputs.strDelim == delimiter && sqlInputs.netcool == old(sqlInputs.netcool)
      invariant sqlInputs.sqlCommand == old(sqlInputs.sqlCommand) && sqlInputs.ignoreCase == old(sqlInputs.ignoreCase)
      invariant sqlInputs.trustAllRoots == old(sqlInputs.trustAllRoots)
      invariant sqlInputs.trustStore == old(sqlInputs.trustStore) && sqlInputs.trustStorePassword == old(sqlInputs.trustStorePassword)
      invariant sqlInputs.lRows == old(sqlInputs.lRows) + appended
      invariant AfterAppended(appended, RowTexts(rows[k..], delimiter, sqlInputs.netcool, nullTerminated)) == plan
    {
      var strRowHolder := RowText(rows[k], delimiter, sqlInputs.netcool, nullTerminated);
      RowTextsStep(rows, k, delimiter, sqlInputs.netcool, nullTerminated, appended);
      if strRowHolder.None? {
        return Fail(NullPointer), finallyRan;
      }
      sqlInputs.lRows := sqlInputs.lRows + [strRowHolder.value];
      appended := appended + [strRowHolder.value];
    }
    assert rows[|rows|..] == [];
    assert appended + [] == appended;
    return Pass, finallyRan;
  }
}
