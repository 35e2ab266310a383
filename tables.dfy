/** A loaded spreadsheet as the comparer holds it: a header list and an
    array of rows, both of which the comparison rewrites in place. */
module Tables {
  import opened Cells
  import opened Rows

  /** The headers Base Gamma receives, by position, when it has 8 columns. */
  const CanonicalHeaders: seq<string> :=
    ["Positivador", "Dt Entrada", "Dt Saída", "Cliente", "Classe", "Nome", "Farmer / Hunter", "Trader"]

  /** The header list the rename step leaves: the canonical headers for a
      table of 8 columns, the old headers otherwise. */
  function RenamedHeaders(h: seq<string>): seq<string>
  {
    if |h| == 8 then CanonicalHeaders else h
  }

  /** The non-fatal warning raised when Base Gamma does not have 8 columns:
      it carries the actual column count and header list. */
  datatype Warning = ColumnCountWarning(columnCount: nat, headers: seq<string>)

  class Table {
    var headers: seq<string>
    var rows: array<Row>

    /** Every row has one cell per header. */
    ghost predicate Valid()
      reads this, rows
    {
      forall i :: 0 <= i < rows.Length ==> |rows[i]| == |headers|
    }

    constructor (headers: seq<string>, contents: seq<Row>)
      requires forall i :: 0 <= i < |contents| ==> |contents[i]| == |headers|
      ensures Valid() && fresh(rows)
      ensures this.headers == headers && rows[..] == contents
    {
      this.headers := headers;
      rows := new Row[|contents|](i requires 0 <= i < |contents| => contents[i]);
    }

    /** Overwrites column `k` of every row with the given series
        (`df[col] = series`). */
    method AssignColumn(k: nat, values: seq<Cell>)
      requires Valid() && k < |headers| && |values| == rows.Length
      modifies rows
      ensures Valid()
      ensures HasColumn(old(rows[..]), k)
      ensures rows[..] == WithColumn(old(rows[..]), k, values)
    {
      ghost var before := rows[..];
      var i := 0;
      while i < rows.Length
        invariant 0 <= i <= rows.Length
        invariant forall j :: 0 <= j < i ==> rows[j] == before[j][k := values[j]]
        invariant forall j :: i <= j < rows.Length ==> rows[j] == before[j]
      {
        rows[i] := rows[i][k := values[i]];
        i := i + 1;
      }
      assert rows[..] == WithColumn(before, k, values);
    }

    /** Rebinds the table to the rows whose cell in column `k` the selector
        accepts, in their original order (`df = df[mask]`). */
    method KeepRows(k: nat, f: Selector)
      requires Valid() && k < |headers|
      modifies this
      ensures Valid() && fresh(rows) && headers == old(headers)
      ensures HasColumn(old(rows[..]), k)
      ensures rows[..] == Where(old(rows[..]), k, f)
    {
      var before := rows[..];
      assert HasColumn(before, k);
      ghost var width := |headers|;
      assert forall j :: 0 <= j < |before| ==> |before[j]| == width;
      var kept: seq<Row> := [];
      var i := 0;
      while i < |before|
        invariant 0 <= i <= |before| && headers == old(headers)
        invariant HasColumn(before[..i], k)
        invariant kept == Where(before[..i], k, f)
      {
        WhereStep(before, k, f, i);
        if Accepts(f, before[i][k]) {
          kept := kept + [before[i]];
        }
        i := i + 1;
      }
      assert before[..i] == before;
      WhereKeepsWidth(before, k, f, width);
      rows := new Row[|kept|](j requires 0 <= j < |kept| => kept[j]);
    }

    /** Renames the columns by position when there are exactly 8 of them;
        otherwise leaves the headers alone and returns the warning. */
    method ApplyCanonicalHeaders() returns (w: Option<Warning>)
      requires Valid()
      modifies this`headers
      ensures Valid()
      ensures |old(headers)| == 8 ==> headers == CanonicalHeaders && w == None
      ensures |old(headers)| != 8 ==>
        headers == old(headers) && w == Some(ColumnCountWarning(|headers|, headers))
    {
      if |headers| == 8 {
        headers := CanonicalHeaders;
        w := None;
      } else {
        w := Some(ColumnCountWarning(|headers|, headers));
      }
    }
  }

  /** After the positional rename the client column is column 3, whatever
      column the original 'Cliente' header named. */
  lemma ClienteIsColumnThree()
    ensures Find(CanonicalHeaders, "Cliente") == Some(3)
  {
    assert CanonicalHeaders[3] == "Cliente";
    assert CanonicalHeaders[0] != "Cliente" && CanonicalHeaders[1] != "Cliente" && CanonicalHeaders[2] != "Cliente";
  }
}
