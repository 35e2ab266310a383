/** Tables as sequences of rows, and the pandas operations the comparer
    applies to them: looking a column up by its header, rewriting one column
    cell by cell, selecting rows by a test on one column (`notna`, `isin`),
    and collecting a column into a set. */
module Rows {
  import opened Cells

  /** One spreadsheet row: its cells in column order. */
  type Row = seq<Cell>

  /** Every row has a cell in column `k`. */
  predicate HasColumn(rows: seq<Row>, k: nat)
  {
    forall i :: 0 <= i < |rows| ==> k < |rows[i]|
  }

  /** The position of the first header equal to `name`, or None when there is
      no such column (pandas then raises KeyError). */
  function Find(headers: seq<string>, name: string): (r: Option<nat>)
    ensures r.Some? ==> r.value < |headers| && headers[r.value] == name
    ensures r.Some? ==> forall j :: 0 <= j < r.value ==> headers[j] != name
    ensures r.None? <==> name !in headers
  {
    if headers == [] then None
    else if headers[0] == name then Some(0)
    else match Find(headers[1..], name)
      case None => None
      case Some(j) => Some(j + 1)
  }

  // ---------------------------------------------------------------------
  // Column rewrite (`df[col] = df[col].<normalisation>`)
  // ---------------------------------------------------------------------

  /** The two normalisations the comparer writes back into a key column. */
  datatype Normaliser =
    | AsRosterKey      // astype(str).str.strip().str.lower()
    | AsInclusionKey   // apply(ajustar_codigo_cliente).str.lower()

  /** The new content of one cell. A missing inclusion code stays missing. */
  function Normalise(n: Normaliser, c: Cell): Cell
  {
    match n
    case AsRosterKey => Text(RosterKey(c))
    case AsInclusionKey =>
      match InclusionKey(c)
      case None => Null
      case Some(k) => Text(k)
  }

  /** Row `r` with its cell in column `k` normalised. */
  function NormaliseCell(r: Row, k: nat, n: Normaliser): Row
    requires k < |r|
  {
    r[k := Normalise(n, r[k])]
  }

  /** Every row with its cell in column `k` normalised; nothing else changes. */
  function NormaliseColumn(rows: seq<Row>, k: nat, n: Normaliser): (r: seq<Row>)
    requires HasColumn(rows, k)
    ensures |r| == |rows| && HasColumn(r, k)
    ensures forall i :: 0 <= i < |r| ==> |r[i]| == |rows[i]|
    ensures forall i, j :: 0 <= i < |r| && 0 <= j < |r[i]| && j != k ==> r[i][j] == rows[i][j]
  {
    seq(|rows|, i requires 0 <= i < |rows| => NormaliseCell(rows[i], k, n))
  }

  /** Column `k` as a series. */
  function Column(rows: seq<Row>, k: nat): (c: seq<Cell>)
    requires HasColumn(rows, k)
    ensures |c| == |rows| && forall i :: 0 <= i < |rows| ==> c[i] == rows[i][k]
  {
    seq(|rows|, i requires 0 <= i < |rows| => rows[i][k])
  }

  /** The normalisation applied to every value of a series. */
  function NormaliseSeries(column: seq<Cell>, n: Normaliser): (r: seq<Cell>)
    ensures |r| == |column|
  {
    seq(|column|, i requires 0 <= i < |column| => Normalise(n, column[i]))
  }

  /** The table with column `k` replaced by `values` (`df[col] = series`). */
  function WithColumn(rows: seq<Row>, k: nat, values: seq<Cell>): (r: seq<Row>)
    requires HasColumn(rows, k) && |values| == |rows|
    ensures |r| == |rows| && HasColumn(r, k)
    ensures forall i :: 0 <= i < |r| ==> |r[i]| == |rows[i]|
    ensures forall i, j :: 0 <= i < |r| && 0 <= j < |r[i]| && j != k ==> r[i][j] == rows[i][j]
    ensures forall i :: 0 <= i < |r| ==> r[i][k] == values[i]
  {
    seq(|rows|, i requires 0 <= i < |rows| => rows[i][k := values[i]])
  }

  /** Normalising a column in place is assigning it its normalised series. */
  lemma NormaliseColumnAssigns(rows: seq<Row>, k: nat, n: Normaliser)
    requires HasColumn(rows, k)
    ensures NormaliseColumn(rows, k, n) == WithColumn(rows, k, NormaliseSeries(Column(rows, k), n))
  {
  }

  // ---------------------------------------------------------------------
  // Row selection (`df[df[col].notna()]`, `df[df[col].isin(S)]`)
  // ---------------------------------------------------------------------

  /** A test on one cell, as pandas builds a boolean row mask. */
  datatype Selector =
    | NotNull                  // Series.notna()
    | MemberOf(keys: set<Cell>) // Series.isin(keys)

  predicate Accepts(f: Selector, c: Cell)
  {
    match f
    case NotNull => !c.Null?
    case MemberOf(keys) => c in keys
  }

  /** The rows whose cell in column `k` the selector accepts, in their
      original order. */
  function Where(rows: seq<Row>, k: nat, f: Selector): (r: seq<Row>)
    requires HasColumn(rows, k)
    ensures |r| <= |rows| && HasColumn(r, k)
    ensures forall i :: 0 <= i < |r| ==> Accepts(f, r[i][k])
    ensures forall row :: row in r <==> row in rows && Accepts(f, row[k])
  {
    if rows == [] then []
    else
      var rest := Where(rows[1..], k, f);
      if Accepts(f, rows[0][k]) then [rows[0]] + rest else rest
  }

  /** Selection distributes over concatenation: it keeps the rows of each
      part in place, which is what "keeps the original order" means. */
  lemma {:induction false} WhereAppend(a: seq<Row>, b: seq<Row>, k: nat, f: Selector)
    requires HasColumn(a, k) && HasColumn(b, k)
    ensures HasColumn(a + b, k)
    ensures Where(a + b, k, f) == Where(a, k, f) + Where(b, k, f)
    decreases |a|
  {
    if a == [] {
      assert a + b == b;
    } else {
      assert (a + b)[0] == a[0] && (a + b)[1..] == a[1..] + b;
      WhereAppend(a[1..], b, k, f);
    }
  }

  /** The selected rows are rows of the table, so they keep its width. */
  lemma WhereKeepsWidth(rows: seq<Row>, k: nat, f: Selector, width: nat)
    requires HasColumn(rows, k)
    requires forall i :: 0 <= i < |rows| ==> |rows[i]| == width
    ensures forall j :: 0 <= j < |Where(rows, k, f)| ==> |Where(rows, k, f)[j]| == width
  {
    var r := Where(rows, k, f);
    forall j | 0 <= j < |r| ensures |r[j]| == width {
      assert r[j] in rows;
    }
  }

  /** Selecting from one more row of a prefix adds that row exactly when
      the selector accepts it. */
  lemma WhereStep(rows: seq<Row>, k: nat, f: Selector, i: nat)
    requires HasColumn(rows, k) && i < |rows|
    ensures HasColumn(rows[..i], k) && HasColumn(rows[..i + 1], k)
    ensures Where(rows[..i + 1], k, f)
      == Where(rows[..i], k, f) + (if Accepts(f, rows[i][k]) then [rows[i]] else [])
  {
    assert rows[..i + 1] == rows[..i] + [rows[i]];
    WhereAppend(rows[..i], [rows[i]], k, f);
  }

  /** Selection keeps everything when every row passes. */
  lemma {:induction false} WhereAll(rows: seq<Row>, k: nat, f: Selector)
    requires HasColumn(rows, k)
    requires forall i :: 0 <= i < |rows| ==> Accepts(f, rows[i][k])
    ensures Where(rows, k, f) == rows
    decreases |rows|
  {
    if rows != [] {
      WhereAll(rows[1..], k, f);
    }
  }

  /** The rows dropped by a selection plus those it keeps account for every
      row: selecting on `S1` and on a disjoint `S2` that together cover the
      column splits the table. */
  lemma {:induction false} WherePartition(rows: seq<Row>, k: nat, s1: set<Cell>, s2: set<Cell>)
    requires HasColumn(rows, k)
    requires s1 !! s2
    requires forall i :: 0 <= i < |rows| ==> rows[i][k] in s1 + s2
    ensures |Where(rows, k, MemberOf(s1))| + |Where(rows, k, MemberOf(s2))| == |rows|
    decreases |rows|
  {
    if rows != [] {
      WherePartition(rows[1..], k, s1, s2);
    }
  }

  /** Rows without a code and rows with one together make up the table. */
  lemma {:induction false} NullsAndPresent(rows: seq<Row>, k: nat)
    requires HasColumn(rows, k)
    ensures |Where(rows, k, NotNull)| + NullCount(rows, k) == |rows|
    decreases |rows|
  {
    if rows != [] {
      NullsAndPresent(rows[1..], k);
    }
  }

  /** How many rows have no cell value in column `k`. */
  function NullCount(rows: seq<Row>, k: nat): nat
    requires HasColumn(rows, k)
  {
    if rows == [] then 0
    else (if rows[0][k].Null? then 1 else 0) + NullCount(rows[1..], k)
  }

  // ---------------------------------------------------------------------
  // Key sets (`set(df[col])`)
  // ---------------------------------------------------------------------

  /** The distinct cells of column `k`. */
  function Keys(rows: seq<Row>, k: nat): set<Cell>
    requires HasColumn(rows, k)
  {
    set i | 0 <= i < |rows| :: rows[i][k]
  }

  /** A key set has at most as many keys as the table has rows. */
  lemma {:induction false} KeysBound(rows: seq<Row>, k: nat)
    requires HasColumn(rows, k)
    ensures |Keys(rows, k)| <= |rows|
    decreases |rows|
  {
    if rows != [] {
      KeysBound(rows[1..], k);
      assert Keys(rows, k) == {rows[0][k]} + Keys(rows[1..], k) by {
        forall c | c in Keys(rows, k) ensures c in {rows[0][k]} + Keys(rows[1..], k) {
          var i :| 0 <= i < |rows| && rows[i][k] == c;
          if i > 0 { assert rows[1..][i - 1] == rows[i]; }
        }
        forall c | c in Keys(rows[1..], k) ensures c in Keys(rows, k) {
          var i :| 0 <= i < |rows[1..]| && rows[1..][i][k] == c;
          assert rows[i + 1] == rows[1..][i];
        }
      }
    }
  }

  /** `df[df[col].isin(set(df[col]))]` is the whole of `df`. */
  lemma SelectOwnKeysKeepsAll(rows: seq<Row>, k: nat)
    requires HasColumn(rows, k)
    ensures Where(rows, k, MemberOf(Keys(rows, k))) == rows
  {
    WhereAll(rows, k, MemberOf(Keys(rows, k)));
  }

  /** After a NotNull selection no key is missing, and every non-missing key
      of the original survives. */
  lemma PresentKeys(rows: seq<Row>, k: nat)
    requires HasColumn(rows, k)
    ensures Keys(Where(rows, k, NotNull), k) == Keys(rows, k) - {Null}
  {
    var kept := Where(rows, k, NotNull);
    forall c | c in Keys(rows, k) - {Null} ensures c in Keys(kept, k) {
      var i :| 0 <= i < |rows| && rows[i][k] == c;
      assert rows[i] in kept;
      var j :| 0 <= j < |kept| && kept[j] == rows[i];
    }
    forall c | c in Keys(kept, k) ensures c in Keys(rows, k) - {Null} {
      var j :| 0 <= j < |kept| && kept[j][k] == c;
      assert kept[j] in rows;
      var i :| 0 <= i < |rows| && rows[i] == kept[j];
    }
  }

  /** Two tables that agree on column `j` row by row have the same key set
      there. */
  lemma SameColumnSameKeys(a: seq<Row>, b: seq<Row>, j: nat)
    requires HasColumn(a, j) && HasColumn(b, j) && |a| == |b|
    requires forall i :: 0 <= i < |a| ==> a[i][j] == b[i][j]
    ensures Keys(a, j) == Keys(b, j)
  {
    forall c | c in Keys(a, j) ensures c in Keys(b, j) {
      var i :| 0 <= i < |a| && a[i][j] == c;
      assert b[i][j] == c;
    }
    forall c | c in Keys(b, j) ensures c in Keys(a, j) {
      var i :| 0 <= i < |b| && b[i][j] == c;
      assert a[i][j] == c;
    }
  }

  /** Normalising one column leaves the key set of every other column as it
      was. */
  lemma OtherColumnKeysUnchanged(rows: seq<Row>, k: nat, j: nat, n: Normaliser)
    requires HasColumn(rows, k) && HasColumn(rows, j) && j != k
    ensures HasColumn(NormaliseColumn(rows, k, n), j)
    ensures Keys(NormaliseColumn(rows, k, n), j) == Keys(rows, j)
  {
    var r := NormaliseColumn(rows, k, n);
    assert forall i :: 0 <= i < |r| ==> r[i][j] == rows[i][j];
    SameColumnSameKeys(r, rows, j);
  }

  /** A missing cell in a roster key column becomes the key "nan". */
  lemma MissingRosterCellIsNan(rows: seq<Row>, k: nat, j: nat)
    requires HasColumn(rows, k) && j < |rows| && rows[j][k].Null?
    ensures Text("nan") in Keys(NormaliseColumn(rows, k, AsRosterKey), k)
  {
    var n := NormaliseColumn(rows, k, AsRosterKey);
    assert n[j][k] in Keys(n, k);
    assert n[j][k] == Text(RosterKey(Null));
    MissingRosterCodeIsNan();
  }

  /** The key set of a normalised column is the image of the old key set. */
  lemma NormalisedKeys(rows: seq<Row>, k: nat, n: Normaliser)
    requires HasColumn(rows, k)
    ensures Keys(NormaliseColumn(rows, k, n), k) == set c | c in Keys(rows, k) :: Normalise(n, c)
  {
    var r := NormaliseColumn(rows, k, n);
    forall d | d in Keys(r, k) ensures d in set c | c in Keys(rows, k) :: Normalise(n, c) {
      var i :| 0 <= i < |r| && r[i][k] == d;
      assert rows[i][k] in Keys(rows, k);
    }
    forall c | c in Keys(rows, k) ensures Normalise(n, c) in Keys(r, k) {
      var i :| 0 <= i < |rows| && rows[i][k] == c;
      assert r[i][k] == Normalise(n, c);
    }
  }
}
