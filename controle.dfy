/** The comparison Controle.py runs when "Comparar" is pressed: check that
    the three spreadsheets were uploaded, normalise their client columns in
    place, drop inclusions without a code, rename Base Gamma's columns,
    reconcile the three key sets and build the report, the summary and the
    detail views. */
module Controle {
  import opened Cells
  import opened Rows
  import opened Tables
  import opened Reconcile
  import opened Report

  // ---------------------------------------------------------------------
  // Input-presence check
  // ---------------------------------------------------------------------

  /** The three uploads, in the order they are checked. */
  datatype Input = BaseGamma | PositivadorNovo | Inclusoes

  function MissingFileMessage(i: Input): string
  {
    match i
    case BaseGamma => "Por favor, carregue o arquivo Base Gamma."
    case PositivadorNovo => "Por favor, carregue o arquivo Positivador Novo."
    case Inclusoes => "Por favor, carregue o arquivo Inclusões."
  }

  /** The first missing upload in the order Base Gamma, Positivador Novo,
      Inclusões; None when all three are there. */
  function FirstMissing(baseLoaded: bool, currentLoaded: bool, inclusionsLoaded: bool): (r: Option<Input>)
    ensures r.None? <==> baseLoaded && currentLoaded && inclusionsLoaded
    ensures r == Some(BaseGamma) <==> !baseLoaded
    ensures r == Some(PositivadorNovo) <==> baseLoaded && !currentLoaded
    ensures r == Some(Inclusoes) <==> baseLoaded && currentLoaded && !inclusionsLoaded
  {
    if !baseLoaded then Some(BaseGamma)
    else if !currentLoaded then Some(PositivadorNovo)
    else if !inclusionsLoaded then Some(Inclusoes)
    else None
  }

  // ---------------------------------------------------------------------
  // The key sets, as functions of the tables as loaded
  // ---------------------------------------------------------------------

  const ClientHeader := "Cliente"
  const InclusionHeader := "CODIGO DO CLIENTE"

  /** Every row has one cell per header. */
  predicate WellFormed(headers: seq<string>, rows: seq<Row>)
  {
    forall i :: 0 <= i < |rows| ==> |rows[i]| == |headers|
  }

  /** `set(base_gamma['Cliente'])` after the script's rewrites: the column
      named 'Cliente' is normalised, and the set is then read from the column
      named 'Cliente' after the rename, which is column 3 when the table has
      8 columns. */
  function BaseKeySet(headers: seq<string>, rows: seq<Row>): set<Cell>
    requires WellFormed(headers, rows) && ClientHeader in headers
  {
    var k := Find(headers, ClientHeader).value;
    var read := if |headers| == 8 then 3 else k;
    Keys(NormaliseColumn(rows, k, AsRosterKey), read)
  }

  /** `set(positivador_novo['Cliente'])` after normalisation. */
  function CurrentKeySet(headers: seq<string>, rows: seq<Row>): set<Cell>
    requires WellFormed(headers, rows) && ClientHeader in headers
  {
    var k := Find(headers, ClientHeader).value;
    Keys(NormaliseColumn(rows, k, AsRosterKey), k)
  }

  /** The inclusion rows left after normalisation and the null filter. */
  function InclusionRows(headers: seq<string>, rows: seq<Row>): seq<Row>
    requires WellFormed(headers, rows) && InclusionHeader in headers
  {
    var k := Find(headers, InclusionHeader).value;
    Where(NormaliseColumn(rows, k, AsInclusionKey), k, NotNull)
  }

  /** `set(inclusoes_novo['CODIGO DO CLIENTE'])` after normalisation and the
      null filter. */
  function InclusionKeySet(headers: seq<string>, rows: seq<Row>): set<Cell>
    requires WellFormed(headers, rows) && InclusionHeader in headers
  {
    Keys(InclusionRows(headers, rows), Find(headers, InclusionHeader).value)
  }

  /** The current roster's keys are the roster keys of its client cells. */
  lemma CurrentKeysAreRosterKeys(headers: seq<string>, rows: seq<Row>)
    requires WellFormed(headers, rows) && ClientHeader in headers
    ensures var k := Find(headers, ClientHeader).value;
      CurrentKeySet(headers, rows) == set c | c in Keys(rows, k) :: Text(RosterKey(c))
  {
    var k := Find(headers, ClientHeader).value;
    NormalisedKeys(rows, k, AsRosterKey);
  }

  /** When Base Gamma is not renamed, or its 'Cliente' column already is
      column 3, its keys are the roster keys of its client cells. */
  lemma BaseKeysAreRosterKeys(headers: seq<string>, rows: seq<Row>)
    requires WellFormed(headers, rows) && ClientHeader in headers
    requires |headers| != 8 || Find(headers, ClientHeader) == Some(3)
    ensures var k := Find(headers, ClientHeader).value;
      BaseKeySet(headers, rows) == set c | c in Keys(rows, k) :: Text(RosterKey(c))
  {
    var k := Find(headers, ClientHeader).value;
    NormalisedKeys(rows, k, AsRosterKey);
  }

  /** When Base Gamma has 8 columns but its 'Cliente' header is not the
      fourth, the rename moves the name onto column 3, which was never
      normalised: the key set is that column's raw cells. */
  lemma BaseKeysAfterMisplacedCliente(headers: seq<string>, rows: seq<Row>)
    requires WellFormed(headers, rows) && ClientHeader in headers
    requires |headers| == 8 && Find(headers, ClientHeader) != Some(3)
    ensures BaseKeySet(headers, rows) == Keys(rows, 3)
  {
    var k := Find(headers, ClientHeader).value;
    OtherColumnKeysUnchanged(rows, k, 3, AsRosterKey);
  }

  /** The inclusion keys are the inclusion keys of the non-missing codes:
      no key is missing and every present code contributes its key. */
  lemma InclusionKeysArePresentCodes(headers: seq<string>, rows: seq<Row>)
    requires WellFormed(headers, rows) && InclusionHeader in headers
    ensures var k := Find(headers, InclusionHeader).value;
      InclusionKeySet(headers, rows)
        == set c | c in Keys(rows, k) && !c.Null? :: Text(InclusionKey(c).value)
  {
    var k := Find(headers, InclusionHeader).value;
    var n := NormaliseColumn(rows, k, AsInclusionKey);
    NormalisedKeys(rows, k, AsInclusionKey);
    PresentKeys(n, k);
    var lhs := InclusionKeySet(headers, rows);
    var rhs := set c | c in Keys(rows, k) && !c.Null? :: Text(InclusionKey(c).value);
    forall d | d in lhs ensures d in rhs {
      var c :| c in Keys(rows, k) && Normalise(AsInclusionKey, c) == d;
      assert !c.Null?;
    }
    forall c | c in Keys(rows, k) && !c.Null? ensures Text(InclusionKey(c).value) in lhs {
      assert Normalise(AsInclusionKey, c) == Text(InclusionKey(c).value);
    }
  }

  // ---------------------------------------------------------------------
  // The comparison
  // ---------------------------------------------------------------------

  /** The detail views shown after the summary, each a selection of one
      table's rows in their original order. */
  datatype Details = Details(
    coincidentesInclusoesNovos: seq<Row>,
    coincidentes: seq<Row>,
    novos: seq<Row>,
    saidas: seq<Row>,
    inclusoes: seq<Row>)

  datatype Comparison = Comparison(
    report: Movements,
    summary: Summary,
    warning: Option<Warning>,
    details: Details)

  /** What pressing "Comparar" produces: the first missing upload, the column
      whose lookup raised KeyError (caught at the top level and shown), or
      the comparison. */
  datatype Outcome =
    | MissingFile(file: Input)
    | Failed(missingColumn: string)
    | Compared(result: Comparison)

  /** The message the top-level handler shows for a failed lookup:
      KeyError's text is the quoted column name. */
  function FailureMessage(missingColumn: string): string
  {
    "Ocorreu um erro: '" + missingColumn + "'"
  }

  /** The text `st.error` shows for an outcome: the missing upload's prompt,
      or the caught exception's message; none for a completed comparison. */
  function ShownError(out: Outcome): (m: Option<string>)
    ensures m.None? <==> out.Compared?
  {
    match out
    case MissingFile(file) => Some(MissingFileMessage(file))
    case Failed(column) => Some(FailureMessage(column))
    case Compared(_) => None
  }

  /** Each missing upload has its own prompt, and no prompt reads like a
      caught exception. */
  lemma ErrorsTellCausesApart(a: Outcome, b: Outcome)
    requires !a.Compared? && !b.Compared?
    requires ShownError(a) == ShownError(b)
    ensures a == b
  {
    if a.MissingFile? && b.MissingFile? {
      PromptsDiffer(a.file, b.file);
    } else if a.Failed? && b.Failed? {
      FailureMessageInjective(a.missingColumn, b.missingColumn);
    } else if a.MissingFile? {
      PromptIsNoFailure(a.file, b.missingColumn);
    } else {
      PromptIsNoFailure(b.file, a.missingColumn);
    }
  }

  /** A prompt ends with a full stop, a caught KeyError with a quote. */
  lemma PromptIsNoFailure(i: Input, column: string)
    ensures MissingFileMessage(i) != FailureMessage(column)
  {
    var m := MissingFileMessage(i);
    assert m[|m| - 1] == '.';
    var f := FailureMessage(column);
    assert f[|f| - 1] == '\'';
  }

  lemma PromptsDiffer(a: Input, b: Input)
    requires MissingFileMessage(a) == MissingFileMessage(b)
    ensures a == b
  {
    assert |MissingFileMessage(BaseGamma)| != |MissingFileMessage(PositivadorNovo)|;
    assert |MissingFileMessage(BaseGamma)| != |MissingFileMessage(Inclusoes)|;
    assert |MissingFileMessage(PositivadorNovo)| != |MissingFileMessage(Inclusoes)|;
  }

  lemma FailureMessageInjective(a: string, b: string)
    requires FailureMessage(a) == FailureMessage(b)
    ensures a == b
  {
    var p := "Ocorreu um erro: '";
    assert FailureMessage(a)[|p|..|p| + |a|] == a;
    assert FailureMessage(b)[|p|..|p| + |b|] == b;
  }

  /** Whether the three tables have the columns the comparison looks up. */
  predicate Comparable(bh: seq<string>, br: seq<Row>, ch: seq<string>, cr: seq<Row>,
                       ih: seq<string>, ir: seq<Row>)
  {
    && WellFormed(bh, br) && ClientHeader in bh
    && WellFormed(ch, cr) && ClientHeader in ch
    && WellFormed(ih, ir) && InclusionHeader in ih
  }

  /** The comparison as a function of the three tables as loaded: Base Gamma
      (bh, br), Positivador Novo (ch, cr) and Inclusões (ih, ir). */
  function Expected(bh: seq<string>, br: seq<Row>, ch: seq<string>, cr: seq<Row>,
                    ih: seq<string>, ir: seq<Row>): Comparison
    requires Comparable(bh, br, ch, cr, ih, ir)
  {
    var kb := Find(bh, ClientHeader).value;
    var kc := Find(ch, ClientHeader).value;
    Reconciled(
      NormaliseColumn(br, kb, AsRosterKey), if |bh| == 8 then 3 else kb,
      NormaliseColumn(cr, kc, AsRosterKey), kc,
      InclusionRows(ih, ir), Find(ih, InclusionHeader).value,
      if |bh| == 8 then None else Some(ColumnCountWarning(|bh|, bh)))
  }

  /** The report and the summary are computed from the three key sets B, C
      and I, and the warning appears exactly when Base Gamma does not have 8
      columns. */
  lemma ExpectedCounts(bh: seq<string>, br: seq<Row>, ch: seq<string>, cr: seq<Row>,
                       ih: seq<string>, ir: seq<Row>)
    requires Comparable(bh, br, ch, cr, ih, ir)
    ensures var e := Expected(bh, br, ch, cr, ih, ir);
      var b := BaseKeySet(bh, br);
      var i := InclusionKeySet(ih, ir);
      var r := Classify(b, CurrentKeySet(ch, cr), i);
      && e.report == MovementReport(b, r)
      && e.summary == Summarise(b, i, r)
      && (e.warning.None? <==> |bh| == 8)
      && (e.warning.Some? ==> e.warning.value == ColumnCountWarning(|bh|, bh))
  {
  }

  /** Every Base Gamma row is listed once, either with the clients who
      stayed or with those who left, and the Inclusões view is the whole
      filtered extract. */
  lemma ExpectedListsEveryRow(bh: seq<string>, br: seq<Row>, ch: seq<string>, cr: seq<Row>,
                              ih: seq<string>, ir: seq<Row>)
    requires Comparable(bh, br, ch, cr, ih, ir)
    ensures var e := Expected(bh, br, ch, cr, ih, ir);
      && |e.details.coincidentes| + |e.details.saidas| == |br|
      && e.details.inclusoes == InclusionRows(ih, ir)
  {
    var kb := Find(bh, ClientHeader).value;
    var read := if |bh| == 8 then 3 else kb;
    var baseRows := NormaliseColumn(br, kb, AsRosterKey);
    var ki := Find(ih, InclusionHeader).value;
    var b := Keys(baseRows, read);
    var r := Classify(b, CurrentKeySet(ch, cr), InclusionKeySet(ih, ir));
    SelectOwnKeysKeepsAll(InclusionRows(ih, ir), ki);
    forall j | 0 <= j < |baseRows| ensures baseRows[j][read] in r.coincidentes + r.saidas {
      assert baseRows[j][read] in b;
    }
    WherePartition(baseRows, read, r.coincidentes, r.saidas);
  }

  /** Every row has a cell in column `k`, and that cell is in `keys`. */
  predicate KeyedBy(rows: seq<Row>, k: nat, keys: set<Cell>)
  {
    forall j :: 0 <= j < |rows| ==> k < |rows[j]| && rows[j][k] in keys
  }

  /** Every listed row carries a key of its class: stayed rows a key in
      B ∩ C, left rows one in B − C, entering rows one in C − B, and the
      Inclusões rows of entering clients one in I ∩ (C − B). */
  lemma ExpectedRowsClassified(bh: seq<string>, br: seq<Row>, ch: seq<string>, cr: seq<Row>,
                               ih: seq<string>, ir: seq<Row>)
    requires Comparable(bh, br, ch, cr, ih, ir)
    ensures var d := Expected(bh, br, ch, cr, ih, ir).details;
      var b := BaseKeySet(bh, br);
      var c := CurrentKeySet(ch, cr);
      var i := InclusionKeySet(ih, ir);
      var kb := if |bh| == 8 then 3 else Find(bh, ClientHeader).value;
      var kc := Find(ch, ClientHeader).value;
      var ki := Find(ih, InclusionHeader).value;
      && KeyedBy(d.coincidentes, kb, b * c) && KeyedBy(d.saidas, kb, b - c)
      && KeyedBy(d.novos, kc, c - b) && KeyedBy(d.coincidentesInclusoesNovos, ki, i * (c - b))
  {
    var kb := Find(bh, ClientHeader).value;
    var read := if |bh| == 8 then 3 else kb;
    var baseRows := NormaliseColumn(br, kb, AsRosterKey);
    var kc := Find(ch, ClientHeader).value;
    var currentRows := NormaliseColumn(cr, kc, AsRosterKey);
    var ki := Find(ih, InclusionHeader).value;
    var inclusionRows := InclusionRows(ih, ir);
    var b := Keys(baseRows, read);
    var c := Keys(currentRows, kc);
    var i := Keys(inclusionRows, ki);
    var r := Classify(b, c, i);
    var d := Expected(bh, br, ch, cr, ih, ir).details;
    assert d == Reconciled(baseRows, read, currentRows, kc, inclusionRows, ki, None).details;
    KeyedBySelection(baseRows, read, r.coincidentes);
    KeyedBySelection(baseRows, read, r.saidas);
    KeyedBySelection(currentRows, kc, r.novos);
    KeyedBySelection(inclusionRows, ki, r.inclusoesNovos);
  }

  /** The rows an isin selection keeps are keyed by the selected set. */
  lemma KeyedBySelection(rows: seq<Row>, k: nat, keys: set<Cell>)
    requires HasColumn(rows, k)
    ensures KeyedBy(Where(rows, k, MemberOf(keys)), k, keys)
  {
  }

  /** The outcome of the comparison on three tables as loaded: KeyError for
      the first column lookup that fails, in the order Base Gamma,
      Positivador Novo, Inclusões, and otherwise the comparison. */
  function ExpectedOutcome(bh: seq<string>, br: seq<Row>, ch: seq<string>, cr: seq<Row>,
                           ih: seq<string>, ir: seq<Row>): (out: Outcome)
    requires WellFormed(bh, br) && WellFormed(ch, cr) && WellFormed(ih, ir)
    ensures !out.MissingFile?
    ensures out.Compared? <==> Comparable(bh, br, ch, cr, ih, ir)
    ensures ClientHeader !in bh || ClientHeader !in ch ==> out == Failed(ClientHeader)
    ensures ClientHeader in bh && ClientHeader in ch && InclusionHeader !in ih ==> out == Failed(InclusionHeader)
    ensures out.Compared? ==> out.result == Expected(bh, br, ch, cr, ih, ir)
  {
    if ClientHeader !in bh || ClientHeader !in ch then Failed(ClientHeader)
    else if InclusionHeader !in ih then Failed(InclusionHeader)
    else Compared(Expected(bh, br, ch, cr, ih, ir))
  }

  /** Controle.py:39 and 40: looks up 'Cliente' and normalises that column
      in place; None (KeyError) when there is no such column. */
  method PrepareRoster(t: Table) returns (k: Option<nat>)
    requires t.Valid()
    modifies t.rows
    ensures t.Valid()
    ensures k == Find(t.headers, ClientHeader)
    ensures k.None? ==> t.rows[..] == old(t.rows[..])
    ensures k.Some? ==> t.rows[..] == NormaliseColumn(old(t.rows[..]), k.value, AsRosterKey)
  {
    k := Find(t.headers, ClientHeader);
    if k.Some? {
      var values := NormaliseSeries(Column(t.rows[..], k.value), AsRosterKey);
      NormaliseColumnAssigns(t.rows[..], k.value, AsRosterKey);
      t.AssignColumn(k.value, values);
    }
  }

  /** Controle.py:41 and 44: looks up 'CODIGO DO CLIENTE', normalises that
      column and keeps only the rows with a code; None (KeyError) when there
      is no such column. */
  method PrepareInclusions(t: Table) returns (k: Option<nat>)
    requires t.Valid()
    modifies t, t.rows
    ensures t.Valid() && t.headers == old(t.headers)
    ensures k == Find(t.headers, InclusionHeader)
    ensures k.None? ==> t.rows == old(t.rows) && t.rows[..] == old(t.rows[..])
    ensures k.Some? ==> (WellFormed(old(t.headers), old(t.rows[..]))
      && t.rows[..] == InclusionRows(old(t.headers), old(t.rows[..])))
  {
    k := Find(t.headers, InclusionHeader);
    if k.Some? {
      var values := NormaliseSeries(Column(t.rows[..], k.value), AsInclusionKey);
      NormaliseColumnAssigns(t.rows[..], k.value, AsInclusionKey);
      t.AssignColumn(k.value, values);
      t.KeepRows(k.value, NotNull);
    }
  }

  /** Controle.py:47-53: renames Base Gamma's columns when it has 8 of them,
      otherwise warns; either way 'Cliente' still names a column, column 3
      after a rename. */
  method RenameBase(t: Table) returns (w: Option<Warning>)
    requires t.Valid() && ClientHeader in t.headers
    modifies t`headers
    ensures t.Valid()
    ensures t.headers == RenamedHeaders(old(t.headers))
    ensures w == if |old(t.headers)| == 8 then None else Some(ColumnCountWarning(|old(t.headers)|, old(t.headers)))
    ensures Find(t.headers, ClientHeader)
      == if |old(t.headers)| == 8 then Some(3) else Find(old(t.headers), ClientHeader)
  {
    w := t.ApplyCanonicalHeaders();
    if w.None? {
      ClienteIsColumnThree();
    }
  }

  /** Runs the comparison on three loaded tables, rewriting them in place as
      the script does: the client columns are normalised, Inclusões keeps
      only the rows with a code and Base Gamma may be renamed. */
  method Compare(base: Table, current: Table, inclusions: Table) returns (out: Outcome)
    requires base.Valid() && current.Valid() && inclusions.Valid()
    requires base != current && base != inclusions && current != inclusions
    requires base.rows != current.rows && base.rows != inclusions.rows && current.rows != inclusions.rows
    modifies base, base.rows, current, current.rows, inclusions, inclusions.rows
    ensures out == ExpectedOutcome(old(base.headers), old(base.rows[..]), old(current.headers),
                                   old(current.rows[..]), old(inclusions.headers), old(inclusions.rows[..]))
  {
    ghost var bh, br := base.headers, base.rows[..];
    ghost var ch, cr := current.headers, current.rows[..];
    ghost var ih, ir := inclusions.headers, inclusions.rows[..];
    var kb := PrepareRoster(base);
    if kb.None? {
      return Failed(ClientHeader);
    }
    ghost var baseRows := base.rows[..];
    var kc := PrepareRoster(current);
    if kc.None? {
      return Failed(ClientHeader);
    }
    ghost var currentRows := current.rows[..];
    var ki := PrepareInclusions(inclusions);
    if ki.None? {
      return Failed(InclusionHeader);
    }
    assert base.rows[..] == baseRows;
    var warning := RenameBase(base);
    assert base.rows[..] == baseRows && current.rows[..] == currentRows;
    var kb2 := Find(base.headers, ClientHeader).value;
    ReconciledIsExpected(bh, br, ch, cr, ih, ir, base.rows[..], kb2, current.rows[..], kc.value,
                         inclusions.rows[..], ki.value, warning);
    out := Compared(Reconciled(base.rows[..], kb2, current.rows[..], kc.value,
                               inclusions.rows[..], ki.value, warning));
  }

  /** The rewritten tables and looked-up columns Compare reaches are those
      Expected describes. */
  lemma ReconciledIsExpected(bh: seq<string>, br: seq<Row>, ch: seq<string>, cr: seq<Row>,
                             ih: seq<string>, ir: seq<Row>,
                             baseRows: seq<Row>, kb: nat, currentRows: seq<Row>, kc: nat,
                             inclusionRows: seq<Row>, ki: nat, warning: Option<Warning>)
    requires Comparable(bh, br, ch, cr, ih, ir)
    requires kb == if |bh| == 8 then 3 else Find(bh, ClientHeader).value
    requires baseRows == NormaliseColumn(br, Find(bh, ClientHeader).value, AsRosterKey)
    requires kc == Find(ch, ClientHeader).value && currentRows == NormaliseColumn(cr, kc, AsRosterKey)
    requires ki == Find(ih, InclusionHeader).value && inclusionRows == InclusionRows(ih, ir)
    requires warning == if |bh| == 8 then None else Some(ColumnCountWarning(|bh|, bh))
    ensures HasColumn(baseRows, kb) && HasColumn(currentRows, kc) && HasColumn(inclusionRows, ki)
    ensures Compared(Reconciled(baseRows, kb, currentRows, kc, inclusionRows, ki, warning))
      == ExpectedOutcome(bh, br, ch, cr, ih, ir)
  {
  }

  /** Controle.py:53-122 on the rewritten tables: the key sets, the report,
      the summary and the detail views. */
  function Reconciled(baseRows: seq<Row>, kb: nat, currentRows: seq<Row>, kc: nat,
                      inclusionRows: seq<Row>, ki: nat, warning: Option<Warning>): Comparison
    requires HasColumn(baseRows, kb) && HasColumn(currentRows, kc) && HasColumn(inclusionRows, ki)
  {
    var b := Keys(baseRows, kb);
    var c := Keys(currentRows, kc);
    var i := Keys(inclusionRows, ki);
    var r := Classify(b, c, i);
    Comparison(
      MovementReport(b, r),
      Summarise(b, i, r),
      warning,
      Details(
        Where(inclusionRows, ki, MemberOf(r.inclusoesNovos)),
        Where(baseRows, kb, MemberOf(r.coincidentes)),
        Where(currentRows, kc, MemberOf(r.novos)),
        Where(baseRows, kb, MemberOf(r.saidas)),
        Where(inclusionRows, ki, MemberOf(i))))
  }

  /** The full button handler: report the first missing upload, otherwise
      compare. */
  method Run(base: Table?, current: Table?, inclusions: Table?) returns (out: Outcome)
    requires base != null ==> base.Valid()
    requires current != null ==> current.Valid()
    requires inclusions != null ==> inclusions.Valid()
    requires base != null && current != null && inclusions != null ==>
      base != current && base != inclusions && current != inclusions
      && base.rows != current.rows && base.rows != inclusions.rows && current.rows != inclusions.rows
    modifies base, current, inclusions
    modifies if base == null then {} else {base.rows}
    modifies if current == null then {} else {current.rows}
    modifies if inclusions == null then {} else {inclusions.rows}
    ensures var missing := FirstMissing(base != null, current != null, inclusions != null);
      (missing.Some? ==> out == MissingFile(missing.value))
      && (missing.None? ==> out == ExpectedOutcome(old(base.headers), old(base.rows[..]),
                                                   old(current.headers), old(current.rows[..]),
                                                   old(inclusions.headers), old(inclusions.rows[..])))
  {
    var missing := FirstMissing(base != null, current != null, inclusions != null);
    if missing.Some? {
      return MissingFile(missing.value);
    }
    out := Compare(base, current, inclusions);
  }

  // ---------------------------------------------------------------------
  // Consequences for the shown results
  // ---------------------------------------------------------------------

  /** A client code stored as a float such as 42.0 in Base Gamma and as the
      text "42" in Positivador Novo is counted as one client leaving and
      another entering, not as a client who stayed. */
  lemma FloatBaseCodeIsNotMatched(whole: nat, fraction: string)
    requires fraction != [] && forall i :: 0 <= i < |fraction| ==> IsDigit(fraction[i])
    ensures var b := {Text(RosterKey(Float(false, whole, fraction)))};
      var c := {Text(RosterKey(Text(NatToDecimal(whole))))};
      var r := Classify(b, c, {});
      r.coincidentes == {} && r.saidas == b && r.novos == c
  {
    RosterFloatKeepsFraction(whole, fraction);
    SingletonsApart(Text(RosterKey(Float(false, whole, fraction))), Text(RosterKey(Text(NatToDecimal(whole)))));
  }

  /** A Base Gamma row without a client code is counted as the client "nan". */
  lemma MissingBaseCodeCountsAsNan(headers: seq<string>, rows: seq<Row>, j: nat)
    requires WellFormed(headers, rows) && ClientHeader in headers
    requires |headers| != 8 || Find(headers, ClientHeader) == Some(3)
    requires j < |rows| && rows[j][Find(headers, ClientHeader).value] == Null
    ensures Text("nan") in BaseKeySet(headers, rows)
  {
    var k := Find(headers, ClientHeader).value;
    MissingRosterCellIsNan(rows, k, j);
  }
}
