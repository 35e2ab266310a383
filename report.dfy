/** The movement report (Relatório de Movimentações) and the summary counts
    (Resumo dos Totais), both built from the cardinalities of the
    reconciler's sets. */
module Report {
  import opened Reconcile

  /** One row of the report: its name and its four counts. */
  datatype Line = Line(name: string, inicio: int, entradas: int, saidas: int, fim: int)

  /** The three rows in the order the report shows them. */
  datatype Movements = Movements(total: Line, dentro: Line, fora: Line)

  /** The report exactly as Controle.py computes it. The Dentro Positivador
      row's entries are the constant 0; its exits are the exits that also
      stayed, and the Fora Positivador row takes every entry. */
  function MovementReport<T>(base: set<T>, r: Classes<T>): (m: Movements)
    ensures Balanced(m.total) && Balanced(m.dentro) && Balanced(m.fora)
    ensures m.total.inicio == m.dentro.inicio + m.fora.inicio
    ensures m.total.entradas == m.dentro.entradas + m.fora.entradas
  {
    var inicioTotal := |base|;
    var entradasTotal := |r.novos|;
    var saidasTotal := |r.saidas|;
    var fimTotal := inicioTotal + entradasTotal - saidasTotal;

    var dentroInicio := |r.coincidentes|;
    var dentroSaidas := |r.saidas * r.coincidentes|;
    var dentroFim := dentroInicio - dentroSaidas;

    var foraInicio := inicioTotal - dentroInicio;
    var foraSaidas := |r.saidas - r.coincidentes|;
    var foraEntradas := |r.novos|;
    var foraFim := foraInicio + foraEntradas - foraSaidas;

    Movements(
      Line("Total", inicioTotal, entradasTotal, saidasTotal, fimTotal),
      Line("Dentro Positivador", dentroInicio, 0, dentroSaidas, dentroFim),
      Line("Fora Positivador", foraInicio, foraEntradas, foraSaidas, foraFim))
  }

  predicate Balanced(l: Line)
  {
    l.fim == l.inicio + l.entradas - l.saidas
  }

  predicate NonNegative(l: Line)
  {
    l.inicio >= 0 && l.entradas >= 0 && l.saidas >= 0 && l.fim >= 0
  }

  /** For reconciled sets, every row balances (Fim = Início + Entradas −
      Saídas) and no count is negative; the Total row ends at |C|; the
      Dentro Positivador row has no exits, so it ends where it starts; the
      Fora Positivador row ends at the number of entering clients; and in
      every column Total = Dentro + Fora. */
  lemma ReportIdentities<T>(base: set<T>, current: set<T>, inclusions: set<T>)
    ensures var r := Classify(base, current, inclusions);
      var m := MovementReport(base, r);
      && Balanced(m.total) && Balanced(m.dentro) && Balanced(m.fora)
      && NonNegative(m.total) && NonNegative(m.dentro) && NonNegative(m.fora)
      && m.total.fim == |current|
      && m.dentro.saidas == 0 && m.dentro.fim == m.dentro.inicio
      && m.fora.saidas == m.total.saidas && m.fora.fim == |r.novos|
      && m.total.inicio == m.dentro.inicio + m.fora.inicio
      && m.total.entradas == m.dentro.entradas + m.fora.entradas
      && m.total.saidas == m.dentro.saidas + m.fora.saidas
      && m.total.fim == m.dentro.fim + m.fora.fim
  {
    var r := Classify(base, current, inclusions);
    RosterSizes(base, current, inclusions);
    assert r.saidas * r.coincidentes == {};
    assert r.saidas - r.coincidentes == r.saidas;
  }

  /** The totals printed under Resumo dos Totais. */
  datatype Summary = Summary(
    totalCoincidentes: nat,
    totalNovos: nat,
    totalSaidas: nat,
    totalInclusoes: nat,
    totalBaseGamma: nat,
    totalCoincidentesInclusoesNovos: nat)

  function Summarise<T>(base: set<T>, inclusions: set<T>, r: Classes<T>): Summary
  {
    Summary(|r.coincidentes|, |r.novos|, |r.saidas|, |inclusions|, |base|, |r.inclusoesNovos|)
  }

  /** The summary agrees with the report and with itself: stayed plus left is
      the Base Gamma total, and the entering clients listed in Inclusões are
      no more than the entering clients nor than the inclusions. */
  lemma SummaryConsistent<T>(base: set<T>, current: set<T>, inclusions: set<T>)
    ensures var r := Classify(base, current, inclusions);
      var s := Summarise(base, inclusions, r);
      var m := MovementReport(base, r);
      && s.totalCoincidentes + s.totalSaidas == s.totalBaseGamma
      && s.totalCoincidentes + s.totalNovos == |current|
      && s.totalCoincidentesInclusoesNovos <= s.totalNovos
      && s.totalCoincidentesInclusoesNovos <= s.totalInclusoes
      && m.total.inicio == s.totalBaseGamma && m.total.entradas == s.totalNovos
      && m.total.saidas == s.totalSaidas && m.dentro.inicio == s.totalCoincidentes
  {
    RosterSizes(base, current, inclusions);
    InclusoesNovosBounds(base, current, inclusions);
  }

  /** With B = {a, b, c} and C = {b, c, d}: b and c stayed, d entered, a
      left, and the Total row reads 3, 1, 1, 3. */
  lemma BasicReconciliation()
    ensures var r := Classify({"a", "b", "c"}, {"b", "c", "d"}, {});
      && r.coincidentes == {"b", "c"} && r.novos == {"d"} && r.saidas == {"a"}
      && MovementReport({"a", "b", "c"}, r).total == Line("Total", 3, 1, 1, 3)
  {
    var base: set<string> := {"a", "b", "c"};
    var current: set<string> := {"b", "c", "d"};
    assert "a" != "b" && "a" != "c" && "a" != "d" && "b" != "c" && "b" != "d" && "c" != "d";
    assert base * current == {"b", "c"};
    assert current - base == {"d"};
    assert base - current == {"a"};
    assert |base| == 3;
  }
}
