/** The set reconciler: from the Base Gamma key set B, the Positivador Novo
    key set C and the Inclusões key set I it derives the clients who stayed,
    entered and left, and the entering clients the inclusions extract lists. */
module Reconcile {

  /** The four sets Controle.py derives from B, C and I. */
  datatype Classes<T> = Classes(
    coincidentes: set<T>,    // B ∩ C: in both rosters
    novos: set<T>,           // C − B: entered
    saidas: set<T>,          // B − C: left
    inclusoesNovos: set<T>)  // I ∩ novos: entered and listed in Inclusões

  /** Base Gamma splits into those who stayed and those who left, Positivador
      Novo into those who stayed and those who entered; nobody who entered
      was in Base Gamma, nobody who left is in Positivador Novo, and the
      listed entering clients are entering clients listed in Inclusões. */
  function Classify<T>(base: set<T>, current: set<T>, inclusions: set<T>): (r: Classes<T>)
    ensures r.coincidentes + r.saidas == base && r.coincidentes !! r.saidas
    ensures r.coincidentes + r.novos == current && r.coincidentes !! r.novos
    ensures r.novos !! base && r.saidas !! current
    ensures r.inclusoesNovos <= r.novos && r.inclusoesNovos <= inclusions
  {
    var novos := current - base;
    Classes(base * current, novos, base - current, inclusions * novos)
  }

  /** Where one client stands relative to the two rosters, decided from its
      two memberships alone: the reference the classes are checked against. */
  datatype Movement = Stayed | Entered | Left | Untracked

  function MovementOf<T>(x: T, base: set<T>, current: set<T>): Movement
  {
    if x in base && x in current then Stayed
    else if x in current then Entered
    else if x in base then Left
    else Untracked
  }

  /** Each class holds exactly the clients with that movement, so the three
      classes are pairwise disjoint and together are B ∪ C; the listed
      entering clients are exactly the entering clients Inclusões lists. */
  lemma ClassesPartition<T>(base: set<T>, current: set<T>, inclusions: set<T>)
    ensures var r := Classify(base, current, inclusions);
      && (forall x :: x in r.coincidentes <==> MovementOf(x, base, current) == Stayed)
      && (forall x :: x in r.novos <==> MovementOf(x, base, current) == Entered)
      && (forall x :: x in r.saidas <==> MovementOf(x, base, current) == Left)
      && (forall x :: x in r.inclusoesNovos <==> x in inclusions && MovementOf(x, base, current) == Entered)
      && r.coincidentes !! r.novos && r.coincidentes !! r.saidas && r.novos !! r.saidas
      && r.coincidentes + r.novos + r.saidas == base + current
  {
  }

  /** The entering clients listed in Inclusões are entering clients and are
      listed in Inclusões. */
  lemma InclusoesNovosBounds<T>(base: set<T>, current: set<T>, inclusions: set<T>)
    ensures var r := Classify(base, current, inclusions);
      && r.inclusoesNovos <= r.novos && r.inclusoesNovos <= inclusions
      && |r.inclusoesNovos| <= |r.novos| && |r.inclusoesNovos| <= |inclusions|
  {
    var r := Classify(base, current, inclusions);
    SubsetCard(r.inclusoesNovos, r.novos);
    SubsetCard(r.inclusoesNovos, inclusions);
  }

  /** B splits into those who stayed and those who left; C into those who
      stayed and those who entered. */
  lemma RosterSizes<T>(base: set<T>, current: set<T>, inclusions: set<T>)
    ensures var r := Classify(base, current, inclusions);
      && |base| == |r.coincidentes| + |r.saidas|
      && |current| == |r.coincidentes| + |r.novos|
  {
    var r := Classify(base, current, inclusions);
    assert r.coincidentes + r.saidas == base;
    assert r.coincidentes + r.novos == current;
  }

  /** A one-client Base Gamma and a different one-client Positivador Novo
      have nobody in common: one client left and one entered. */
  lemma SingletonsApart<T>(x: T, y: T)
    requires x != y
    ensures var r := Classify({x}, {y}, {});
      r.coincidentes == {} && r.saidas == {x} && r.novos == {y}
  {
  }

  /** A subset is no larger than its superset. */
  lemma {:induction false} SubsetCard<T>(a: set<T>, b: set<T>)
    requires a <= b
    ensures |a| <= |b|
    decreases |b|
  {
    if a != {} {
      var x :| x in a;
      SubsetCard(a - {x}, b - {x});
    }
  }
}
