/**
 * The access macros of the human mobility input file (1-MOV.csv): one
 * mobility rate per age group, then the migration percentage.
 */
module ParamsMovH1 {
  import opened Parameters
  import General

  datatype Macro =
    | TaxaMobilidade(ie: nat)
    | PercMigracao

  /** The arguments the header comment's numbering covers. */
  predicate InDomain(m: Macro) {
    match m
    case TaxaMobilidade(ie) => ie < General.N_IDADES
    case PercMigracao => true
  }

  /** The parameter number MOVk the header comment assigns. */
  function Number(m: Macro): nat {
    match m
    case TaxaMobilidade(ie) => 1 + ie
    case PercMigracao => 7
  }

  /** The slots each macro's index expression reads, as written. */
  function ReadOf(m: Macro): Read {
    match m
    case TaxaMobilidade(ie) => Pair(DESL_1_MOV_H + 0 + ie * 2)
    case PercMigracao => Pair(DESL_1_MOV_H + 12)
  }

  /** Each macro reads the pair of parameter MOVk at offset 2(k - 1). */
  lemma ReadsItsParameter(m: Macro)
    requires InDomain(m)
    ensures ReadsParameter(ReadOf(m), MovH1, Number(m))
    ensures ReadOf(m) == Pair(MinSlot(MovH1, Number(m)))
  {
  }

  /** TAXA_MOBILIDADE(ie) reads 400 + 2ie and 401 + 2ie, inside 400..411. */
  lemma MobilitySlots(ie: nat)
    requires ie < General.N_IDADES
    ensures Slots(ReadOf(TaxaMobilidade(ie))) == {400 + 2 * ie, 401 + 2 * ie}
    ensures forall s :: s in Slots(ReadOf(TaxaMobilidade(ie))) ==> 400 <= s <= 411
  {
  }

  /** PERC_MIGRACAO reads 412 and 413, which no TAXA_MOBILIDADE reads. */
  lemma MigrationSlots(ie: nat)
    requires ie < General.N_IDADES
    ensures Slots(ReadOf(PercMigracao)) == {412, 413}
    ensures Slots(ReadOf(PercMigracao)) !! Slots(ReadOf(TaxaMobilidade(ie)))
  {
    ReadsDisjoint(PercMigracao, TaxaMobilidade(ie));
  }

  /** Every slot read lies in [DESL_1_MOV_H, DESL_2_CON_H). */
  lemma ReadsInsideSlice(m: Macro)
    requires InDomain(m)
    ensures forall s :: s in Slots(ReadOf(m)) ==> InSlice(s, MovH1) && DESL_1_MOV_H <= s < DESL_2_CON_H
  {
    ReadsItsParameter(m);
    ParameterInSlice(ReadOf(m), MovH1, Number(m));
  }

  /** Distinct macros (or arguments) read distinct parameters. */
  lemma NumberInjective(m: Macro, m': Macro)
    requires InDomain(m) && InDomain(m')
    requires Number(m) == Number(m')
    ensures m == m'
  {
  }

  /** Distinct macros read disjoint slots. */
  lemma ReadsDisjoint(m: Macro, m': Macro)
    requires InDomain(m) && InDomain(m')
    requires m != m'
    ensures Slots(ReadOf(m)) !! Slots(ReadOf(m'))
  {
    ReadsItsParameter(m);
    ReadsItsParameter(m');
    if Number(m) == Number(m') {
      NumberInjective(m, m');
    }
    DistinctParametersDisjoint(ReadOf(m), ReadOf(m'), MovH1, Number(m), Number(m'));
  }

  /** The value a macro yields from the parameter vector p and the percentage per. */
  function Value(p: seq<real>, m: Macro, per: real): real
    requires |p| == N_PAR && InDomain(m)
  {
    ReadsItsParameter(m);
    ParameterWithinVector(ReadOf(m), MovH1, Number(m));
    Resolve(p, ReadOf(m), ToDouble, per)
  }
}
