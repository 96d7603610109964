/**
 * The access macros of the human transition input file (3-TRA.csv): four
 * period lengths per age group, the hemorrhagic evolution rate per number
 * of serotypes already caught, the dengue death rate and the vaccine
 * efficacy.
 */
module ParamsTraH3 {
  import opened Parameters
  import General

  datatype Macro =
    | PeriodoExpostoHumano(ie: nat)
    | PeriodoExpostoHumanoPer(ie: nat)       // the `_ (ie, per)` form
    | PeriodoInfectadoHumano(ie: nat)
    | PeriodoHemorragicoHumano(ie: nat)
    | PeriodoRecuperadoHumano(ie: nat)
    | PeriodoRecuperadoHumanoPer(ie: nat)    // the `_ (ie, per)` form
    | TaxaEvolucaoDengueHemorragica(nSoro: nat)
    | TaxaMorteDengue
    | TaxaEficaciaVacina

  /** The arguments the header comment's numbering covers. */
  predicate InDomain(m: Macro) {
    match m
    case PeriodoExpostoHumano(ie) => ie < General.N_IDADES
    case PeriodoExpostoHumanoPer(ie) => ie < General.N_IDADES
    case PeriodoInfectadoHumano(ie) => ie < General.N_IDADES
    case PeriodoHemorragicoHumano(ie) => ie < General.N_IDADES
    case PeriodoRecuperadoHumano(ie) => ie < General.N_IDADES
    case PeriodoRecuperadoHumanoPer(ie) => ie < General.N_IDADES
    case TaxaEvolucaoDengueHemorragica(nSoro) => nSoro < General.N_SOROTIPOS
    case _ => true
  }

  /** The parameter number TRAk the header comment assigns. */
  function Number(m: Macro): nat {
    match m
    case PeriodoExpostoHumano(ie) => 1 + ie
    case PeriodoExpostoHumanoPer(ie) => 1 + ie
    case PeriodoInfectadoHumano(ie) => 7 + ie
    case PeriodoHemorragicoHumano(ie) => 13 + ie
    case PeriodoRecuperadoHumano(ie) => 19 + ie
    case PeriodoRecuperadoHumanoPer(ie) => 19 + ie
    case TaxaEvolucaoDengueHemorragica(nSoro) => 25 + nSoro
    case TaxaMorteDengue => 29
    case TaxaEficaciaVacina => 30
  }

  /** The plain macro reading the whole pair of m's parameter. */
  function Owner(m: Macro): Macro {
    match m
    case PeriodoExpostoHumanoPer(ie) => PeriodoExpostoHumano(ie)
    case PeriodoRecuperadoHumanoPer(ie) => PeriodoRecuperadoHumano(ie)
    case _ => m
  }

  /** The slots each macro's index expression reads, as written. */
  function ReadOf(m: Macro): Read {
    match m
    case PeriodoExpostoHumano(ie) => Pair(DESL_3_TRA_H + 0 + ie * 2)
    case PeriodoExpostoHumanoPer(ie) => Pair(DESL_3_TRA_H + 0 + ie * 2)
    case PeriodoInfectadoHumano(ie) => Pair(DESL_3_TRA_H + 12 + ie * 2)
    case PeriodoHemorragicoHumano(ie) => Pair(DESL_3_TRA_H + 24 + ie * 2)
    case PeriodoRecuperadoHumano(ie) => Pair(DESL_3_TRA_H + 36 + ie * 2)
    case PeriodoRecuperadoHumanoPer(ie) => Pair(DESL_3_TRA_H + 36 + ie * 2)
    case TaxaEvolucaoDengueHemorragica(nSoro) => Pair(DESL_3_TRA_H + 48 + nSoro * 2)
    case TaxaMorteDengue => Pair(DESL_3_TRA_H + 56)
    case TaxaEficaciaVacina => Pair(DESL_3_TRA_H + 58)
  }

  /** The periods are converted to int, the rates kept as doubles. */
  function CastOf(m: Macro): Cast {
    match m
    case TaxaEvolucaoDengueHemorragica(_) => ToDouble
    case TaxaMorteDengue => ToDouble
    case TaxaEficaciaVacina => ToDouble
    case _ => ToInt
  }

  /** Each macro reads the pair of parameter TRAk at offset 2(k - 1). */
  lemma ReadsItsParameter(m: Macro)
    requires InDomain(m)
    ensures ReadsParameter(ReadOf(m), TraH3, Number(m))
    ensures ReadOf(m) == Pair(MinSlot(TraH3, Number(m)))
  {
  }

  /**
   * The four periods read the 12-slot blocks at offsets 0, 12, 24 and 36,
   * the evolution rates offsets 48..55, and the last slot is DESL_4_CON_H - 1.
   */
  lemma Blocks(ie: nat, nSoro: nat)
    requires ie < General.N_IDADES && nSoro < General.N_SOROTIPOS
    ensures ReadOf(PeriodoExpostoHumano(ie)).lo - DESL_3_TRA_H in {0, 2, 4, 6, 8, 10}
    ensures ReadOf(PeriodoInfectadoHumano(ie)).lo - DESL_3_TRA_H in {12, 14, 16, 18, 20, 22}
    ensures ReadOf(PeriodoHemorragicoHumano(ie)).lo - DESL_3_TRA_H in {24, 26, 28, 30, 32, 34}
    ensures ReadOf(PeriodoRecuperadoHumano(ie)).lo - DESL_3_TRA_H in {36, 38, 40, 42, 44, 46}
    ensures ReadOf(TaxaEvolucaoDengueHemorragica(nSoro)).lo - DESL_3_TRA_H in {48, 50, 52, 54}
    ensures ReadOf(TaxaMorteDengue).lo - DESL_3_TRA_H == 56
    ensures ReadOf(TaxaEficaciaVacina).lo + 1 == DESL_4_CON_H - 1
  {
  }

  /** Every slot read lies in [454, 514). */
  lemma ReadsInsideSlice(m: Macro)
    requires InDomain(m)
    ensures forall s :: s in Slots(ReadOf(m)) ==> InSlice(s, TraH3) && 454 <= s < 514
  {
    ReadsItsParameter(m);
    ParameterInSlice(ReadOf(m), TraH3, Number(m));
  }

  /** Only a macro and its `_` form share a parameter. */
  lemma NumberInjective(m: Macro, m': Macro)
    requires InDomain(m) && InDomain(m')
    requires Number(m) == Number(m')
    ensures Owner(m) == Owner(m')
  {
  }

  /** Macros of different parameters read disjoint slots. */
  lemma ReadsDisjoint(m: Macro, m': Macro)
    requires InDomain(m) && InDomain(m')
    requires Owner(m) != Owner(m')
    ensures Slots(ReadOf(m)) !! Slots(ReadOf(m'))
  {
    ReadsItsParameter(m);
    ReadsItsParameter(m');
    if Number(m) == Number(m') {
      NumberInjective(m, m');
    }
    DistinctParametersDisjoint(ReadOf(m), ReadOf(m'), TraH3, Number(m), Number(m'));
  }

  /** The `_` forms read what their plain forms read and convert it alike. */
  lemma VariantsAgree(m: Macro)
    ensures ReadOf(Owner(m)) == ReadOf(m) && CastOf(Owner(m)) == CastOf(m)
    ensures Number(Owner(m)) == Number(m)
  {
  }

  /** The value a macro yields from the parameter vector p and the percentage per. */
  function Value(p: seq<real>, m: Macro, per: real): real
    requires |p| == N_PAR && InDomain(m)
  {
    ReadsItsParameter(m);
    ParameterWithinVector(ReadOf(m), TraH3, Number(m));
    Resolve(p, ReadOf(m), CastOf(m), per)
  }
}
