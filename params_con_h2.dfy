/**
 * The access macros of the human contact input file (2-CON.csv): the
 * infection rates between humans and mosquitos, two of them per age group.
 */
module ParamsConH2 {
  import opened Parameters
  import General

  datatype Macro =
    | TaxaInfeccaoMosquito
    | TaxaInfeccaoMosquitoPer                      // the `_ (per)` form
    | TaxaSucessoInfeccaoMosquito
    | TaxaInfeccaoHumanoSuscetivel(fe: nat)
    | TaxaInfeccaoHumanoSuscetivelPer(fe: nat)     // the `_ (fe, per)` form
    | TaxaInfeccaoHumanoRecuperado(fe: nat)
    | TaxaSucessoInfeccaoHumano
    | TaxaRepasto
    | KCompHm
    | KCompMh
    | ReducaoContatoMh
    | RepastosPorPostura

  /** The arguments the header comment's numbering covers. */
  predicate InDomain(m: Macro) {
    match m
    case TaxaInfeccaoHumanoSuscetivel(fe) => fe < General.N_IDADES
    case TaxaInfeccaoHumanoSuscetivelPer(fe) => fe < General.N_IDADES
    case TaxaInfeccaoHumanoRecuperado(fe) => fe < General.N_IDADES
    case _ => true
  }

  /** The parameter number CONk the header comment assigns. */
  function Number(m: Macro): nat {
    match m
    case TaxaInfeccaoMosquito => 1
    case TaxaInfeccaoMosquitoPer => 1
    case TaxaSucessoInfeccaoMosquito => 2
    case TaxaInfeccaoHumanoSuscetivel(fe) => 3 + fe
    case TaxaInfeccaoHumanoSuscetivelPer(fe) => 3 + fe
    case TaxaInfeccaoHumanoRecuperado(fe) => 9 + fe
    case TaxaSucessoInfeccaoHumano => 15
    case TaxaRepasto => 16
    case KCompHm => 17
    case KCompMh => 18
    case ReducaoContatoMh => 19
    case RepastosPorPostura => 20
  }

  /** The plain macro reading the whole pair of m's parameter. */
  function Owner(m: Macro): Macro {
    match m
    case TaxaInfeccaoMosquitoPer => TaxaInfeccaoMosquito
    case TaxaInfeccaoHumanoSuscetivelPer(fe) => TaxaInfeccaoHumanoSuscetivel(fe)
    case _ => m
  }

  /** The slots each macro's index expression reads, as written. */
  function ReadOf(m: Macro): Read {
    match m
    case TaxaInfeccaoMosquito => Pair(DESL_2_CON_H + 0)
    case TaxaInfeccaoMosquitoPer => Pair(DESL_2_CON_H + 0)
    case TaxaSucessoInfeccaoMosquito => Pair(DESL_2_CON_H + 2)
    case TaxaInfeccaoHumanoSuscetivel(fe) => Pair(DESL_2_CON_H + 4 + fe * 2)
    case TaxaInfeccaoHumanoSuscetivelPer(fe) => Pair(DESL_2_CON_H + 4 + fe * 2)
    case TaxaInfeccaoHumanoRecuperado(fe) => Pair(DESL_2_CON_H + 16 + fe * 2)
    case TaxaSucessoInfeccaoHumano => Pair(DESL_2_CON_H + 28)
    case TaxaRepasto => Pair(DESL_2_CON_H + 30)
    case KCompHm => Pair(DESL_2_CON_H + 32)
    case KCompMh => Pair(DESL_2_CON_H + 34)
    case ReducaoContatoMh => Pair(DESL_2_CON_H + 36)
    case RepastosPorPostura => Pair(DESL_2_CON_H + 38)
  }

  /** The conversion each macro applies. */
  function CastOf(m: Macro): Cast {
    if m == RepastosPorPostura then ToInt else ToDouble
  }

  /** Each macro reads the pair of parameter CONk at offset 2(k - 1). */
  lemma ReadsItsParameter(m: Macro)
    requires InDomain(m)
    ensures ReadsParameter(ReadOf(m), ConH2, Number(m))
    ensures ReadOf(m) == Pair(MinSlot(ConH2, Number(m)))
  {
  }

  /** The susceptible rates read 418..429 and the recovered rates 430..441. */
  lemma AgeGroupBlocks(fe: nat, fe': nat)
    requires fe < General.N_IDADES && fe' < General.N_IDADES
    ensures forall s :: s in Slots(ReadOf(TaxaInfeccaoHumanoSuscetivel(fe))) ==> 418 <= s <= 429
    ensures forall s :: s in Slots(ReadOf(TaxaInfeccaoHumanoRecuperado(fe))) ==> 430 <= s <= 441
    ensures Slots(ReadOf(TaxaInfeccaoHumanoSuscetivel(fe))) !! Slots(ReadOf(TaxaInfeccaoHumanoRecuperado(fe')))
  {
    ReadsDisjoint(TaxaInfeccaoHumanoSuscetivel(fe), TaxaInfeccaoHumanoRecuperado(fe'));
  }

  /** Every slot read lies in [414, 454). */
  lemma ReadsInsideSlice(m: Macro)
    requires InDomain(m)
    ensures forall s :: s in Slots(ReadOf(m)) ==> InSlice(s, ConH2) && 414 <= s < 454
  {
    ReadsItsParameter(m);
    ParameterInSlice(ReadOf(m), ConH2, Number(m));
  }

  /** Only a macro and its `_` form share a parameter. */
  lemma NumberInjective(m: Macro, m': Macro)
    requires InDomain(m) && InDomain(m')
    requires Number(m) == Number(m')
    ensures Owner(m) == Owner(m')
  {
  }

  /** Macros of different parameters read disjoint slots. */
  lemma ReadsDisjoint(m: Macro, m': Macro)
    requires InDomain(m) && InDomain(m')
    requires Owner(m) != Owner(m')
    ensures Slots(ReadOf(m)) !! Slots(ReadOf(m'))
  {
    ReadsItsParameter(m);
    ReadsItsParameter(m');
    if Number(m) == Number(m') {
      NumberInjective(m, m');
    }
    DistinctParametersDisjoint(ReadOf(m), ReadOf(m'), ConH2, Number(m), Number(m'));
  }

  /** The `_` forms read what their plain forms read and convert it alike. */
  lemma VariantsAgree(m: Macro)
    ensures ReadOf(Owner(m)) == ReadOf(m) && CastOf(Owner(m)) == CastOf(m)
    ensures Number(Owner(m)) == Number(m)
  {
  }

  /** The value a macro yields from the parameter vector p and the percentage per. */
  function Value(p: seq<real>, m: Macro, per: real): real
    requires |p| == N_PAR && InDomain(m)
  {
    ReadsItsParameter(m);
    ParameterWithinVector(ReadOf(m), ConH2, Number(m));
    Resolve(p, ReadOf(m), CastOf(m), per)
  }
}
