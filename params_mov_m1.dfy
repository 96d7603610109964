/**
 * The access macros of the mosquito mobility input file (1-MOV.csv): the
 * day and night mobility rates by sex, the search radii, intervals and
 * attempts, the Levy flight radii and the mobility of a stopped mosquito.
 */
module ParamsMovM1 {
  import opened Parameters
  import General

  datatype Macro =
    | TaxaMobilidadeDiurnaMosquitos(s: nat)
    | TaxaMobilidadeNoturnaMosquitos(s: nat)
    | RaioBuscaMacho
    | RaioBuscaPe
    | IntervaloBuscaHumano
    | RaioBuscaHumano
    | RaioVooLevyCurto
    | RaioVooLevyLongo
    | TentativasBuscaMacho
    | TentativasBuscaPe
    | TaxaMobilidadeMosquitoParado

  /** The arguments the header comment's numbering covers: a sex. */
  predicate InDomain(m: Macro) {
    match m
    case TaxaMobilidadeDiurnaMosquitos(s) => s < General.N_SEXOS
    case TaxaMobilidadeNoturnaMosquitos(s) => s < General.N_SEXOS
    case _ => true
  }

  /** The parameter number MOVk the header comment assigns. */
  function Number(m: Macro): nat {
    match m
    case TaxaMobilidadeDiurnaMosquitos(s) => 1 + s
    case TaxaMobilidadeNoturnaMosquitos(s) => 3 + s
    case RaioBuscaMacho => 5
    case RaioBuscaPe => 6
    case IntervaloBuscaHumano => 7
    case RaioBuscaHumano => 8
    case RaioVooLevyCurto => 9
    case RaioVooLevyLongo => 10
    case TentativasBuscaMacho => 11
    case TentativasBuscaPe => 12
    case TaxaMobilidadeMosquitoParado => 13
  }

  /** The slots each macro's index expression reads, as written. */
  function ReadOf(m: Macro): Read {
    match m
    case TaxaMobilidadeDiurnaMosquitos(s) => Pair(DESL_1_MOV_M + 0 + s * 2)
    case TaxaMobilidadeNoturnaMosquitos(s) => Pair(DESL_1_MOV_M + 4 + s * 2)
    case RaioBuscaMacho => Pair(DESL_1_MOV_M + 8)
    case RaioBuscaPe => Pair(DESL_1_MOV_M + 10)
    case IntervaloBuscaHumano => Pair(DESL_1_MOV_M + 12)
    case RaioBuscaHumano => Pair(DESL_1_MOV_M + 14)
    case RaioVooLevyCurto => Pair(DESL_1_MOV_M + 16)
    case RaioVooLevyLongo => Pair(DESL_1_MOV_M + 18)
    case TentativasBuscaMacho => Pair(DESL_1_MOV_M + 20)
    case TentativasBuscaPe => Pair(DESL_1_MOV_M + 22)
    case TaxaMobilidadeMosquitoParado => Pair(DESL_1_MOV_M + 24)
  }

  /** The rates are kept as doubles; radii, intervals and attempts are converted to int. */
  function CastOf(m: Macro): Cast {
    match m
    case TaxaMobilidadeDiurnaMosquitos(_) => ToDouble
    case TaxaMobilidadeNoturnaMosquitos(_) => ToDouble
    case TaxaMobilidadeMosquitoParado => ToDouble
    case _ => ToInt
  }

  /** Each macro reads the pair of parameter MOVk at offset 2(k - 1). */
  lemma ReadsItsParameter(m: Macro)
    requires InDomain(m)
    ensures ReadsParameter(ReadOf(m), MovM1, Number(m))
    ensures ReadOf(m) == Pair(MinSlot(MovM1, Number(m)))
  {
  }

  /** Day rates read 570 + 2s and 571 + 2s, night rates 574 + 2s and 575 + 2s. */
  lemma MobilitySlots(s: nat, s': nat)
    requires s < General.N_SEXOS && s' < General.N_SEXOS
    ensures Slots(ReadOf(TaxaMobilidadeDiurnaMosquitos(s))) == {570 + 2 * s, 571 + 2 * s}
    ensures Slots(ReadOf(TaxaMobilidadeNoturnaMosquitos(s))) == {574 + 2 * s, 575 + 2 * s}
    ensures Slots(ReadOf(TaxaMobilidadeDiurnaMosquitos(s))) !! Slots(ReadOf(TaxaMobilidadeNoturnaMosquitos(s')))
  {
    ReadsDisjoint(TaxaMobilidadeDiurnaMosquitos(s), TaxaMobilidadeNoturnaMosquitos(s'));
  }

  /** Every slot read lies in [570, 596). */
  lemma ReadsInsideSlice(m: Macro)
    requires InDomain(m)
    ensures forall s :: s in Slots(ReadOf(m)) ==> InSlice(s, MovM1) && 570 <= s < 596
  {
    ReadsItsParameter(m);
    ParameterInSlice(ReadOf(m), MovM1, Number(m));
  }

  /** Distinct macros (or arguments) read distinct parameters. */
  lemma NumberInjective(m: Macro, m': Macro)
    requires InDomain(m) && InDomain(m')
    requires Number(m) == Number(m')
    ensures m == m'
  {
  }

  /** Distinct macros read disjoint pairs. */
  lemma ReadsDisjoint(m: Macro, m': Macro)
    requires InDomain(m) && InDomain(m')
    requires m != m'
    ensures Slots(ReadOf(m)) !! Slots(ReadOf(m'))
  {
    ReadsItsParameter(m);
    ReadsItsParameter(m');
    if Number(m) == Number(m') {
      NumberInjective(m, m');
    }
    DistinctParametersDisjoint(ReadOf(m), ReadOf(m'), MovM1, Number(m), Number(m'));
  }

  /** The value a macro yields from the parameter vector p and the percentage per. */
  function Value(p: seq<real>, m: Macro, per: real): real
    requires |p| == N_PAR && InDomain(m)
  {
    ReadsItsParameter(m);
    ParameterWithinVector(ReadOf(m), MovM1, Number(m));
    Resolve(p, ReadOf(m), CastOf(m), per)
  }
}
