/**
 * The access macros of the mosquito generation input file (5-GER.csv): the
 * interval between layings, the gestation cycles, the egg-laying constants
 * and the breeding-site limit; the last slice of the parameter vector.
 */
module ParamsGerM5 {
  import opened Parameters

  datatype Macro =
    | IntervaloEntrePosturasFemea
    | IntervaloEntrePosturasFemeaPer   // the `_ (per)` form
    | CiclosGestacao
    | CiclosGestacaoPer                // the `_ (per)` form
    | As21
    | As21Per                          // the `_ (per)` form
    | As21Max
    | Ps21
    | Ps21Per                          // the `_ (per)` form
    | H1
    | Ps31
    | Ai21
    | Ai21Max
    | Pi21
    | H2
    | Pi31
    | LimiteFocos

  /** The parameter number GERk the header comment assigns. */
  function Number(m: Macro): nat {
    match m
    case IntervaloEntrePosturasFemea => 1
    case IntervaloEntrePosturasFemeaPer => 1
    case CiclosGestacao => 2
    case CiclosGestacaoPer => 2
    case As21 => 3
    case As21Per => 3
    case As21Max => 3
    case Ps21 => 4
    case Ps21Per => 4
    case H1 => 5
    case Ps31 => 6
    case Ai21 => 7
    case Ai21Max => 7
    case Pi21 => 8
    case H2 => 9
    case Pi31 => 10
    case LimiteFocos => 11
  }

  /** The plain macro reading the whole pair of m's parameter. */
  function Owner(m: Macro): Macro {
    match m
    case IntervaloEntrePosturasFemeaPer => IntervaloEntrePosturasFemea
    case CiclosGestacaoPer => CiclosGestacao
    case As21Per => As21
    case As21Max => As21
    case Ps21Per => Ps21
    case Ai21Max => Ai21
    case _ => m
  }

  /** The slots each macro's index expression reads, as written. */
  function ReadOf(m: Macro): Read {
    match m
    case IntervaloEntrePosturasFemea => Pair(DESL_5_GER_M + 0)
    case IntervaloEntrePosturasFemeaPer => Pair(DESL_5_GER_M + 0)
    case CiclosGestacao => Pair(DESL_5_GER_M + 2)
    case CiclosGestacaoPer => Pair(DESL_5_GER_M + 2)
    case As21 => Pair(DESL_5_GER_M + 4)
    case As21Per => Pair(DESL_5_GER_M + 4)
    case As21Max => Single(DESL_5_GER_M + 5)
    case Ps21 => Pair(DESL_5_GER_M + 6)
    case Ps21Per => Pair(DESL_5_GER_M + 6)
    case H1 => Pair(DESL_5_GER_M + 8)
    case Ps31 => Pair(DESL_5_GER_M + 10)
    case Ai21 => Pair(DESL_5_GER_M + 12)
    case Ai21Max => Single(DESL_5_GER_M + 13)
    case Pi21 => Pair(DESL_5_GER_M + 14)
    case H2 => Pair(DESL_5_GER_M + 16)
    case Pi31 => Pair(DESL_5_GER_M + 18)
    case LimiteFocos => Pair(DESL_5_GER_M + 20)
  }

  /** Intervals, cycles, counts and the limit are converted to int; the others kept as doubles. */
  function CastOf(m: Macro): Cast {
    match m
    case Ps21 => ToDouble
    case Ps21Per => ToDouble
    case H1 => ToDouble
    case Ps31 => ToDouble
    case Pi21 => ToDouble
    case H2 => ToDouble
    case Pi31 => ToDouble
    case _ => ToInt
  }

  /** Parameter GERk is read as the pair 736 + 2(k - 1), 737 + 2(k - 1), or its max alone. */
  lemma ReadsItsParameter(m: Macro)
    ensures ReadsParameter(ReadOf(m), GerM5, Number(m))
    ensures ReadOf(m).Pair? ==> ReadOf(m).lo == 736 + 2 * (Number(m) - 1)
    ensures ReadOf(m).Single? ==> ReadOf(m).at == 737 + 2 * (Number(m) - 1)
  {
  }

  /** AS21_MAX and AI21_MAX read the max slots of AS21 (741) and AI21 (749). */
  lemma MaximaReadRangeMax()
    ensures ReadOf(As21Max) == Single(ReadOf(As21).lo + 1) && ReadOf(As21Max).at == 741
    ensures ReadOf(Ai21Max) == Single(ReadOf(Ai21).lo + 1) && ReadOf(Ai21Max).at == 749
  {
  }

  /** Every slot lies in [DESL_5_GER_M, N_PAR), and LIMITE_FOCOS ends at N_PAR - 1. */
  lemma ReadsInsideSlice(m: Macro)
    ensures forall s :: s in Slots(ReadOf(m)) ==> InSlice(s, GerM5) && DESL_5_GER_M <= s < N_PAR
    ensures ReadOf(LimiteFocos).lo + 1 == N_PAR - 1
  {
    ReadsItsParameter(m);
    ParameterInSlice(ReadOf(m), GerM5, Number(m));
  }

  /** Macros share a parameter only with the plain macro that owns its pair. */
  lemma NumberInjective(m: Macro, m': Macro)
    requires Number(m) == Number(m')
    ensures Owner(m) == Owner(m')
  {
  }

  /** Macros of different parameters read disjoint slots. */
  lemma ReadsDisjoint(m: Macro, m': Macro)
    requires Owner(m) != Owner(m')
    ensures Slots(ReadOf(m)) !! Slots(ReadOf(m'))
  {
    ReadsItsParameter(m);
    ReadsItsParameter(m');
    if Number(m) == Number(m') {
      NumberInjective(m, m');
    }
    DistinctParametersDisjoint(ReadOf(m), ReadOf(m'), GerM5, Number(m), Number(m'));
  }

  /** The `_` forms read what their plain forms read and convert it alike. */
  lemma VariantsAgree()
    ensures ReadOf(IntervaloEntrePosturasFemeaPer) == ReadOf(IntervaloEntrePosturasFemea)
    ensures ReadOf(CiclosGestacaoPer) == ReadOf(CiclosGestacao)
    ensures ReadOf(As21Per) == ReadOf(As21) && ReadOf(Ps21Per) == ReadOf(Ps21)
    ensures CastOf(IntervaloEntrePosturasFemeaPer) == CastOf(IntervaloEntrePosturasFemea)
    ensures CastOf(CiclosGestacaoPer) == CastOf(CiclosGestacao)
    ensures CastOf(As21Per) == CastOf(As21) && CastOf(Ps21Per) == CastOf(Ps21)
  {
  }

  /** The value a macro yields from the parameter vector p and the percentage per. */
  function Value(p: seq<real>, m: Macro, per: real): real
    requires |p| == N_PAR
  {
    ReadsItsParameter(m);
    ParameterWithinVector(ReadOf(m), GerM5, Number(m));
    Resolve(p, ReadOf(m), CastOf(m), per)
  }
}
