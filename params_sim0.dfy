/**
 * The access macros of the simulation input file (0-SIM.csv): four
 * constants, each read directly from the min slot of its pair.
 */
module ParamsSim0 {
  import opened Parameters

  datatype Macro =
    | QuantidadeSimulacoes
    | QuantidadeCiclos
    | QuantidadeSubciclos
    | ProporcaoMaximoMosquitos

  /** The parameter number SIMk the header comment assigns. */
  function Number(m: Macro): nat {
    match m
    case QuantidadeSimulacoes => 1
    case QuantidadeCiclos => 2
    case QuantidadeSubciclos => 3
    case ProporcaoMaximoMosquitos => 4
  }

  /** The slot each macro's index expression reads, as written. */
  function ReadOf(m: Macro): Read {
    match m
    case QuantidadeSimulacoes => Single(DESL_0_SIM + 0)
    case QuantidadeCiclos => Single(DESL_0_SIM + 2)
    case QuantidadeSubciclos => Single(DESL_0_SIM + 4)
    case ProporcaoMaximoMosquitos => Single(DESL_0_SIM + 6)
  }

  /** The conversion each macro applies. */
  function CastOf(m: Macro): Cast {
    if m == ProporcaoMaximoMosquitos then ToDouble else ToInt
  }

  /** Each macro reads the min of parameter SIMk, at offset 2(k - 1). */
  lemma ReadsItsParameter(m: Macro)
    ensures ReadsParameter(ReadOf(m), Sim0, Number(m))
    ensures ReadOf(m) == Single(MinSlot(Sim0, Number(m)))
  {
  }

  /** The four macros read the slots 0, 2, 4 and 6, all below DESL_0_INI_H. */
  lemma ReadsInsideSlice(m: Macro)
    ensures ReadOf(m).Single? && ReadOf(m).at % 2 == 0
    ensures forall s :: s in Slots(ReadOf(m)) ==> InSlice(s, Sim0) && s < DESL_0_INI_H
  {
    ReadsItsParameter(m);
    ParameterInSlice(ReadOf(m), Sim0, Number(m));
  }

  /** Distinct macros read distinct slots. */
  lemma ReadsDisjoint(m: Macro, m': Macro)
    requires m != m'
    ensures Slots(ReadOf(m)) !! Slots(ReadOf(m'))
  {
    ReadsItsParameter(m);
    ReadsItsParameter(m');
    DistinctParametersDisjoint(ReadOf(m), ReadOf(m'), Sim0, Number(m), Number(m'));
  }

  /** The value a macro yields from the parameter vector p. */
  function Value(p: seq<real>, m: Macro): real
    requires |p| == N_PAR
  {
    ReadsItsParameter(m);
    ParameterWithinVector(ReadOf(m), Sim0, Number(m));
    Resolve(p, ReadOf(m), CastOf(m), 0.0)
  }
}
