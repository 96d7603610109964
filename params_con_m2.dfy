/**
 * The access macros of the mosquito contact input file (2-CON.csv): the
 * mating betas, the K1 and K2 constants, the female fecundity and the
 * contact reduction, twelve interpolated doubles.
 */
module ParamsConM2 {
  import opened Parameters

  datatype Macro =
    | Betass22 | Betass23 | Betaii22 | Betaii23
    | Betais22 | Betais23 | Betasi22 | Betasi23
    | K1 | K2 | TaxaFecundidadeFemea | ReducaoContatoM

  /** The parameter number CONk the header comment assigns. */
  function Number(m: Macro): nat {
    match m
    case Betass22 => 1
    case Betass23 => 2
    case Betaii22 => 3
    case Betaii23 => 4
    case Betais22 => 5
    case Betais23 => 6
    case Betasi22 => 7
    case Betasi23 => 8
    case K1 => 9
    case K2 => 10
    case TaxaFecundidadeFemea => 11
    case ReducaoContatoM => 12
  }

  /** The slots each macro's index expression reads, as written. */
  function ReadOf(m: Macro): Read {
    match m
    case Betass22 => Pair(DESL_2_CON_M + 0)
    case Betass23 => Pair(DESL_2_CON_M + 2)
    case Betaii22 => Pair(DESL_2_CON_M + 4)
    case Betaii23 => Pair(DESL_2_CON_M + 6)
    case Betais22 => Pair(DESL_2_CON_M + 8)
    case Betais23 => Pair(DESL_2_CON_M + 10)
    case Betasi22 => Pair(DESL_2_CON_M + 12)
    case Betasi23 => Pair(DESL_2_CON_M + 14)
    case K1 => Pair(DESL_2_CON_M + 16)
    case K2 => Pair(DESL_2_CON_M + 18)
    case TaxaFecundidadeFemea => Pair(DESL_2_CON_M + 20)
    case ReducaoContatoM => Pair(DESL_2_CON_M + 22)
  }

  /** Parameter CONk is read as the pair 596 + 2(k - 1), 597 + 2(k - 1). */
  lemma ReadsItsParameter(m: Macro)
    ensures ReadsParameter(ReadOf(m), ConM2, Number(m))
    ensures Slots(ReadOf(m)) == {596 + 2 * (Number(m) - 1), 597 + 2 * (Number(m) - 1)}
  {
  }

  /** Every slot lies in [596, 620); REDUCAO_CONTATO_M ends at DESL_3_TRA_M - 1. */
  lemma ReadsInsideSlice(m: Macro)
    ensures forall s :: s in Slots(ReadOf(m)) ==> InSlice(s, ConM2) && DESL_2_CON_M <= s < DESL_3_TRA_M
    ensures ReadOf(ReducaoContatoM).lo + 1 == DESL_3_TRA_M - 1
  {
    ReadsItsParameter(m);
    ParameterInSlice(ReadOf(m), ConM2, Number(m));
  }

  /** The twelve pairs are distinct. */
  lemma ReadsDisjoint(m: Macro, m': Macro)
    requires m != m'
    ensures Slots(ReadOf(m)) !! Slots(ReadOf(m'))
  {
    ReadsItsParameter(m);
    ReadsItsParameter(m');
    DistinctParametersDisjoint(ReadOf(m), ReadOf(m'), ConM2, Number(m), Number(m'));
  }

  /** The value a macro yields from the parameter vector p and the percentage per. */
  function Value(p: seq<real>, m: Macro, per: real): real
    requires |p| == N_PAR
  {
    ReadsItsParameter(m);
    ParameterWithinVector(ReadOf(m), ConM2, Number(m));
    Resolve(p, ReadOf(m), ToDouble, per)
  }
}
