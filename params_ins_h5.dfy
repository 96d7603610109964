/**
 * The access macros of the human insertion input file (5-INS.csv): for the
 * susceptible group and the four infected-by-serotype groups, the cycle at
 * which humans enter and how many enter, each read from a min slot.
 */
module ParamsInsH5 {
  import opened Parameters

  /** The groups of inserted humans: susceptible, or infected by serotype 1..4. */
  datatype Group = S | I1 | I2 | I3 | I4

  datatype Macro =
    | CicloEntradaHumanos(g: Group)
    | QuantidadeHumanos(g: Group)

  function GroupIndex(g: Group): nat {
    match g
    case S => 0
    case I1 => 1
    case I2 => 2
    case I3 => 3
    case I4 => 4
  }

  /** The parameter number INSk the header comment assigns. */
  function Number(m: Macro): nat {
    match m
    case CicloEntradaHumanos(g) => 1 + 2 * GroupIndex(g)
    case QuantidadeHumanos(g) => 2 + 2 * GroupIndex(g)
  }

  /** The slot each macro's index expression reads, as written. */
  function ReadOf(m: Macro): Read {
    match m
    case CicloEntradaHumanos(S) => Single(DESL_5_INS_H + 0)
    case QuantidadeHumanos(S) => Single(DESL_5_INS_H + 2)
    case CicloEntradaHumanos(I1) => Single(DESL_5_INS_H + 4)
    case QuantidadeHumanos(I1) => Single(DESL_5_INS_H + 6)
    case CicloEntradaHumanos(I2) => Single(DESL_5_INS_H + 8)
    case QuantidadeHumanos(I2) => Single(DESL_5_INS_H + 10)
    case CicloEntradaHumanos(I3) => Single(DESL_5_INS_H + 12)
    case QuantidadeHumanos(I3) => Single(DESL_5_INS_H + 14)
    case CicloEntradaHumanos(I4) => Single(DESL_5_INS_H + 16)
    case QuantidadeHumanos(I4) => Single(DESL_5_INS_H + 18)
  }

  /** Parameter INSk is read at its min slot, DESL_5_INS_H + 2(k - 1). */
  lemma ReadsItsParameter(m: Macro)
    ensures ReadsParameter(ReadOf(m), InsH5, Number(m))
    ensures ReadOf(m) == Single(MinSlot(InsH5, Number(m)))
  {
  }

  /** The entry cycles are read at 516, 520, ..., 532 and the quantities at 518, 522, ..., 534. */
  lemma ConcreteSlots(g: Group)
    ensures ReadOf(CicloEntradaHumanos(g)).at == 516 + 4 * GroupIndex(g)
    ensures ReadOf(QuantidadeHumanos(g)).at == 518 + 4 * GroupIndex(g)
  {
  }

  /** Every slot is even and lies in [516, 536). */
  lemma ReadsInsideSlice(m: Macro)
    ensures ReadOf(m).Single? && ReadOf(m).at % 2 == 0
    ensures forall s :: s in Slots(ReadOf(m)) ==> InSlice(s, InsH5) && 516 <= s < 536
  {
    ReadsItsParameter(m);
    ParameterInSlice(ReadOf(m), InsH5, Number(m));
  }

  /** The ten macros read ten distinct slots. */
  lemma ReadsDisjoint(m: Macro, m': Macro)
    requires m != m'
    ensures Slots(ReadOf(m)) !! Slots(ReadOf(m'))
  {
    ReadsItsParameter(m);
    ReadsItsParameter(m');
    DistinctParametersDisjoint(ReadOf(m), ReadOf(m'), InsH5, Number(m), Number(m'));
  }

  /** The value a macro yields from the parameter vector p. */
  function Value(p: seq<real>, m: Macro): real
    requires |p| == N_PAR
  {
    ReadsItsParameter(m);
    ParameterWithinVector(ReadOf(m), InsH5, Number(m));
    Resolve(p, ReadOf(m), ToInt, 0.0)
  }
}
