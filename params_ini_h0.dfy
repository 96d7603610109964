/**
 * The access macros of the human initialisation input file (0-INI.csv).
 * Only its last four parameters, INI193 to INI196, have macros.
 */
module ParamsIniH0 {
  import opened Parameters

  datatype Macro =
    | ProbabilidadeDistribuicaoHumanos
    | ProbabilidadeHumanoAssintomatico
    | ProbabilidadeHumanoAssintomaticoPer   // the `_ (per)` form
    | SorotipoPredominante
    | ProbabilidadeSorotipoPredominante

  /** N_PAR_0_INI_H: the slots the file's macros cover. */
  const N_PAR_0_INI_H: nat := 8

  /** The parameter number INIk the header comment assigns. */
  function Number(m: Macro): nat {
    match m
    case ProbabilidadeDistribuicaoHumanos => 193
    case ProbabilidadeHumanoAssintomatico => 194
    case ProbabilidadeHumanoAssintomaticoPer => 194
    case SorotipoPredominante => 195
    case ProbabilidadeSorotipoPredominante => 196
  }

  /** The plain macro reading the whole pair of m's parameter. */
  function Owner(m: Macro): Macro {
    if m == ProbabilidadeHumanoAssintomaticoPer then ProbabilidadeHumanoAssintomatico else m
  }

  /** The slots each macro's index expression reads, as written. */
  function ReadOf(m: Macro): Read {
    match m
    case ProbabilidadeDistribuicaoHumanos => Pair(DESL_0_INI_H + 384)
    case ProbabilidadeHumanoAssintomatico => Pair(DESL_0_INI_H + 386)
    case ProbabilidadeHumanoAssintomaticoPer => Pair(DESL_0_INI_H + 386)
    case SorotipoPredominante => Single(DESL_0_INI_H + 388)
    case ProbabilidadeSorotipoPredominante => Pair(DESL_0_INI_H + 390)
  }

  /** The conversion each macro applies. */
  function CastOf(m: Macro): Cast {
    if m == SorotipoPredominante then ToInt else ToDouble
  }

  /** Each macro reads parameter INIk at offset 2(k - 1): the pair, or the min alone. */
  lemma ReadsItsParameter(m: Macro)
    ensures ReadsParameter(ReadOf(m), IniH0, Number(m))
    ensures ReadOf(m) == if m == SorotipoPredominante then Single(MinSlot(IniH0, Number(m)))
                         else Pair(MinSlot(IniH0, Number(m)))
  {
  }

  /** The concrete slots: 392-393, 394-395, 396 and 398-399, the last being DESL_1_MOV_H - 1. */
  lemma ConcreteSlots()
    ensures Slots(ReadOf(ProbabilidadeDistribuicaoHumanos)) == {392, 393}
    ensures Slots(ReadOf(ProbabilidadeHumanoAssintomatico)) == {394, 395}
    ensures Slots(ReadOf(ProbabilidadeHumanoAssintomaticoPer)) == {394, 395}
    ensures Slots(ReadOf(SorotipoPredominante)) == {396}
    ensures Slots(ReadOf(ProbabilidadeSorotipoPredominante)) == {398, DESL_1_MOV_H - 1}
  {
  }

  /** Every slot read lies in the file's slice. */
  lemma ReadsInsideSlice(m: Macro)
    ensures forall s :: s in Slots(ReadOf(m)) ==> InSlice(s, IniH0)
  {
    ReadsItsParameter(m);
    ParameterInSlice(ReadOf(m), IniH0, Number(m));
  }

  /** Only a macro and its `_` form share a parameter. */
  lemma NumberInjective(m: Macro, m': Macro)
    requires Number(m) == Number(m')
    ensures Owner(m) == Owner(m')
  {
  }

  /** Macros of different parameters read disjoint slots. */
  lemma ReadsDisjoint(m: Macro, m': Macro)
    requires Owner(m) != Owner(m')
    ensures Slots(ReadOf(m)) !! Slots(ReadOf(m'))
  {
    ReadsItsParameter(m);
    ReadsItsParameter(m');
    if Number(m) == Number(m') {
      NumberInjective(m, m');
    }
    DistinctParametersDisjoint(ReadOf(m), ReadOf(m'), IniH0, Number(m), Number(m'));
  }

  /** The `_` form reads what the plain form reads and converts it alike. */
  lemma VariantAgrees()
    ensures ReadOf(ProbabilidadeHumanoAssintomaticoPer) == ReadOf(ProbabilidadeHumanoAssintomatico)
    ensures CastOf(ProbabilidadeHumanoAssintomaticoPer) == CastOf(ProbabilidadeHumanoAssintomatico)
  {
  }

  /** N_PAR_0_INI_H is twice the number of parameters the macros expose. */
  lemma CoveredSlots()
    ensures N_PAR_0_INI_H == 2 * |set m: Macro | true :: Number(m)|
  {
    var numbers := set m: Macro | true :: Number(m);
    assert numbers == {193, 194, 195, 196} by {
      assert Number(ProbabilidadeDistribuicaoHumanos) == 193;
      assert Number(ProbabilidadeHumanoAssintomatico) == 194;
      assert Number(SorotipoPredominante) == 195;
      assert Number(ProbabilidadeSorotipoPredominante) == 196;
    }
  }

  /** The value a macro yields from the parameter vector p and the percentage per. */
  function Value(p: seq<real>, m: Macro, per: real): real
    requires |p| == N_PAR
  {
    ReadsItsParameter(m);
    ParameterWithinVector(ReadOf(m), IniH0, Number(m));
    Resolve(p, ReadOf(m), CastOf(m), per)
  }
}
