/**
 * The access macros of the mosquito control input file (4-CON.csv): natural
 * selection, biological control, environmental treatment, chemical decay and
 * the control of eggs in breeding sites.
 */
module ParamsConM4 {
  import opened Parameters
  import ParamsGerM5

  datatype Macro =
    | FreqControleNaturalSelecao
    | TaxaElimControleNaturalSelecao(fs: nat, s: nat, sw: nat)
    | TaxaElimControleNaturalSelecaoPer(fs: nat, s: nat, sw: nat)   // the `_ (…, per)` form
    | FreqControleBiologico
    | QuantMachosAtivosControleBiologico
    | QuantFemeasAtivasControleBiologico
    | FreqTratamentoAmbiental
    | FracaoTratamentoAmbiental
    | TaxaTipoInfluenciaTratamentoAmbiental
    | DecaimentoControlesQuimicos
    | TaxaControleOvosEmFocos(nivel: nat)

  /** The arguments the header comment numbers: four phases, two sexes, two Wolbachia flags, five levels. */
  predicate InDomain(m: Macro) {
    match m
    case TaxaElimControleNaturalSelecao(fs, s, sw) => fs < 4 && s < 2 && sw < 2
    case TaxaElimControleNaturalSelecaoPer(fs, s, sw) => fs < 4 && s < 2 && sw < 2
    case TaxaControleOvosEmFocos(nivel) => nivel < 5
    case _ => true
  }

  /** The parameter number CONk the header comment assigns. */
  function Number(m: Macro): nat {
    match m
    case FreqControleNaturalSelecao => 1
    case TaxaElimControleNaturalSelecao(fs, s, sw) => 2 + 4 * fs + 2 * s + sw
    case TaxaElimControleNaturalSelecaoPer(fs, s, sw) => 2 + 4 * fs + 2 * s + sw
    case FreqControleBiologico => 18
    case QuantMachosAtivosControleBiologico => 19
    case QuantFemeasAtivasControleBiologico => 20
    case FreqTratamentoAmbiental => 21
    case FracaoTratamentoAmbiental => 22
    case TaxaTipoInfluenciaTratamentoAmbiental => 23
    case DecaimentoControlesQuimicos => 24
    case TaxaControleOvosEmFocos(nivel) => 25 + nivel
  }

  /** The plain macro reading the whole pair of m's parameter. */
  function Owner(m: Macro): Macro {
    match m
    case TaxaElimControleNaturalSelecaoPer(fs, s, sw) => TaxaElimControleNaturalSelecao(fs, s, sw)
    case _ => m
  }

  /**
   * The index expressions exactly as the header writes them: the egg control
   * rate starts at DESL_4_CON_M + 52.
   */
  function ReadOfAsWritten(m: Macro): Read {
    match m
    case FreqControleNaturalSelecao => Single(DESL_4_CON_M + 0)
    case TaxaElimControleNaturalSelecao(fs, s, sw) => Pair(DESL_4_CON_M + 2 + fs * 4 * 2 + s * 2 * 2 + sw * 2)
    case TaxaElimControleNaturalSelecaoPer(fs, s, sw) => Pair(DESL_4_CON_M + 2 + fs * 4 * 2 + s * 2 * 2 + sw * 2)
    case FreqControleBiologico => Single(DESL_4_CON_M + 34)
    case QuantMachosAtivosControleBiologico => Single(DESL_4_CON_M + 36)
    case QuantFemeasAtivasControleBiologico => Single(DESL_4_CON_M + 38)
    case FreqTratamentoAmbiental => Single(DESL_4_CON_M + 40)
    case FracaoTratamentoAmbiental => Pair(DESL_4_CON_M + 42)
    case TaxaTipoInfluenciaTratamentoAmbiental => Pair(DESL_4_CON_M + 44)
    case DecaimentoControlesQuimicos => Pair(DESL_4_CON_M + 46)
    case TaxaControleOvosEmFocos(nivel) => Pair(DESL_4_CON_M + 52 + 2 * nivel)
  }

  /**
   * The corrected index expressions: levels 0..4 read CON025..CON029, whose
   * pairs start at DESL_4_CON_M + 48. Every other macro reads as written.
   */
  function ReadOf(m: Macro): Read {
    match m
    case TaxaControleOvosEmFocos(nivel) => Pair(DESL_4_CON_M + 48 + 2 * nivel)
    case _ => ReadOfAsWritten(m)
  }

  /** The frequencies and quantities are converted to int; the rates kept as doubles. */
  function CastOf(m: Macro): Cast {
    match m
    case FreqControleNaturalSelecao => ToInt
    case FreqControleBiologico => ToInt
    case QuantMachosAtivosControleBiologico => ToInt
    case QuantFemeasAtivasControleBiologico => ToInt
    case FreqTratamentoAmbiental => ToInt
    case _ => ToDouble
  }

  /** As written, every egg control level reads parameter CON(27 + nivel), two past its own. */
  lemma AsWrittenShiftsByTwo(nivel: nat)
    ensures ReadOfAsWritten(TaxaControleOvosEmFocos(nivel))
         == ReadOf(TaxaControleOvosEmFocos(nivel + 2))
    ensures nivel < 3 ==>
      ReadsParameter(ReadOfAsWritten(TaxaControleOvosEmFocos(nivel)), ConM4, 27 + nivel)
  {
  }

  /**
   * Level 3, as written, reads slots 736 and 737: they are not in this file's
   * slice but belong to the first generation parameter, the interval between
   * layings (GER001); level 4 reads the gestation cycles (GER002).
   */
  lemma AsWrittenReadsGenerationParameters()
    ensures ReadOfAsWritten(TaxaControleOvosEmFocos(3)) == Pair(DESL_5_GER_M)
    ensures !InSlice(DESL_5_GER_M, ConM4) && InSlice(DESL_5_GER_M, GerM5)
    ensures ReadOfAsWritten(TaxaControleOvosEmFocos(3))
         == ParamsGerM5.ReadOf(ParamsGerM5.IntervaloEntrePosturasFemea)
    ensures ReadOfAsWritten(TaxaControleOvosEmFocos(4))
         == ParamsGerM5.ReadOf(ParamsGerM5.CiclosGestacao)
    ensures !ReadsParameter(ReadOfAsWritten(TaxaControleOvosEmFocos(3)), ConM4, 28)
  {
  }

  /** As written, both slots of a level lie in this file's slice exactly when the level is at most 2. */
  lemma AsWrittenInsideSliceIff(nivel: nat)
    requires nivel < 5
    ensures (forall s :: s in Slots(ReadOfAsWritten(TaxaControleOvosEmFocos(nivel))) ==> InSlice(s, ConM4))
        <==> nivel <= 2
  {
    var r := ReadOfAsWritten(TaxaControleOvosEmFocos(nivel));
    assert r.lo in Slots(r);
  }

  /** Level 2, as written, reads the same slots as the corrected level 4 (CON029). */
  lemma AsWrittenOverlapsLevelFour()
    ensures Slots(ReadOfAsWritten(TaxaControleOvosEmFocos(2)))
         == Slots(ReadOf(TaxaControleOvosEmFocos(4)))
  {
  }

  /** Corrected: parameter CONk is read as the pair 678 + 2(k - 1), 679 + 2(k - 1), or its min alone. */
  lemma ReadsItsParameter(m: Macro)
    requires InDomain(m)
    ensures ReadsParameter(ReadOf(m), ConM4, Number(m))
    ensures ReadOf(m).Pair? ==> ReadOf(m).lo == 678 + 2 * (Number(m) - 1)
    ensures ReadOf(m).Single? ==> ReadOf(m).at == 678 + 2 * (Number(m) - 1)
  {
  }

  /** The decay of chemical controls reads CON024, the parameter the comment calls the larvicide efficacy. */
  lemma DecayReadsParameter24()
    ensures ReadOf(DecaimentoControlesQuimicos) == Pair(MinSlot(ConM4, 24))
  {
  }

  /** Corrected: every slot lies in [DESL_4_CON_M, DESL_5_GER_M); the last level ends the slice. */
  lemma ReadsInsideSlice(m: Macro)
    requires InDomain(m)
    ensures forall s :: s in Slots(ReadOf(m)) ==> InSlice(s, ConM4) && DESL_4_CON_M <= s < DESL_5_GER_M
    ensures ReadOf(TaxaControleOvosEmFocos(4)).lo + 1 == DESL_5_GER_M - 1
  {
    ReadsItsParameter(m);
    ParameterInSlice(ReadOf(m), ConM4, Number(m));
  }

  /** The sixteen elimination rates read sixteen distinct pairs covering 680..711. */
  lemma EliminationSlots(fs: nat, s: nat, sw: nat, fs': nat, s': nat, sw': nat)
    requires fs < 4 && s < 2 && sw < 2 && fs' < 4 && s' < 2 && sw' < 2
    ensures 680 <= ReadOf(TaxaElimControleNaturalSelecao(fs, s, sw)).lo <= 710
    ensures ReadOf(TaxaElimControleNaturalSelecao(fs, s, sw))
         == ReadOf(TaxaElimControleNaturalSelecao(fs', s', sw'))
        ==> fs == fs' && s == s' && sw == sw'
  {
  }

  /** Every slot of 680..711 is read by the elimination rate of one (fs, s, sw). */
  lemma EliminationCovers(slot: nat)
    requires 680 <= slot < 712
    ensures var k := slot - 680;
      slot in Slots(ReadOf(TaxaElimControleNaturalSelecao(k / 8, k % 8 / 4, k % 4 / 2)))
  {
  }

  /** Corrected: macros share a parameter only with the plain macro that owns its pair. */
  lemma NumberInjective(m: Macro, m': Macro)
    requires InDomain(m) && InDomain(m')
    requires Number(m) == Number(m')
    ensures Owner(m) == Owner(m')
  {
  }

  /** Corrected: macros of different parameters read disjoint slots. */
  lemma ReadsDisjoint(m: Macro, m': Macro)
    requires InDomain(m) && InDomain(m')
    requires Owner(m) != Owner(m')
    ensures Slots(ReadOf(m)) !! Slots(ReadOf(m'))
  {
    ReadsItsParameter(m);
    ReadsItsParameter(m');
    if Number(m) == Number(m') {
      NumberInjective(m, m');
    }
    DistinctParametersDisjoint(ReadOf(m), ReadOf(m'), ConM4, Number(m), Number(m'));
  }

  /** The `_` form reads what its plain form reads and converts it alike. */
  lemma VariantAgrees(fs: nat, s: nat, sw: nat)
    ensures ReadOf(TaxaElimControleNaturalSelecaoPer(fs, s, sw)) == ReadOf(TaxaElimControleNaturalSelecao(fs, s, sw))
    ensures CastOf(TaxaElimControleNaturalSelecaoPer(fs, s, sw)) == CastOf(TaxaElimControleNaturalSelecao(fs, s, sw))
  {
  }

  /** The value a macro yields (corrected indices) from the parameter vector p and the percentage per. */
  function Value(p: seq<real>, m: Macro, per: real): real
    requires |p| == N_PAR && InDomain(m)
  {
    ReadsItsParameter(m);
    ParameterWithinVector(ReadOf(m), ConM4, Number(m));
    Resolve(p, ReadOf(m), CastOf(m), per)
  }
}
