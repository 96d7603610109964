/**
 * The access macros of the mosquito initialisation input file (0-INI.csv):
 * the initial quantities of healthy and Wolbachia mosquitos by sex and
 * non-winged phase, of dengue mosquitos by serotype, and the distribution
 * probability.
 */
module ParamsIniM0 {
  import opened Parameters
  import General

  datatype Macro =
    | QuantidadeMosquitosSaudaveis(s: nat, fs: nat)
    | QuantidadeMosquitosWolbachia(s: nat, fs: nat)
    | QuantidadeMosquitosDengue(st: nat)
    | ProbabilidadeDistribuicaoMosquitos
    | ProbabilidadeDistribuicaoMosquitosPer   // the `_ (per)` form

  /** The arguments the header comment's numbering covers: a sex, a non-winged phase, a serotype. */
  predicate InDomain(m: Macro) {
    match m
    case QuantidadeMosquitosSaudaveis(s, fs) => s < General.N_SEXOS && fs < General.ATIVA
    case QuantidadeMosquitosWolbachia(s, fs) => s < General.N_SEXOS && fs < General.ATIVA
    case QuantidadeMosquitosDengue(st) => General.SOROTIPO_1 <= st <= General.N_SOROTIPOS
    case _ => true
  }

  /** The parameter number INIk the header comment assigns. */
  function Number(m: Macro): nat {
    match m
    case QuantidadeMosquitosSaudaveis(s, fs) => 1 + 3 * s + fs
    case QuantidadeMosquitosWolbachia(s, fs) => 7 + 3 * s + fs
    case QuantidadeMosquitosDengue(st) => 12 + st
    case ProbabilidadeDistribuicaoMosquitos => 17
    case ProbabilidadeDistribuicaoMosquitosPer => 17
  }

  /** The plain macro reading the whole pair of m's parameter. */
  function Owner(m: Macro): Macro {
    if m == ProbabilidadeDistribuicaoMosquitosPer then ProbabilidadeDistribuicaoMosquitos else m
  }

  /** The slots each macro's index expression reads, as written. */
  function ReadOf(m: Macro): Read
    requires InDomain(m)
  {
    match m
    case QuantidadeMosquitosSaudaveis(s, fs) => Single(DESL_0_INI_M + 0 + s * 3 * 2 + fs * 2)
    case QuantidadeMosquitosWolbachia(s, fs) => Single(DESL_0_INI_M + 12 + s * 3 * 2 + fs * 2)
    case QuantidadeMosquitosDengue(st) => Single(DESL_0_INI_M + 24 + (st - 1) * 2)
    case ProbabilidadeDistribuicaoMosquitos => Pair(DESL_0_INI_M + 32)
    case ProbabilidadeDistribuicaoMosquitosPer => Pair(DESL_0_INI_M + 32)
  }

  /** The quantities are converted to int, the probability kept as a double. */
  function CastOf(m: Macro): Cast {
    match m
    case ProbabilidadeDistribuicaoMosquitos => ToDouble
    case ProbabilidadeDistribuicaoMosquitosPer => ToDouble
    case _ => ToInt
  }

  /** Each macro reads parameter INIk at offset 2(k - 1): the quantities their min, the probability its pair. */
  lemma ReadsItsParameter(m: Macro)
    requires InDomain(m)
    ensures ReadsParameter(ReadOf(m), IniM0, Number(m))
    ensures CastOf(m) == ToInt ==> ReadOf(m) == Single(MinSlot(IniM0, Number(m)))
    ensures CastOf(m) == ToDouble ==> ReadOf(m) == Pair(MinSlot(IniM0, Number(m)))
  {
  }

  /** The concrete slots: 536 + 6s + 2fs, 548 + 6s + 2fs, 560 + 2(st - 1), and 568-569. */
  lemma ConcreteSlots(s: nat, fs: nat, st: nat)
    requires s < General.N_SEXOS && fs < General.ATIVA && 1 <= st <= General.N_SOROTIPOS
    ensures ReadOf(QuantidadeMosquitosSaudaveis(s, fs)) == Single(536 + 6 * s + 2 * fs)
    ensures ReadOf(QuantidadeMosquitosWolbachia(s, fs)) == Single(548 + 6 * s + 2 * fs)
    ensures ReadOf(QuantidadeMosquitosDengue(st)) == Single(560 + 2 * (st - 1))
    ensures Slots(ReadOf(ProbabilidadeDistribuicaoMosquitos)) == {568, 569}
  {
  }

  /** The healthy quantity slot determines sex and phase. */
  lemma HealthyInjective(s: nat, fs: nat, s': nat, fs': nat)
    requires s < General.N_SEXOS && fs < General.ATIVA && s' < General.N_SEXOS && fs' < General.ATIVA
    requires ReadOf(QuantidadeMosquitosSaudaveis(s, fs)) == ReadOf(QuantidadeMosquitosSaudaveis(s', fs'))
    ensures s == s' && fs == fs'
  {
  }

  /** Every slot read lies in [536, 570). */
  lemma ReadsInsideSlice(m: Macro)
    requires InDomain(m)
    ensures forall s :: s in Slots(ReadOf(m)) ==> InSlice(s, IniM0) && 536 <= s < 570
  {
    ReadsItsParameter(m);
    ParameterInSlice(ReadOf(m), IniM0, Number(m));
  }

  /** Only the probability and its `_` form share a parameter. */
  lemma NumberInjective(m: Macro, m': Macro)
    requires InDomain(m) && InDomain(m')
    requires Number(m) == Number(m')
    ensures Owner(m) == Owner(m')
  {
  }

  /** Macros of different parameters read disjoint slots: the three quantity groups do not overlap. */
  lemma ReadsDisjoint(m: Macro, m': Macro)
    requires InDomain(m) && InDomain(m')
    requires Owner(m) != Owner(m')
    ensures Slots(ReadOf(m)) !! Slots(ReadOf(m'))
  {
    ReadsItsParameter(m);
    ReadsItsParameter(m');
    if Number(m) == Number(m') {
      NumberInjective(m, m');
    }
    DistinctParametersDisjoint(ReadOf(m), ReadOf(m'), IniM0, Number(m), Number(m'));
  }

  /** The value a macro yields from the parameter vector p and the percentage per. */
  function Value(p: seq<real>, m: Macro, per: real): real
    requires |p| == N_PAR && InDomain(m)
  {
    ReadsItsParameter(m);
    ParameterWithinVector(ReadOf(m), IniM0, Number(m));
    Resolve(p, ReadOf(m), CastOf(m), per)
  }
}
