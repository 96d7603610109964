/**
 * The access macros of the mosquito transition input file (3-TRA.csv): the
 * age ranges of the non-winged phases and of active and decadent mosquitos
 * by sex and Wolbachia flag, the maxima of those ranges, the survival rates
 * of each phase, the latency cycles and the maximum age of a dengue
 * mosquito.
 */
module ParamsTraM3 {
  import opened Parameters
  import General

  datatype Macro =
    | IdadeMosquitosNaoAlados(fs: nat)
    | IdadeMosquitosNaoAladosPer(fs: nat)            // the `_ (fs, per)` form
    | IdadeMosquitosAtivos(s: nat, sw: nat)
    | IdadeMosquitosAtivosPer(s: nat, sw: nat)       // the `_ (s, sw, per)` form
    | IdadeMosquitosDecadentes(s: nat, sw: nat)
    | IdadeMosquitosDecadentesPer(s: nat, sw: nat)   // the `_ (s, sw, per)` form
    | IdadeMaxMosquitosNaoAlados(fs: nat)
    | IdadeMaxMosquitosAtivos(s: nat, sw: nat)
    | IdadeMaxMosquitosDecadentes(s: nat, sw: nat)
    | CsOvos | CiOvos | BsOvos | BsOvosPer | BiOvos
    | CsLarvas | CiLarvas | BsLarvas | BsLarvasPer | BiLarvas
    | CsPupas | CiPupas | BsPupas | BsPupasPer | BiPupas
    | CsAtivos | CiAtivos | BsAtivos | BsAtivosPer | BiAtivos
    | CiclosLatenciaMosquitos
    | CiclosLatenciaMosquitosPer                     // the `_ (per)` form
    | IdadeMaxMosquitosDengue
    | TaxaSobrevivencia(fs: nat, s: nat, sw: nat)

  /** A sex and a Wolbachia flag. */
  predicate SexFlag(s: nat, sw: nat) {
    s < General.N_SEXOS && sw < 2
  }

  /** The arguments the header comment's numbering covers. */
  predicate InDomain(m: Macro) {
    match m
    case IdadeMosquitosNaoAlados(fs) => fs < General.ATIVA
    case IdadeMosquitosNaoAladosPer(fs) => fs < General.ATIVA
    case IdadeMaxMosquitosNaoAlados(fs) => fs < General.ATIVA
    case IdadeMosquitosAtivos(s, sw) => SexFlag(s, sw)
    case IdadeMosquitosAtivosPer(s, sw) => SexFlag(s, sw)
    case IdadeMosquitosDecadentes(s, sw) => SexFlag(s, sw)
    case IdadeMosquitosDecadentesPer(s, sw) => SexFlag(s, sw)
    case IdadeMaxMosquitosAtivos(s, sw) => SexFlag(s, sw)
    case IdadeMaxMosquitosDecadentes(s, sw) => SexFlag(s, sw)
    case TaxaSobrevivencia(fs, s, sw) => fs <= General.ATIVA && SexFlag(s, sw)
    case _ => true
  }

  /** The parameter number TRAk the header comment assigns. */
  function Number(m: Macro): nat {
    match m
    case IdadeMosquitosNaoAlados(fs) => 1 + fs
    case IdadeMosquitosNaoAladosPer(fs) => 1 + fs
    case IdadeMaxMosquitosNaoAlados(fs) => 1 + fs
    case IdadeMosquitosAtivos(s, sw) => 4 + 2 * s + sw
    case IdadeMosquitosAtivosPer(s, sw) => 4 + 2 * s + sw
    case IdadeMaxMosquitosAtivos(s, sw) => 4 + 2 * s + sw
    case IdadeMosquitosDecadentes(s, sw) => 8 + 2 * s + sw
    case IdadeMosquitosDecadentesPer(s, sw) => 8 + 2 * s + sw
    case IdadeMaxMosquitosDecadentes(s, sw) => 8 + 2 * s + sw
    case CsOvos => 12
    case CiOvos => 13
    case BsOvos => 14
    case BsOvosPer => 14
    case BiOvos => 15
    case CsLarvas => 16
    case CiLarvas => 17
    case BsLarvas => 18
    case BsLarvasPer => 18
    case BiLarvas => 19
    case CsPupas => 20
    case CiPupas => 21
    case BsPupas => 22
    case BsPupasPer => 22
    case BiPupas => 23
    case CsAtivos => 24
    case CiAtivos => 25
    case BsAtivos => 26
    case BsAtivosPer => 26
    case BiAtivos => 27
    case CiclosLatenciaMosquitos => 28
    case CiclosLatenciaMosquitosPer => 28
    case IdadeMaxMosquitosDengue => 29
    case TaxaSobrevivencia(fs, s, sw) => 12 + 4 * fs + 2 * s + sw
  }

  /** The named survival-rate macro of a phase (eggs, larvae, pupae, active) and a C/B, S/I choice. */
  function NamedSurvival(fs: nat, s: nat, sw: nat): Macro {
    match (fs, s, sw)
    case (0, 0, 0) => CsOvos
    case (0, 0, _) => CiOvos
    case (0, _, 0) => BsOvos
    case (0, _, _) => BiOvos
    case (1, 0, 0) => CsLarvas
    case (1, 0, _) => CiLarvas
    case (1, _, 0) => BsLarvas
    case (1, _, _) => BiLarvas
    case (2, 0, 0) => CsPupas
    case (2, 0, _) => CiPupas
    case (2, _, 0) => BsPupas
    case (2, _, _) => BiPupas
    case (_, 0, 0) => CsAtivos
    case (_, 0, _) => CiAtivos
    case (_, _, 0) => BsAtivos
    case (_, _, _) => BiAtivos
  }

  /** The plain macro reading the whole pair of m's parameter. */
  function Owner(m: Macro): Macro {
    match m
    case IdadeMosquitosNaoAladosPer(fs) => IdadeMosquitosNaoAlados(fs)
    case IdadeMaxMosquitosNaoAlados(fs) => IdadeMosquitosNaoAlados(fs)
    case IdadeMosquitosAtivosPer(s, sw) => IdadeMosquitosAtivos(s, sw)
    case IdadeMaxMosquitosAtivos(s, sw) => IdadeMosquitosAtivos(s, sw)
    case IdadeMosquitosDecadentesPer(s, sw) => IdadeMosquitosDecadentes(s, sw)
    case IdadeMaxMosquitosDecadentes(s, sw) => IdadeMosquitosDecadentes(s, sw)
    case BsOvosPer => BsOvos
    case BsLarvasPer => BsLarvas
    case BsPupasPer => BsPupas
    case BsAtivosPer => BsAtivos
    case CiclosLatenciaMosquitosPer => CiclosLatenciaMosquitos
    case TaxaSobrevivencia(fs, s, sw) => NamedSurvival(fs, s, sw)
    case _ => m
  }

  /** The slots each macro's index expression reads, as written. */
  function ReadOf(m: Macro): Read {
    match m
    case IdadeMosquitosNaoAlados(fs) => Pair(DESL_3_TRA_M + 0 + fs * 2)
    case IdadeMosquitosNaoAladosPer(fs) => Pair(DESL_3_TRA_M + 0 + fs * 2)
    case IdadeMosquitosAtivos(s, sw) => Pair(DESL_3_TRA_M + 6 + s * 2 * 2 + sw * 2)
    case IdadeMosquitosAtivosPer(s, sw) => Pair(DESL_3_TRA_M + 6 + s * 2 * 2 + sw * 2)
    case IdadeMosquitosDecadentes(s, sw) => Pair(DESL_3_TRA_M + 14 + s * 2 * 2 + sw * 2)
    case IdadeMosquitosDecadentesPer(s, sw) => Pair(DESL_3_TRA_M + 14 + s * 2 * 2 + sw * 2)
    case IdadeMaxMosquitosNaoAlados(fs) => Single(DESL_3_TRA_M + 1 + fs * 2)
    case IdadeMaxMosquitosAtivos(s, sw) => Single(DESL_3_TRA_M + 7 + s * 2 * 2 + sw * 2)
    case IdadeMaxMosquitosDecadentes(s, sw) => Single(DESL_3_TRA_M + 15 + s * 2 * 2 + sw * 2)
    case CsOvos => Pair(DESL_3_TRA_M + 22)
    case CiOvos => Pair(DESL_3_TRA_M + 24)
    case BsOvos => Pair(DESL_3_TRA_M + 26)
    case BsOvosPer => Pair(DESL_3_TRA_M + 26)
    case BiOvos => Pair(DESL_3_TRA_M + 28)
    case CsLarvas => Pair(DESL_3_TRA_M + 30)
    case CiLarvas => Pair(DESL_3_TRA_M + 32)
    case BsLarvas => Pair(DESL_3_TRA_M + 34)
    case BsLarvasPer => Pair(DESL_3_TRA_M + 34)
    case BiLarvas => Pair(DESL_3_TRA_M + 36)
    case CsPupas => Pair(DESL_3_TRA_M + 38)
    case CiPupas => Pair(DESL_3_TRA_M + 40)
    case BsPupas => Pair(DESL_3_TRA_M + 42)
    case BsPupasPer => Pair(DESL_3_TRA_M + 42)
    case BiPupas => Pair(DESL_3_TRA_M + 44)
    case CsAtivos => Pair(DESL_3_TRA_M + 46)
    case CiAtivos => Pair(DESL_3_TRA_M + 48)
    case BsAtivos => Pair(DESL_3_TRA_M + 50)
    case BsAtivosPer => Pair(DESL_3_TRA_M + 50)
    case BiAtivos => Pair(DESL_3_TRA_M + 52)
    case CiclosLatenciaMosquitos => Pair(DESL_3_TRA_M + 54)
    case CiclosLatenciaMosquitosPer => Pair(DESL_3_TRA_M + 54)
    case IdadeMaxMosquitosDengue => Pair(DESL_3_TRA_M + 56)
    case TaxaSobrevivencia(fs, s, sw) => Pair(DESL_3_TRA_M + 22 + 8 * fs + 4 * s + 2 * sw)
  }

  /** Ages and cycles are converted to int, survival rates kept as doubles. */
  function CastOf(m: Macro): Cast {
    match m
    case IdadeMosquitosNaoAlados(_) => ToInt
    case IdadeMosquitosNaoAladosPer(_) => ToInt
    case IdadeMosquitosAtivos(_, _) => ToInt
    case IdadeMosquitosAtivosPer(_, _) => ToInt
    case IdadeMosquitosDecadentes(_, _) => ToInt
    case IdadeMosquitosDecadentesPer(_, _) => ToInt
    case IdadeMaxMosquitosNaoAlados(_) => ToInt
    case IdadeMaxMosquitosAtivos(_, _) => ToInt
    case IdadeMaxMosquitosDecadentes(_, _) => ToInt
    case CiclosLatenciaMosquitos => ToInt
    case CiclosLatenciaMosquitosPer => ToInt
    case IdadeMaxMosquitosDengue => ToInt
    case _ => ToDouble
  }

  /** Each macro reads parameter TRAk at offset 2(k - 1): the pair, or for the maxima the max alone. */
  lemma ReadsItsParameter(m: Macro)
    requires InDomain(m)
    ensures ReadsParameter(ReadOf(m), TraM3, Number(m))
    ensures ReadOf(m).Pair? ==> ReadOf(m).lo == MinSlot(TraM3, Number(m))
    ensures ReadOf(m).Single? ==> ReadOf(m).at == MinSlot(TraM3, Number(m)) + 1
  {
  }

  /** CS_OVOS (TRA012) is at offset 22, the latency cycles (TRA028) at 54, the dengue maximum age (TRA029) at 56. */
  lemma ConcreteOffsets()
    ensures ReadOf(CsOvos).lo - DESL_3_TRA_M == 22 && Number(CsOvos) == 12
    ensures ReadOf(CiclosLatenciaMosquitos).lo - DESL_3_TRA_M == 54 && Number(CiclosLatenciaMosquitos) == 28
    ensures ReadOf(IdadeMaxMosquitosDengue).lo - DESL_3_TRA_M == 56 && Number(IdadeMaxMosquitosDengue) == 29
  {
  }

  /** Non-winged ranges read 620..625, active ranges 626..633 and decadent ranges 634..641. */
  lemma AgeBlocks(fs: nat, s: nat, sw: nat)
    requires fs < General.ATIVA && SexFlag(s, sw)
    ensures forall x :: x in Slots(ReadOf(IdadeMosquitosNaoAlados(fs))) ==> 620 <= x <= 625
    ensures forall x :: x in Slots(ReadOf(IdadeMosquitosAtivos(s, sw))) ==> 626 <= x <= 633
    ensures forall x :: x in Slots(ReadOf(IdadeMosquitosDecadentes(s, sw))) ==> 634 <= x <= 641
  {
  }

  /** Each IDADE_MAX_ macro reads the max slot of the pair its range macro reads. */
  lemma MaximaReadRangeMax(fs: nat, s: nat, sw: nat)
    ensures ReadOf(IdadeMaxMosquitosNaoAlados(fs)) == Single(ReadOf(IdadeMosquitosNaoAlados(fs)).lo + 1)
    ensures ReadOf(IdadeMaxMosquitosAtivos(s, sw)) == Single(ReadOf(IdadeMosquitosAtivos(s, sw)).lo + 1)
    ensures ReadOf(IdadeMaxMosquitosDecadentes(s, sw)) == Single(ReadOf(IdadeMosquitosDecadentes(s, sw)).lo + 1)
  {
  }

  /** TAXA_SOBREVIVENCIA(fs, s, sw) reads the pair of the named survival macro of phase fs. */
  lemma SurvivalIsNamed(fs: nat, s: nat, sw: nat)
    requires fs <= General.ATIVA && SexFlag(s, sw)
    ensures ReadOf(TaxaSobrevivencia(fs, s, sw)) == ReadOf(NamedSurvival(fs, s, sw))
    ensures CastOf(TaxaSobrevivencia(fs, s, sw)) == CastOf(NamedSurvival(fs, s, sw))
    ensures Number(TaxaSobrevivencia(fs, s, sw)) == Number(NamedSurvival(fs, s, sw))
  {
  }

  /** For example, phase 1 with s = 1 and sw = 0 is BS_LARVAS. */
  lemma SurvivalExample()
    ensures ReadOf(TaxaSobrevivencia(General.LARVA, 1, 0)) == ReadOf(BsLarvas)
  {
  }

  /** Every slot any macro reads lies in [620, 678). */
  lemma ReadsInsideSlice(m: Macro)
    requires InDomain(m)
    ensures forall x :: x in Slots(ReadOf(m)) ==> InSlice(x, TraM3) && 620 <= x < 678
  {
    ReadsItsParameter(m);
    ParameterInSlice(ReadOf(m), TraM3, Number(m));
  }

  /** The plain macro owning the pair of parameter TRAk, read off the header comment. */
  function OwnerOfNumber(k: nat): Macro
    requires 1 <= k
  {
    if k <= 3 then IdadeMosquitosNaoAlados(k - 1)
    else if k <= 7 then IdadeMosquitosAtivos((k - 4) / 2, (k - 4) % 2)
    else if k <= 11 then IdadeMosquitosDecadentes((k - 8) / 2, (k - 8) % 2)
    else if k <= 27 then NamedSurvival((k - 12) / 4, (k - 12) % 4 / 2, (k - 12) % 2)
    else if k == 28 then CiclosLatenciaMosquitos
    else IdadeMaxMosquitosDengue
  }

  /** The owner of a macro is determined by the parameter it reads. */
  lemma OwnerByNumber(m: Macro)
    requires InDomain(m)
    ensures Owner(m) == OwnerOfNumber(Number(m))
  {
    if IsAge(m) {
      AgeOwnerByNumber(m);
    } else if m.TaxaSobrevivencia? {
      SurvivalByNumber(m.fs, m.s, m.sw);
    } else if SurvivalPhase(m) == 0 {
      EggSurvivalByNumber(m);
    } else if SurvivalPhase(m) == 1 {
      LarvaSurvivalByNumber(m);
    } else if SurvivalPhase(m) == 2 {
      PupaSurvivalByNumber(m);
    } else if SurvivalPhase(m) == 3 {
      ActiveSurvivalByNumber(m);
    }
  }

  /** The age macros of active and decadent mosquitos, numbered by sex and flag. */
  predicate IsAge(m: Macro) {
    || m.IdadeMosquitosAtivos? || m.IdadeMosquitosAtivosPer? || m.IdadeMaxMosquitosAtivos?
    || m.IdadeMosquitosDecadentes? || m.IdadeMosquitosDecadentesPer? || m.IdadeMaxMosquitosDecadentes?
  }

  /** The phase of a named survival-rate macro (eggs 0 to active 3), -1 for the others. */
  function SurvivalPhase(m: Macro): int {
    match m
    case CsOvos | CiOvos | BsOvos | BsOvosPer | BiOvos => 0
    case CsLarvas | CiLarvas | BsLarvas | BsLarvasPer | BiLarvas => 1
    case CsPupas | CiPupas | BsPupas | BsPupasPer | BiPupas => 2
    case CsAtivos | CiAtivos | BsAtivos | BsAtivosPer | BiAtivos => 3
    case _ => -1
  }

  lemma AgeOwnerByNumber(m: Macro)
    requires InDomain(m) && IsAge(m)
    ensures Owner(m) == OwnerOfNumber(Number(m))
  {
    match m
    case IdadeMosquitosAtivos(s, sw) => SplitsPair(s, sw);
    case IdadeMosquitosAtivosPer(s, sw) => SplitsPair(s, sw);
    case IdadeMaxMosquitosAtivos(s, sw) => SplitsPair(s, sw);
    case IdadeMosquitosDecadentes(s, sw) => SplitsPair(s, sw);
    case IdadeMosquitosDecadentesPer(s, sw) => SplitsPair(s, sw);
    case IdadeMaxMosquitosDecadentes(s, sw) => SplitsPair(s, sw);
  }

  lemma EggSurvivalByNumber(m: Macro)
    requires SurvivalPhase(m) == 0
    ensures Owner(m) == OwnerOfNumber(Number(m))
  {
  }

  lemma LarvaSurvivalByNumber(m: Macro)
    requires SurvivalPhase(m) == 1
    ensures Owner(m) == OwnerOfNumber(Number(m))
  {
  }

  lemma PupaSurvivalByNumber(m: Macro)
    requires SurvivalPhase(m) == 2
    ensures Owner(m) == OwnerOfNumber(Number(m))
  {
  }

  lemma ActiveSurvivalByNumber(m: Macro)
    requires SurvivalPhase(m) == 3
    ensures Owner(m) == OwnerOfNumber(Number(m))
  {
  }

  /** The offset `2 * s + sw` of a sex and flag gives both back. */
  lemma SplitsPair(s: nat, sw: nat)
    requires SexFlag(s, sw)
    ensures (2 * s + sw) / 2 == s && (2 * s + sw) % 2 == sw
  {
    if s == 0 {
      if sw == 0 { assert 2 * s + sw == 0; } else { assert 2 * s + sw == 1; }
    } else {
      if sw == 0 { assert 2 * s + sw == 2; } else { assert 2 * s + sw == 3; }
    }
  }

  /** A survival rate's parameter number names the macro of its phase, sex and flag. */
  lemma SurvivalByNumber(fs: nat, s: nat, sw: nat)
    requires fs <= General.ATIVA && SexFlag(s, sw)
    ensures OwnerOfNumber(12 + 4 * fs + 2 * s + sw) == NamedSurvival(fs, s, sw)
  {
    var k := 12 + 4 * fs + 2 * s + sw;
    SplitsPair(s, sw);
    var r := 2 * s + sw;
    assert 4 * fs + r == fs * 4 + r;
    assert (k - 12) / 4 == fs && (k - 12) % 4 / 2 == s && (k - 12) % 2 == sw;
  }

  /** Macros share a parameter only with the plain macro that owns its pair. */
  lemma NumberInjective(m: Macro, m': Macro)
    requires InDomain(m) && InDomain(m')
    requires Number(m) == Number(m')
    ensures Owner(m) == Owner(m')
  {
    OwnerByNumber(m);
    OwnerByNumber(m');
  }

  /** Macros of different parameters read disjoint slots. */
  lemma ReadsDisjoint(m: Macro, m': Macro)
    requires InDomain(m) && InDomain(m')
    requires Owner(m) != Owner(m')
    ensures Slots(ReadOf(m)) !! Slots(ReadOf(m'))
  {
    ReadsItsParameter(m);
    ReadsItsParameter(m');
    if Number(m) == Number(m') {
      NumberInjective(m, m');
    }
    DistinctParametersDisjoint(ReadOf(m), ReadOf(m'), TraM3, Number(m), Number(m'));
  }

  /** Every `_` form reads what its plain form reads and converts it alike. */
  lemma VariantsAgree()
    ensures forall fs :: ReadOf(IdadeMosquitosNaoAladosPer(fs)) == ReadOf(IdadeMosquitosNaoAlados(fs))
    ensures forall s, sw :: ReadOf(IdadeMosquitosAtivosPer(s, sw)) == ReadOf(IdadeMosquitosAtivos(s, sw))
    ensures forall s, sw :: ReadOf(IdadeMosquitosDecadentesPer(s, sw)) == ReadOf(IdadeMosquitosDecadentes(s, sw))
    ensures ReadOf(BsOvosPer) == ReadOf(BsOvos) && ReadOf(BsLarvasPer) == ReadOf(BsLarvas)
    ensures ReadOf(BsPupasPer) == ReadOf(BsPupas) && ReadOf(BsAtivosPer) == ReadOf(BsAtivos)
    ensures ReadOf(CiclosLatenciaMosquitosPer) == ReadOf(CiclosLatenciaMosquitos)
    ensures forall fs :: CastOf(IdadeMosquitosNaoAladosPer(fs)) == CastOf(IdadeMosquitosNaoAlados(fs))
    ensures CastOf(CiclosLatenciaMosquitosPer) == CastOf(CiclosLatenciaMosquitos)
  {
  }

  /** The value a macro yields from the parameter vector p and the percentage per. */
  function Value(p: seq<real>, m: Macro, per: real): real
    requires |p| == N_PAR && InDomain(m)
  {
    ReadsItsParameter(m);
    ParameterWithinVector(ReadOf(m), TraM3, Number(m));
    Resolve(p, ReadOf(m), CastOf(m), per)
  }
}
