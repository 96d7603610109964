/**
 * The flat parameter vector of the GPU simulator. The parameters of the
 * thirteen input files are stored one after another in a single vector of
 * doubles, every parameter as a (min, max) pair, so input file X owns the
 * slice [DESL_X, DESL_X + 2 * N_X). An access macro either interpolates
 * between the two bounds of a pair with a percentage (ENTRE_FAIXA) or reads
 * one bound directly, and then converts the double to int or keeps it.
 */
module Parameters {

  // The number of parameters in each input file.
  const N_0_SIM: nat := 4
  const N_0_INI_H: nat := 196
  const N_1_MOV_H: nat := 7
  const N_2_CON_H: nat := 20
  const N_3_TRA_H: nat := 30
  const N_4_CON_H: nat := 1
  const N_5_INS_H: nat := 10
  const N_0_INI_M: nat := 17
  const N_1_MOV_M: nat := 13
  const N_2_CON_M: nat := 12
  const N_3_TRA_M: nat := 29
  const N_4_CON_M: nat := 29
  const N_5_GER_M: nat := 11

  // The offset of each input file's slice, as written (not computed).
  const DESL_0_SIM: nat := 0
  const DESL_0_INI_H: nat := 8
  const DESL_1_MOV_H: nat := 400
  const DESL_2_CON_H: nat := 414
  const DESL_3_TRA_H: nat := 454
  const DESL_4_CON_H: nat := 514
  const DESL_5_INS_H: nat := 516
  const DESL_0_INI_M: nat := 536
  const DESL_1_MOV_M: nat := 570
  const DESL_2_CON_M: nat := 596
  const DESL_3_TRA_M: nat := 620
  const DESL_4_CON_M: nat := 678
  const DESL_5_GER_M: nat := 736

  /** The size of the parameter vector. */
  const N_PAR: nat := 758

  /** The input files, in the order their slices are laid out. */
  datatype InputFile =
    | Sim0 | IniH0 | MovH1 | ConH2 | TraH3 | ConH4 | InsH5
    | IniM0 | MovM1 | ConM2 | TraM3 | ConM4 | GerM5

  /** N_X: how many parameters file X holds. */
  function Count(f: InputFile): nat {
    match f
    case Sim0 => N_0_SIM
    case IniH0 => N_0_INI_H
    case MovH1 => N_1_MOV_H
    case ConH2 => N_2_CON_H
    case TraH3 => N_3_TRA_H
    case ConH4 => N_4_CON_H
    case InsH5 => N_5_INS_H
    case IniM0 => N_0_INI_M
    case MovM1 => N_1_MOV_M
    case ConM2 => N_2_CON_M
    case TraM3 => N_3_TRA_M
    case ConM4 => N_4_CON_M
    case GerM5 => N_5_GER_M
  }

  /** DESL_X: where the slice of file X starts. */
  function Offset(f: InputFile): nat {
    match f
    case Sim0 => DESL_0_SIM
    case IniH0 => DESL_0_INI_H
    case MovH1 => DESL_1_MOV_H
    case ConH2 => DESL_2_CON_H
    case TraH3 => DESL_3_TRA_H
    case ConH4 => DESL_4_CON_H
    case InsH5 => DESL_5_INS_H
    case IniM0 => DESL_0_INI_M
    case MovM1 => DESL_1_MOV_M
    case ConM2 => DESL_2_CON_M
    case TraM3 => DESL_3_TRA_M
    case ConM4 => DESL_4_CON_M
    case GerM5 => DESL_5_GER_M
  }

  /** The file laid out right before f, if any. */
  function Previous(f: InputFile): Option<InputFile> {
    match f
    case Sim0 => None
    case IniH0 => Some(Sim0)
    case MovH1 => Some(IniH0)
    case ConH2 => Some(MovH1)
    case TraH3 => Some(ConH2)
    case ConH4 => Some(TraH3)
    case InsH5 => Some(ConH4)
    case IniM0 => Some(InsH5)
    case MovM1 => Some(IniM0)
    case ConM2 => Some(MovM1)
    case TraM3 => Some(ConM2)
    case ConM4 => Some(TraM3)
    case GerM5 => Some(ConM4)
  }

  datatype Option<T> = None | Some(value: T)

  /** The end (exclusive) of the slice of file f. */
  function End(f: InputFile): nat {
    Offset(f) + 2 * Count(f)
  }

  /**
   * The offsets written as literals are the ones their comments derive: the
   * first is 0 and each other one is the previous offset plus twice the
   * previous count.
   */
  lemma OffsetsFollowCounts(f: InputFile)
    ensures Previous(f).None? ==> Offset(f) == 0
    ensures Previous(f).Some? ==> Offset(f) == End(Previous(f).value)
  {
  }

  /** N_PAR is the end of the last slice. */
  lemma VectorSize()
    ensures N_PAR == End(GerM5)
    ensures forall f :: End(f) <= N_PAR
  {
  }

  /** Slot s lies in the slice of file f. */
  predicate InSlice(s: int, f: InputFile) {
    Offset(f) <= s < End(f)
  }

  /** The file whose slice holds slot s, found by comparing s with the offsets. */
  function FileOf(s: nat): (f: InputFile)
    requires s < N_PAR
    ensures InSlice(s, f)
  {
    if s < DESL_0_INI_H then Sim0
    else if s < DESL_1_MOV_H then IniH0
    else if s < DESL_2_CON_H then MovH1
    else if s < DESL_3_TRA_H then ConH2
    else if s < DESL_4_CON_H then TraH3
    else if s < DESL_5_INS_H then ConH4
    else if s < DESL_0_INI_M then InsH5
    else if s < DESL_1_MOV_M then IniM0
    else if s < DESL_2_CON_M then MovM1
    else if s < DESL_3_TRA_M then ConM2
    else if s < DESL_4_CON_M then TraM3
    else if s < DESL_5_GER_M then ConM4
    else GerM5
  }

  /** Every slice lies inside the vector. */
  lemma SliceInsideVector(s: int, f: InputFile)
    requires InSlice(s, f)
    ensures 0 <= s < N_PAR
  {
    VectorSize();
  }

  /** The slices are pairwise disjoint: a slot belongs to one file only. */
  lemma SlicesDisjoint(s: int, f: InputFile, g: InputFile)
    requires InSlice(s, f) && InSlice(s, g)
    ensures f == g
  {
    SliceInsideVector(s, f);
    SliceIsFileOf(s, f);
    SliceIsFileOf(s, g);
  }

  /** The only file whose slice holds s is FileOf(s). */
  lemma SliceIsFileOf(s: nat, f: InputFile)
    requires InSlice(s, f)
    ensures s < N_PAR && f == FileOf(s)
  {
    SliceInsideVector(s, f);
    match f
    case Sim0 =>
    case IniH0 =>
    case MovH1 =>
    case ConH2 =>
    case TraH3 =>
    case ConH4 =>
    case InsH5 =>
    case IniM0 =>
    case MovM1 =>
    case ConM2 =>
    case TraM3 =>
    case ConM4 =>
    case GerM5 =>
  }

  /** The slices tile [0, N_PAR): every slot of the vector is in some slice. */
  lemma SlicesCover(s: nat)
    requires s < N_PAR
    ensures exists f :: InSlice(s, f)
  {
    assert InSlice(s, FileOf(s));
  }

  /**
   * Parameter k of file f, numbered from 1 as the header comments number
   * them, has its min at slot MinSlot(f, k) and its max right after it.
   */
  function MinSlot(f: InputFile, k: nat): nat
    requires 1 <= k
  {
    Offset(f) + 2 * (k - 1)
  }

  /** The inverse of MinSlot: the parameter number of a slot of f's slice. */
  function ParameterOf(s: nat, f: InputFile): (k: nat)
    requires InSlice(s, f)
    ensures 1 <= k <= Count(f)
    ensures s == MinSlot(f, k) || s == MinSlot(f, k) + 1
  {
    (s - Offset(f)) / 2 + 1
  }

  /** What an access macro reads: a (min, max) pair, or one slot alone. */
  datatype Read = Pair(lo: nat) | Single(at: nat)

  /** The slots a read touches. */
  function Slots(r: Read): set<nat> {
    match r
    case Pair(lo) => {lo, lo + 1}
    case Single(at) => {at}
  }

  /** r reads parameter k of file f: its pair, its min alone or its max alone. */
  predicate ReadsParameter(r: Read, f: InputFile, k: nat) {
    1 <= k <= Count(f) &&
    (r == Pair(MinSlot(f, k)) || r == Single(MinSlot(f, k)) || r == Single(MinSlot(f, k) + 1))
  }

  /** A read of one of f's parameters stays inside f's slice. */
  lemma ParameterInSlice(r: Read, f: InputFile, k: nat)
    requires ReadsParameter(r, f, k)
    ensures forall s :: s in Slots(r) ==> InSlice(s, f)
  {
  }

  /** Reads of two different parameters of a file touch disjoint slots. */
  lemma DistinctParametersDisjoint(r: Read, r': Read, f: InputFile, k: nat, k': nat)
    requires ReadsParameter(r, f, k) && ReadsParameter(r', f, k')
    requires k != k'
    ensures Slots(r) !! Slots(r')
  {
  }

  /** Reads of parameters of two different files touch disjoint slots. */
  lemma DistinctFilesDisjoint(r: Read, r': Read, f: InputFile, f': InputFile, k: nat, k': nat)
    requires ReadsParameter(r, f, k) && ReadsParameter(r', f', k')
    requires f != f'
    ensures Slots(r) !! Slots(r')
  {
    ParameterInSlice(r, f, k);
    ParameterInSlice(r', f', k');
    forall s | s in Slots(r) && s in Slots(r')
      ensures false
    {
      SlicesDisjoint(s, f, f');
    }
  }

  /** The reads of slot s and of the parameter containing it agree. */
  lemma ParameterOfRead(r: Read, f: InputFile, k: nat, s: nat)
    requires ReadsParameter(r, f, k) && s in Slots(r)
    ensures ParameterOf(s, f) == k
  {
  }

  /** ENTRE_FAIXA(min, max, per): linear interpolation from min towards max. */
  function EntreFaixa(min: real, max: real, per: real): real {
    min + (max - min) * per
  }

  /** With 0 <= per < 1 the interpolation lies in [min, max), as documented. */
  lemma EntreFaixaInRange(min: real, max: real, per: real)
    requires min < max && 0.0 <= per < 1.0
    ensures min <= EntreFaixa(min, max, per) < max
  {
    WidthInRange(min, max - min, per);
  }

  /** EntreFaixaInRange stated over the width d of the range. */
  lemma WidthInRange(min: real, d: real, per: real)
    requires 0.0 < d && 0.0 <= per < 1.0
    ensures min <= EntreFaixa(min, min + d, per) < min + d
  {
    assert 0.0 <= d * per < d * 1.0;
  }

  /** Percentage 0 gives the min. */
  lemma EntreFaixaAtZero(min: real, max: real)
    ensures EntreFaixa(min, max, 0.0) == min
  {
  }

  /** A degenerate range gives its single value whatever the percentage. */
  lemma EntreFaixaDegenerate(m: real, per: real)
    ensures EntreFaixa(m, m, per) == m
  {
  }

  /** A larger percentage never gives a smaller value when min <= max. */
  lemma EntreFaixaMonotone(min: real, max: real, per: real, per': real)
    requires min <= max && per <= per'
    ensures EntreFaixa(min, max, per) <= EntreFaixa(min, max, per')
  {
    WidthMonotone(min, max - min, per, per' - per);
  }

  /** EntreFaixaMonotone stated over the width d and the step e. */
  lemma WidthMonotone(min: real, d: real, per: real, e: real)
    requires 0.0 <= d && 0.0 <= e
    ensures EntreFaixa(min, min + d, per) <= EntreFaixa(min, min + d, per + e)
  {
    assert 0.0 <= d * e;
  }

  /** C's conversion of a double to int truncates toward zero. */
  function Trunc(x: real): (r: int)
    ensures 0.0 <= x ==> 0 <= r && r as real <= x < r as real + 1.0
    ensures x < 0.0 ==> r <= 0 && r as real - 1.0 < x <= r as real
  {
    if x >= 0.0 then x.Floor else -((-x).Floor)
  }

  /** The conversion an access macro applies to what it reads. */
  datatype Cast = ToInt | ToDouble

  /** The slots of r exist in a vector of n doubles. */
  predicate Within(r: Read, n: nat) {
    match r
    case Pair(lo) => lo + 1 < n
    case Single(at) => at < n
  }

  /**
   * The value an access macro yields: the pair interpolated with the
   * percentage per, or the single slot, then converted.
   */
  function Resolve(p: seq<real>, r: Read, c: Cast, per: real): real
    requires Within(r, |p|)
  {
    var x := match r
      case Pair(lo) => EntreFaixa(p[lo], p[lo + 1], per)
      case Single(at) => p[at];
    match c
    case ToInt => Trunc(x) as real
    case ToDouble => x
  }

  /**
   * A read of any parameter of any file is safe in the full vector.
   */
  lemma ParameterWithinVector(r: Read, f: InputFile, k: nat)
    requires ReadsParameter(r, f, k)
    ensures Within(r, N_PAR)
  {
    ParameterInSlice(r, f, k);
    match r
    case Pair(lo) => SliceInsideVector(lo + 1, f);
    case Single(at) => SliceInsideVector(at, f);
  }

  /** An interpolated double parameter lies between its bounds. */
  lemma ResolvedInRange(p: seq<real>, lo: nat, per: real)
    requires lo + 1 < |p| && p[lo] < p[lo + 1] && 0.0 <= per < 1.0
    ensures p[lo] <= Resolve(p, Pair(lo), ToDouble, per) < p[lo + 1]
  {
    EntreFaixaInRange(p[lo], p[lo + 1], per);
  }

  /**
   * An interpolated int parameter with non-negative bounds lies in
   * [floor of min, max).
   */
  lemma ResolvedIntInRange(p: seq<real>, lo: nat, per: real)
    requires lo + 1 < |p| && 0.0 <= p[lo] < p[lo + 1] && 0.0 <= per < 1.0
    ensures p[lo].Floor as real <= Resolve(p, Pair(lo), ToInt, per) < p[lo + 1]
  {
    EntreFaixaInRange(p[lo], p[lo + 1], per);
  }

  /** MAX_UINT32: the largest 32-bit unsigned value. */
  const MAX_UINT32: bv32 := 4294967295

  lemma MaxUint32IsLargest(w: bv32)
    ensures MAX_UINT32 as int == 0x1_0000_0000 - 1
    ensures w <= MAX_UINT32
  {
  }
}
